/** What the cursor decoder makes of any text at all: numbers in base 64 and base 256. */
module CursorNumbers {
  import opened Wrappers
  import opened Texts
  import opened Base64
  import opened Cursors

  predicate IsCursorChar(c: char) { exists v :: 0 <= v < 64 && CursorChar(v) == c }

  lemma CharIff(c: char)
    ensures IsCursorChar(c) <==> Rev(c) >= 0
    ensures Rev(c) >= 0 ==> Rev(c) < 64 && CursorChar(Rev(c)) == c
  {
    if Rev(c) >= 0 {
      assert CursorChar(Rev(c)) == c;
    }
    if v :| 0 <= v < 64 && CursorChar(v) == c {
      RevOfChar(v);
    }
  }

  predicate AllCursorChars(s: string) { forall i :: 0 <= i < |s| ==> Rev(s[i]) >= 0 }

  /** The text as a number, first digit first. */
  function Base64Number(s: string): nat
    requires AllCursorChars(s)
  {
    if s == [] then 0 else Base64Number(s[..|s| - 1]) * 64 + Rev(s[|s| - 1])
  }

  function BytesNumber(s: string): nat
    requires IsBytes(s)
  {
    if s == [] then 0 else BytesNumber(s[..|s| - 1]) * 256 + s[|s| - 1] as int
  }

  function Power2(k: nat): nat { if k == 0 then 1 else 2 * Power2(k - 1) }

  /** All whole bytes of the number; up to six bits at the end are not looked at. */
  ghost predicate Reads(s: string, out: string) {
    && AllCursorChars(s) && IsBytes(out) && |out| == |s| * 6 / 8
    && BytesNumber(out) == Base64Number(s) / Power2(|s| * 6 % 8)
  }

  lemma Powers()
    ensures Power2(0) == 1 && Power2(2) == 4 && Power2(4) == 16 && Power2(6) == 64
  {
    assert Power2(2) == 2 * Power2(1) == 4;
    assert Power2(4) == 2 * Power2(3) == 4 * Power2(2);
    assert Power2(6) == 2 * Power2(5) == 4 * Power2(4);
  }

  lemma ShiftDivides(n: nat, bits: nat)
    requires bits == 0 || bits == 2 || bits == 4
    ensures ShiftRight(n, bits) == n / Power2(bits)
  {
    Powers();
    ShiftIs(n);
    hide ShiftRight, Power2;
  }

  /** The buffer holds enough of the number. */
  lemma ByteOfNumber(buf: nat, n: nat, bits: nat)
    requires buf == n % WORD && (bits == 0 || bits == 2 || bits == 4)
    ensures ShiftRight(buf, bits) % 256 == (n / Power2(bits)) % 256
  {
    ModMod(n, 0);
    hide ShiftRight, Power2;
    ByteOut(buf, n % 4096, bits);
    ByteOut(n, n % 4096, bits);
    ShiftDivides(n, bits);
  }

  lemma BufferIs(buf: nat, n: nat, v: nat)
    requires buf == n % WORD
    ensures Shifted(buf, v) == (n * 64 + v) % WORD
  {
    var q := n / WORD;
    assert n * 64 + v == (buf * 64 + v) + WORD * (q * 64);
    WordShift(buf * 64 + v, q * 64);
  }

  lemma WordShift(r: nat, q: nat)
    ensures (r + WORD * q) % WORD == r % WORD
  {
  }

  /** One more digit, and how many bits are then left over. */
  lemma OneMoreByte(n: nat, v: nat, bits: nat)
    requires v < 64 && (bits == 2 || bits == 4 || bits == 6)
    ensures var m := n * 64 + v;
            (n / Power2(bits)) * 256 + (m / Power2(bits - 2)) % 256 == m / Power2(bits - 2)
  {
    Powers();
    hide Power2;
    if bits == 2 {
      DivMod(n / 4, (n % 4) * 64 + v, 256);
    } else if bits == 4 {
      WordByte(n, v);
    } else {
      LongByte(n, v);
    }
  }

  lemma WordByte(n: nat, v: nat)
    requires v < 64
    ensures (n / 16) * 256 + ((n * 64 + v) / 4) % 256 == (n * 64 + v) / 4
  {
    var q, r := n / 16, n % 16;
    DivMod(q * 256 + r * 16 + v / 4, v % 4, 4);
    DivMod(q, r * 16 + v / 4, 256);
  }

  lemma LongByte(n: nat, v: nat)
    requires v < 64
    ensures (n / 64) * 256 + ((n * 64 + v) / 16) % 256 == (n * 64 + v) / 16
  {
    var q, r := n / 64, n % 64;
    DivMod(q * 256 + r * 4 + v / 16, v % 16, 16);
    DivMod(q, r * 4 + v / 16, 256);
  }

  lemma SixTimes(q: nat, r: nat)
    requires r <= 4
    ensures (4 * q + r) * 6 / 8 == 3 * q + 6 * r / 8 && (4 * q + r) * 6 % 8 == 6 * r % 8
  {
    DivMod(3 * q + 6 * r / 8, 6 * r % 8, 8);
  }

  lemma SixMore(i: nat)
    ensures i * 6 % 8 == 0 || i * 6 % 8 == 2 || i * 6 % 8 == 4 || i * 6 % 8 == 6
    ensures i * 6 % 8 == 0 ==> (i + 1) * 6 % 8 == 6 && (i + 1) * 6 / 8 == i * 6 / 8
    ensures i * 6 % 8 != 0 ==> (i + 1) * 6 % 8 == i * 6 % 8 - 2 && (i + 1) * 6 / 8 == i * 6 / 8 + 1
  {
    SixTimes(i / 4, i % 4);
    SixTimes(i / 4, i % 4 + 1);
  }

  lemma NumberGrows(s: string, i: nat)
    requires i < |s| && AllCursorChars(s)
    ensures AllCursorChars(s[..i]) && AllCursorChars(s[..i + 1])
    ensures Base64Number(s[..i + 1]) == Base64Number(s[..i]) * 64 + Rev(s[i])
  {
    assert s[..i + 1][..i] == s[..i];
  }

  lemma BytesGrow(s: string, n: nat)
    requires IsBytes(s)
    ensures IsBytes(s + [Byte(n)]) && BytesNumber(s + [Byte(n)]) == BytesNumber(s) * 256 + n % 256
  {
    assert (s + [Byte(n)])[..|s|] == s;
  }

  lemma FirstDigit(n: nat, v: nat)
    requires v < 64
    ensures (n * 64 + v) / Power2(6) == n / Power2(0)
  {
    Powers();
    DivMod(n, v, 64);
  }

  lemma FirstDigitReads(s: string, i: nat, sofar: string)
    requires i < |s| && AllCursorChars(s) && Reads(s[..i], sofar) && i * 6 % 8 == 0
    ensures Reads(s[..i + 1], sofar)
  {
    CharIff(s[i]);
    NumberGrows(s, i);
    SixMore(i);
    FirstDigit(Base64Number(s[..i]), Rev(s[i]));
    hide Rev, BytesNumber, Power2, Base64Number;
  }

  lemma NextDigitReads(s: string, i: nat, sofar: string, x: nat)
    requires i < |s| && AllCursorChars(s) && Reads(s[..i], sofar) && i * 6 % 8 != 0
    requires x % 256 == (Base64Number(s[..i + 1]) / Power2(i * 6 % 8 - 2)) % 256
    ensures Reads(s[..i + 1], sofar + [Byte(x)])
  {
    assert Rev(s[i]) >= 0;
    hide Rev, BytesNumber, Power2, Base64Number, Byte, IsBytes, AllCursorChars, CursorChar;
    CharIff(s[i]);
    NumberGrows(s, i);
    SixMore(i);
    OneMoreByte(Base64Number(s[..i]), Rev(s[i]), i * 6 % 8);
    BytesGrow(sofar, x);
  }

  /** From position i on, with the bytes so far. */
  lemma {:induction false} DecodesRest(s: string, i: nat, buf: nat, sofar: string) returns (out: string)
    requires i <= |s| && AllCursorChars(s) && buf == Base64Number(s[..i]) % WORD
    requires Reads(s[..i], sofar)
    ensures After(sofar, DecodeCursorFrom(s, i, buf, i * 6 % 8)) == Some(out) && Reads(s, out)
    decreases |s| - i
  {
    if i == |s| {
      assert s[..i] == s && sofar + [] == sofar;
      out := sofar;
    } else {
      var n, v, bits := Base64Number(s[..i]), Rev(s[i]), i * 6 % 8;
      NumberGrows(s, i);
      BufferIs(buf, n, v);
      SixMore(i);
      hide Shifted, ShiftRight, Rev, Reads, Power2, WORD, Base64Number;
      var next := Shifted(buf, v);
      if bits == 0 {
        FirstDigitReads(s, i, sofar);
        out := DecodesRest(s, i + 1, next, sofar);
      } else {
        var x := ShiftRight(next, bits - 2);
        ByteOfNumber(next, n * 64 + v, bits - 2);
        NextDigitReads(s, i, sofar, x);
        out := DecodesRest(s, i + 1, next, sofar + [Byte(x)]);
        AfterTwo(sofar, [Byte(x)], DecodeCursorFrom(s, i + 1, next, bits - 2));
      }
    }
  }

  lemma {:induction false} ForeignFails(s: string, i: nat, k: nat, buf: nat, bits: nat)
    requires i <= k < |s| && Rev(s[k]) < 0
    ensures DecodeCursorFrom(s, i, buf, bits) == None
    decreases k - i
  {
    hide Shifted, ShiftRight, Rev;
    if i < k && Rev(s[i]) >= 0 {
      var next := Shifted(buf, Rev(s[i]));
      ForeignFails(s, i + 1, k, next, if bits < 2 then bits + 6 else bits - 2);
    }
  }

  /** Bytes of one length are determined by their number. */
  lemma {:induction false} SameNumberSameBytes(a: string, b: string)
    requires IsBytes(a) && IsBytes(b) && |a| == |b| && BytesNumber(a) == BytesNumber(b)
    ensures a == b
  {
    if a != [] {
      var n := |a| - 1;
      var x, y := BytesNumber(a[..n]), BytesNumber(b[..n]);
      DivMod(x, a[n] as int, 256);
      DivMod(y, b[n] as int, 256);
      SameNumberSameBytes(a[..n], b[..n]);
      assert a == a[..n] + [a[n]] && b == b[..n] + [b[n]];
    }
  }

  /** A token decodes to these bytes if and only if all its characters are of the alphabet
      and the bytes are the whole bytes of its number, although only 32 bits of that are
      ever held. */
  lemma DecodeIff(s: string, out: string)
    ensures DecodeCursorFrom(s, 0, 0, 0) == Some(out) <==> Reads(s, out)
  {
    if AllCursorChars(s) {
      Powers();
      assert s[..0] == [] && Reads([], []);
      hide Power2, BytesNumber, Base64Number, DecodeCursorFrom;
      assert Base64Number([]) == 0 by {
        EmptyNumber();
      }
      var found := DecodesRest(s, 0, 0, []);
      AfterNothing(DecodeCursorFrom(s, 0, 0, 0));
      if Reads(s, out) {
        SameNumberSameBytes(found, out);
      }
    } else {
      var k :| 0 <= k < |s| && Rev(s[k]) < 0;
      ForeignFails(s, 0, k, 0, 0);
    }
  }

  lemma EmptyNumber()
    ensures Base64Number([]) == 0
  {
  }
}
