/** Page cursors: the base64url codec without padding (section 5 of RFC 4648), and the
    token of the last row of a page. The bytes pass through a 32-bit buffer. */
module Cursors {
  import opened Wrappers
  import opened Texts
  import opened Base64
  import opened ItemOrder

  const WORD := 0x1_0000_0000

  /** kAlpha. */
  function CursorChar(v: nat): char
    requires v < 64
  {
    ToUrl(B64Char(v))
  }

  /** kRev: the value of a character of the alphabet, or -1. */
  function Rev(c: char): int {
    if c == '-' then 62 else if c == '_' then 63 else if c == '+' || c == '/' then -1 else DecodeChar(c)
  }

  lemma RevOfChar(v: nat)
    requires v < 64
    ensures Rev(CursorChar(v)) == v
  {
  }

  // ---- Encoding -------------------------------------------------------------------------

  /** The characters of one group of up to three bytes: one more than it has bytes. */
  function GroupChars(a: nat, b: nat, c: nat, n: nat): (r: string)
    requires a < 256 && b < 256 && c < 256 && 1 <= n <= 3
    ensures |r| == n + 1
  {
    [CursorChar(a / 4), CursorChar((a % 4) * 16 + b / 16)]
    + (if n > 1 then [CursorChar((b % 16) * 4 + c / 64)] else [])
    + (if n > 2 then [CursorChar(c % 64)] else [])
  }

  function GroupSize(s: string, i: nat): nat
    requires i < |s|
  {
    if i + 3 <= |s| then 3 else |s| - i
  }

  function EncodeCursorFrom(s: string, i: nat): string
    requires IsBytes(s)
    decreases |s| - i
  {
    if i >= |s| then []
    else GroupChars(ByteAt(s, i), ByteAt(s, i + 1), ByteAt(s, i + 2), GroupSize(s, i)) + EncodeCursorFrom(s, i + 3)
  }

  /** The shifts and masks of the encoder, for a word of three bytes. */
  lemma GroupIs(word: nat, a: nat, b: nat, c: nat)
    requires a < 256 && b < 256 && c < 256 && word == a * 65536 + b * 256 + c
    ensures (word / 262144) % 64 == a / 4 && (word / 4096) % 64 == (a % 4) * 16 + b / 16
    ensures (word / 64) % 64 == (b % 16) * 4 + c / 64 && word % 64 == c % 64
  {
    var ah, al, bh, bl, ch, cl := a / 4, a % 4, b / 16, b % 16, c / 64, c % 64;
    DivMod(ah, al * 65536 + b * 256 + c, 262144);
    DivMod(0, ah, 64);
    DivMod(ah * 64 + al * 16 + bh, bl * 256 + c, 4096);
    DivMod(ah, al * 16 + bh, 64);
    DivMod((ah * 64 + al * 16 + bh) * 64 + bl * 4 + ch, cl, 64);
    DivMod(ah * 64 + al * 16 + bh, bl * 4 + ch, 64);
  }

  lemma GroupStep(s: string, i: nat, before: string, group: string)
    requires IsBytes(s) && i < |s|
    requires group == GroupChars(ByteAt(s, i), ByteAt(s, i + 1), ByteAt(s, i + 2), GroupSize(s, i))
    ensures before + EncodeCursorFrom(s, i) == before + group + EncodeCursorFrom(s, i + 3)
  {
    assert before + (group + EncodeCursorFrom(s, i + 3)) == before + group + EncodeCursorFrom(s, i + 3);
  }

  /** The encoder's pushes of one round. */
  method Group(a: nat, b: nat, c: nat, n: nat) returns (out: string)
    requires a < 256 && b < 256 && c < 256 && 1 <= n <= 3
    ensures out == GroupChars(a, b, c, n)
  {
    var word := a * 65536 + b * 256 + c;
    GroupIs(word, a, b, c);
    out := [CursorChar((word / 262144) % 64)];
    out := out + [CursorChar((word / 4096) % 64)];
    if n > 1 {
      out := out + [CursorChar((word / 64) % 64)];
    }
    if n > 2 {
      out := out + [CursorChar(word % 64)];
    }
  }

  method Encode(input: string) returns (out: string)
    requires IsBytes(input)
    ensures out == EncodeCursorFrom(input, 0)
  {
    out := [];
    var i := 0;
    while i < |input|
      invariant 0 <= i
      invariant EncodeCursorFrom(input, 0) == out + EncodeCursorFrom(input, i)
    {
      var group := Group(ByteAt(input, i), ByteAt(input, i + 1), ByteAt(input, i + 2), GroupSize(input, i));
      GroupStep(input, i, out, group);
      out := out + group;
      i := i + 3;
    }
  }

  // ---- Decoding -------------------------------------------------------------------------

  /** The buffer after shifting in a value: the top bits are lost. */
  function Shifted(buf: nat, v: nat): nat { (buf * 64 + v) % WORD }

  function ShiftRight(n: nat, bits: nat): nat
    decreases bits
  {
    if bits == 0 then n else ShiftRight(n / 2, bits - 1)
  }

  /** What is decoded from position i on; nothing when a character is not in the
      alphabet. */
  function DecodeCursorFrom(s: string, i: nat, buf: nat, bits: nat): Option<string>
    decreases |s| - i
  {
    if i >= |s| then Some([])
    else if Rev(s[i]) < 0 then None
    else
      var next := Shifted(buf, Rev(s[i]));
      if bits + 6 < 8 then DecodeCursorFrom(s, i + 1, next, bits + 6)
      else After([Byte(ShiftRight(next, bits - 2))], DecodeCursorFrom(s, i + 1, next, bits - 2))
  }

  method Decode(input: string) returns (out: Option<string>)
    ensures out == DecodeCursorFrom(input, 0, 0, 0)
  {
    hide Shifted, ShiftRight;
    var bytes := [];
    var buf, bits := 0, 0;
    AfterNothing(DecodeCursorFrom(input, 0, 0, 0));
    for i := 0 to |input|
      invariant 0 <= buf && 0 <= bits < 8
      invariant DecodeCursorFrom(input, 0, 0, 0) == After(bytes, DecodeCursorFrom(input, i, buf, bits))
    {
      var v := Rev(input[i]);
      if v < 0 {
        return None;
      }
      buf := Shifted(buf, v);
      bits := bits + 6;
      if bits >= 8 {
        bits := bits - 8;
        AfterTwo(bytes, [Byte(ShiftRight(buf, bits))], DecodeCursorFrom(input, i + 1, buf, bits));
        bytes := bytes + [Byte(ShiftRight(buf, bits))];
      }
    }
    assert bytes + [] == bytes;
    return Some(bytes);
  }

  // ---- Round trip ------------------------------------------------------------------------

  lemma ModMod(x: nat, k: nat)
    ensures (x % WORD) % 4096 == x % 4096
  {
    var q := x / WORD;
    assert x == q * WORD + x % WORD;
    ModShift(x % WORD, q * 1048576);
  }

  lemma ModShift(r: nat, q: nat)
    ensures (r + 4096 * q) % 4096 == r % 4096
  {
  }

  /** Only the last two values shifted in matter for the low twelve bits. */
  lemma LastTwo(buf: nat, v: nat, w: nat)
    requires v < 64 && w < 64
    ensures Shifted(Shifted(buf, v), w) % 4096 == v * 64 + w
  {
    var x := (buf * 64 + v) % WORD;
    ModMod(x * 64 + w, 0);
    ModMod(buf * 64 + v, 0);
    Sixty(x, v, w, buf);
  }

  lemma Sixty(x: nat, v: nat, w: nat, buf: nat)
    requires v < 64 && w < 64 && x % 4096 == (buf * 64 + v) % 4096
    ensures (x * 64 + w) % 4096 == v * 64 + w
  {
    var q, p := x / 4096, (buf * 64 + v) / 4096;
    assert x % 64 == v;
    var y := x / 64;
    assert x * 64 + w == (v * 64 + w) + 4096 * y;
    ModShift(v * 64 + w, y);
  }

  lemma ShiftIs(n: nat)
    ensures ShiftRight(n, 0) == n && ShiftRight(n, 2) == n / 4 && ShiftRight(n, 4) == n / 16
  {
    assert ShiftRight(n, 4) == ShiftRight(n / 2, 3) == ShiftRight(n / 2 / 2, 2);
    assert ShiftRight(n / 2 / 2, 2) == ShiftRight(n / 2 / 2 / 2, 1) == n / 2 / 2 / 2 / 2;
    assert ShiftRight(n, 2) == ShiftRight(n / 2, 1) == n / 2 / 2;
  }

  /** The byte that comes out with four, two or no bits left over. */
  lemma ByteOut(next: nat, x: nat, bits: nat)
    requires next % 4096 == x && (bits == 4 || bits == 2 || bits == 0)
    ensures ShiftRight(next, bits) % 256 == ShiftRight(x, bits) % 256
  {
    ShiftIs(next);
    ShiftIs(x);
    hide ShiftRight;
    if bits == 4 {
      Sixteenth(next);
    } else if bits == 2 {
      Quarter(next);
    } else {
      Whole(next);
    }
  }

  lemma Sixteenth(n: nat)
    ensures (n / 16) % 256 == ((n % 4096) / 16) % 256
  {
    var q, x := n / 4096, n % 4096;
    DivMod(q * 256 + x / 16, x % 16, 16);
    DivMod(q, x / 16, 256);
  }

  lemma Quarter(n: nat)
    ensures (n / 4) % 256 == ((n % 4096) / 4) % 256
  {
    var q, x := n / 4096, n % 4096;
    DivMod(q * 1024 + x / 4, x % 4, 4);
    DivMod(q * 4 + x / 1024, (x / 4) % 256, 256);
  }

  lemma Whole(n: nat)
    ensures n % 256 == (n % 4096) % 256
  {
    var q, x := n / 4096, n % 4096;
    DivMod(q * 16 + x / 256, x % 256, 256);
  }

  /** Two values shifted in, and the byte that comes out. */
  lemma Pair(buf: nat, v: nat, w: nat, bits: nat)
    requires v < 64 && w < 64 && (bits == 4 || bits == 2 || bits == 0)
    ensures Byte(ShiftRight(Shifted(Shifted(buf, v), w), bits)) as int == ShiftRight(v * 64 + w, bits) % 256
  {
    LastTwo(buf, v, w);
    ByteOut(Shifted(Shifted(buf, v), w), v * 64 + w, bits);
  }

  /** The three bytes of four values. */
  lemma FirstByte(a: nat, b: nat)
    requires a < 256 && b < 256
    ensures ShiftRight((a / 4) * 64 + ((a % 4) * 16 + b / 16), 4) % 256 == a
  {
    ShiftIs((a / 4) * 64 + ((a % 4) * 16 + b / 16));
    hide ShiftRight;
    DivMod(a, b / 16, 16);
  }

  lemma SecondByte(al: nat, b: nat, c: nat)
    requires al < 4 && b < 256 && c < 256
    ensures ShiftRight((al * 16 + b / 16) * 64 + ((b % 16) * 4 + c / 64), 2) % 256 == b
  {
    ShiftIs((al * 16 + b / 16) * 64 + ((b % 16) * 4 + c / 64));
    hide ShiftRight;
    DivMod(al * 256 + b, c / 64, 4);
    DivMod(al, b, 256);
  }

  lemma ThirdByte(bl: nat, c: nat)
    requires bl < 16 && c < 256
    ensures ShiftRight((bl * 4 + c / 64) * 64 + c % 64, 0) % 256 == c
  {
    ShiftIs((bl * 4 + c / 64) * 64 + c % 64);
    hide ShiftRight;
    DivMod(bl, c, 256);
  }

  lemma DecodeChar1(s: string, i: nat, buf: nat, bits: nat, v: nat)
    requires i < |s| && v < 64 && s[i] == CursorChar(v)
    ensures DecodeCursorFrom(s, i, buf, bits)
         == if bits < 2 then DecodeCursorFrom(s, i + 1, Shifted(buf, v), bits + 6)
            else After([Byte(ShiftRight(Shifted(buf, v), bits - 2))],
                       DecodeCursorFrom(s, i + 1, Shifted(buf, v), bits - 2))
  {
    RevOfChar(v);
    hide ShiftRight, Shifted, After, CursorChar, Rev;
  }

  /** The first byte of a group, from any buffer, takes two characters. */
  lemma FirstDecodes(s: string, i: nat, a: nat, b: nat, buf: nat) returns (next: nat)
    requires a < 256 && b < 256 && i + 2 <= |s|
    requires s[i] == CursorChar(a / 4) && s[i + 1] == CursorChar((a % 4) * 16 + b / 16)
    ensures next == Shifted(Shifted(buf, a / 4), (a % 4) * 16 + b / 16)
    ensures DecodeCursorFrom(s, i, buf, 0) == After([a as char], DecodeCursorFrom(s, i + 2, next, 4))
  {
    hide DecodeCursorFrom, Shifted, ShiftRight, After, CursorChar;
    var v, w := a / 4, (a % 4) * 16 + b / 16;
    next := Shifted(Shifted(buf, v), w);
    DecodeChar1(s, i, buf, 0, v);
    DecodeChar1(s, i + 1, Shifted(buf, v), 6, w);
    Pair(buf, v, w, 4);
    FirstByte(a, b);
  }

  /** The second byte takes one more, whose value has the low bits of the first. */
  lemma SecondDecodes(s: string, i: nat, al: nat, b: nat, c: nat, before: nat) returns (next: nat)
    requires al < 4 && b < 256 && c < 256 && i < |s| && s[i] == CursorChar((b % 16) * 4 + c / 64)
    ensures next == Shifted(Shifted(before, al * 16 + b / 16), (b % 16) * 4 + c / 64)
    ensures DecodeCursorFrom(s, i, Shifted(before, al * 16 + b / 16), 4)
         == After([b as char], DecodeCursorFrom(s, i + 1, next, 2))
  {
    hide DecodeCursorFrom, Shifted, ShiftRight, After, CursorChar;
    var v, w := al * 16 + b / 16, (b % 16) * 4 + c / 64;
    next := Shifted(Shifted(before, v), w);
    DecodeChar1(s, i, Shifted(before, v), 4, w);
    Pair(before, v, w, 2);
    SecondByte(al, b, c);
  }

  lemma ThirdDecodes(s: string, i: nat, bl: nat, c: nat, before: nat) returns (next: nat)
    requires bl < 16 && c < 256 && i < |s| && s[i] == CursorChar(c % 64)
    ensures DecodeCursorFrom(s, i, Shifted(before, bl * 4 + c / 64), 2)
         == After([c as char], DecodeCursorFrom(s, i + 1, next, 0))
  {
    hide DecodeCursorFrom, Shifted, ShiftRight, After, CursorChar;
    var v, w := bl * 4 + c / 64, c % 64;
    next := Shifted(Shifted(before, v), w);
    DecodeChar1(s, i, Shifted(before, v), 2, w);
    Pair(before, v, w, 0);
    ThirdByte(bl, c);
  }

  lemma TwoDecode(s: string, i: nat, a: nat, b: nat, c: nat, buf: nat) returns (v: nat, next: nat)
    requires a < 256 && b < 256 && c < 256 && i + 3 <= |s|
    requires s[i] == CursorChar(a / 4) && s[i + 1] == CursorChar((a % 4) * 16 + b / 16)
    requires s[i + 2] == CursorChar((b % 16) * 4 + c / 64)
    ensures next == Shifted(v, (b % 16) * 4 + c / 64)
    ensures DecodeCursorFrom(s, i, buf, 0) == After([a as char, b as char], DecodeCursorFrom(s, i + 3, next, 2))
  {
    hide DecodeCursorFrom, Shifted, CursorChar, After;
    v := FirstDecodes(s, i, a, b, buf);
    next := SecondDecodes(s, i + 2, a % 4, b, c, Shifted(buf, a / 4));
    AfterTwo([a as char], [b as char], DecodeCursorFrom(s, i + 3, next, 2));
    assert [a as char] + [b as char] == [a as char, b as char];
  }

  lemma ThreeDecode(s: string, i: nat, a: nat, b: nat, c: nat, buf: nat) returns (next: nat)
    requires a < 256 && b < 256 && c < 256 && i + 4 <= |s|
    requires s[i] == CursorChar(a / 4) && s[i + 1] == CursorChar((a % 4) * 16 + b / 16)
    requires s[i + 2] == CursorChar((b % 16) * 4 + c / 64) && s[i + 3] == CursorChar(c % 64)
    ensures DecodeCursorFrom(s, i, buf, 0)
         == After([a as char, b as char, c as char], DecodeCursorFrom(s, i + 4, next, 0))
  {
    hide DecodeCursorFrom, Shifted, CursorChar, After;
    var v, two := TwoDecode(s, i, a, b, c, buf);
    next := ThirdDecodes(s, i + 3, b % 16, c, v);
    AfterTwo([a as char, b as char], [c as char], DecodeCursorFrom(s, i + 4, next, 0));
    assert [a as char, b as char] + [c as char] == [a as char, b as char, c as char];
  }

  /** What EncodeCursorFrom writes for the bytes from i on decodes to them, from any
      buffer that holds no bits. */
  lemma {:induction false} EncodedDecodes(s: string, i: nat, pre: string, all: string, buf: nat)
    requires IsBytes(s) && i <= |s| && all == pre + EncodeCursorFrom(s, i)
    ensures DecodeCursorFrom(all, |pre|, buf, 0) == Some(s[i..])
    decreases |s| - i, 1
  {
    if i == |s| {
      assert all == pre && s[i..] == [];
    } else {
      var a, b, c := ByteAt(s, i), ByteAt(s, i + 1), ByteAt(s, i + 2);
      var n := GroupSize(s, i);
      var g := GroupChars(a, b, c, n);
      GroupAt(pre, g, EncodeCursorFrom(s, i + 3), all);
      if n == 3 {
        FourOf(a, b, c);
        hide DecodeCursorFrom, GroupChars, CursorChar, EncodeCursorFrom;
        assert all[|pre| + 0] == g[0] && all[|pre| + 1] == g[1] && all[|pre| + 2] == g[2] && all[|pre| + 3] == g[3];
        WholeGroupDecodes(s, i, pre, pre + g, all, a, b, c, buf);
      } else {
        LastGroupDecodes(s, i, pre, all, a, b, c, buf);
      }
    }
  }

  lemma GroupAt(pre: string, g: string, rest: string, all: string)
    requires all == pre + (g + rest)
    ensures |pre| + |g| <= |all| && forall k :: 0 <= k < |g| ==> all[|pre| + k] == g[k]
    ensures all == (pre + g) + rest
  {
  }

  lemma FourOf(a: nat, b: nat, c: nat)
    requires a < 256 && b < 256 && c < 256
    ensures var g := GroupChars(a, b, c, 3);
            && g[0] == CursorChar(a / 4) && g[1] == CursorChar((a % 4) * 16 + b / 16)
            && g[2] == CursorChar((b % 16) * 4 + c / 64) && g[3] == CursorChar(c % 64)
  {
    hide CursorChar;
  }

  lemma WholeGroupDecodes(s: string, i: nat, pre: string, pre': string, all: string, a: nat, b: nat, c: nat, buf: nat)
    requires IsBytes(s) && i + 3 <= |s| && all == pre' + EncodeCursorFrom(s, i + 3)
    requires a == ByteAt(s, i) && b == ByteAt(s, i + 1) && c == ByteAt(s, i + 2)
    requires |pre'| == |pre| + 4 <= |all|
    requires all[|pre|] == CursorChar(a / 4) && all[|pre| + 1] == CursorChar((a % 4) * 16 + b / 16)
    requires all[|pre| + 2] == CursorChar((b % 16) * 4 + c / 64) && all[|pre| + 3] == CursorChar(c % 64)
    ensures DecodeCursorFrom(all, |pre|, buf, 0) == Some(s[i..])
    decreases |s| - i, 0
  {
    hide *;
    var next := ThreeDecode(all, |pre|, a, b, c, buf);
    EncodedDecodes(s, i + 3, pre', all, next);
    ThreeOf(s, i);
    AfterSome([a as char, b as char, c as char], s[i + 3..]);
  }

  lemma AfterSome(out: string, rest: string)
    ensures After(out, Some(rest)) == Some(out + rest)
  {
  }

  lemma ThreeOf(s: string, i: nat)
    requires IsBytes(s) && i + 3 <= |s|
    ensures s[i..] == [ByteAt(s, i) as char, ByteAt(s, i + 1) as char, ByteAt(s, i + 2) as char] + s[i + 3..]
  {
  }

  lemma LastGroupDecodes(s: string, i: nat, pre: string, all: string, a: nat, b: nat, c: nat, buf: nat)
    requires IsBytes(s) && i < |s| < i + 3
    requires a == ByteAt(s, i) && b == ByteAt(s, i + 1) && c == ByteAt(s, i + 2)
    requires var g := GroupChars(a, b, c, GroupSize(s, i)); all == pre + g + EncodeCursorFrom(s, i + 3)
    ensures DecodeCursorFrom(all, |pre|, buf, 0) == Some(s[i..])
  {
    var n := GroupSize(s, i);
    var g := GroupChars(a, b, c, n);
    assert EncodeCursorFrom(s, i + 3) == [];
    assert |all| == |pre| + n + 1;
    assert all[|pre| + 0] == g[0] && all[|pre| + 1] == g[1] && (n > 1 ==> all[|pre| + 2] == g[2]);
    if n == 1 {
      var next := FirstDecodes(all, |pre|, a, b, buf);
      assert DecodeCursorFrom(all, |pre| + 2, next, 4) == Some([]);
      assert s[i..] == [a as char] + [];
    } else {
      var v, next := TwoDecode(all, |pre|, a, b, c, buf);
      assert DecodeCursorFrom(all, |pre| + 3, next, 2) == Some([]);
      assert s[i..] == [a as char, b as char] + [];
    }
  }

  /** Decoding what was encoded gives exactly the bytes back. */
  lemma CursorRoundTrip(s: string)
    requires IsBytes(s)
    ensures DecodeCursorFrom(EncodeCursorFrom(s, 0), 0, 0, 0) == Some(s)
  {
    assert [] + EncodeCursorFrom(s, 0) == EncodeCursorFrom(s, 0);
    EncodedDecodes(s, 0, [], EncodeCursorFrom(s, 0), 0);
    assert s[0..] == s;
  }

  // ---- Item cursors ----------------------------------------------------------------------

  /** The JSON text of a cursor and its reading. */
  datatype Json = Json(write: Key -> string, read: string -> Option<Key>)

  /** Written cursors are bytes, not empty, and read back. */
  ghost predicate JsonOk(j: Json) {
    forall k :: IsBytes(j.write(k)) && j.write(k) != [] && j.read(j.write(k)) == Some(k)
  }

  function EncodeItemCursor(j: Json, k: Key): string
    requires IsBytes(j.write(k))
  {
    EncodeCursorFrom(j.write(k), 0)
  }

  /** A token that is not base64url, or not a cursor, is no cursor. */
  function DecodeItemCursor(j: Json, token: string): Option<Key> {
    match DecodeCursorFrom(token, 0, 0, 0)
    case None => None
    case Some(bytes) => j.read(bytes)
  }

  lemma ItemCursorRoundTrip(j: Json, k: Key)
    requires JsonOk(j)
    ensures EncodeItemCursor(j, k) != [] && DecodeItemCursor(j, EncodeItemCursor(j, k)) == Some(k)
  {
    CursorRoundTrip(j.write(k));
  }
}
