/** What the token decoder makes of any text at all: words of 24 bits (section 4 of
    RFC 4648). */
module Base64Words {
  import opened Wrappers
  import opened Texts
  import opened Base64

  /** The alphabet in order, and the two characters that differ in URLs. */
  lemma AlphabetOrder()
    ensures B64Char(0) == 'A' && B64Char(26) == 'a' && B64Char(52) == '0' && B64Char(62) == '+' && B64Char(63) == '/'
    ensures forall v :: 0 <= v < 61 && v != 25 && v != 51 ==> B64Char(v + 1) as int == B64Char(v) as int + 1
    ensures ToUrl('+') == '-' && ToUrl('/') == '_' && forall v :: 0 <= v < 62 ==> ToUrl(B64Char(v)) == B64Char(v)
  {
  }

  /** Trailing padding is dropped, and no other character. */
  lemma {:induction false} PaddingIsStripped(s: string, pad: string)
    requires (forall i :: 0 <= i < |pad| ==> pad[i] == '=') && (s != [] ==> s[|s| - 1] != '=')
    ensures StripPadding(s + pad) == s
    decreases |pad|
  {
    if pad == [] {
      assert s + pad == s;
    } else {
      assert (s + pad)[..|s + pad| - 1] == s + pad[..|pad| - 1];
      PaddingIsStripped(s, pad[..|pad| - 1]);
    }
  }

  // ---- One group ----------------------------------------------------------------------------

  predicate Stands(c: char, v: nat) { v < 64 && c == B64Char(v) }

  /** In the last two places padding stands for zero. */
  predicate StandsOrPads(c: char, v: nat) { if c == '=' then v == 0 else Stands(c, v) }

  /** The bytes of a word: as many as there are characters that are not padding behind
      the first two, after the first. */
  function WordBytes(word: nat, second: bool, third: bool): string {
    [Byte(word / 65536)] + (if second then [Byte(word / 256)] else []) + (if third then [Byte(word)] else [])
  }

  predicate GroupReads(g: string, a: nat, b: nat, c: nat, d: nat, bytes: string)
    requires |g| == 4
  {
    && Stands(g[0], a) && Stands(g[1], b) && StandsOrPads(g[2], c) && StandsOrPads(g[3], d)
    && bytes == WordBytes(a * 262144 + b * 4096 + c * 64 + d, g[2] != '=', g[3] != '=')
  }

  /** Four characters are the word of their values. */
  ghost predicate GroupSays(g: string, bytes: string)
    requires |g| == 4
  {
    exists a: nat, b: nat, c: nat, d: nat :: GroupReads(g, a, b, c, d, bytes)
  }

  lemma ValueIs(c: char, v: nat)
    requires v < 64
    ensures DecodeChar(c) == v <==> c == B64Char(v)
  {
  }

  lemma ValueRange(c: char)
    ensures DecodeChar(c) < 64 && (DecodeChar(c) >= 0 ==> Stands(c, DecodeChar(c)))
    ensures c == '=' ==> DecodeChar(c) < 0
  {
  }

  lemma WordParts(a: nat, b: nat, c: nat, d: nat, word: nat)
    requires a < 64 && b < 64 && c < 64 && d < 64 && word == a * 262144 + b * 4096 + c * 64 + d
    ensures word / 65536 == a * 4 + b / 16
    ensures (word / 256) % 256 == (b % 16) * 16 + c / 4 && word % 256 == (c % 4) * 64 + d
  {
    var bh, bl, ch, cl := b / 16, b % 16, c / 4, c % 4;
    DivMod(a * 4 + bh, bl * 4096 + c * 64 + d, 65536);
    DivMod((a * 4 + bh) * 256 + bl * 16 + ch, cl * 64 + d, 256);
    DivMod(a * 4 + bh, bl * 16 + ch, 256);
  }

  lemma SmallByte(n: nat, m: nat)
    requires n < 256 && m % 256 == n
    ensures Byte(m) == Byte(n)
  {
  }

  lemma BytesOfWord(a: nat, b: nat, c: nat, d: nat)
    requires a < 64 && b < 64 && c < 64 && d < 64
    ensures var word := a * 262144 + b * 4096 + c * 64 + d;
            && Byte(word / 65536) == Byte(a * 4 + b / 16)
            && Byte(word / 256) == Byte((b % 16) * 16 + c / 4)
            && Byte(word) == Byte((c % 4) * 64 + d)
  {
    var word := a * 262144 + b * 4096 + c * 64 + d;
    WordParts(a, b, c, d, word);
    SmallByte((b % 16) * 16 + c / 4, word / 256);
    SmallByte((c % 4) * 64 + d, word);
    hide Byte;
  }

  lemma DecodedGroup(g: string, a: nat, b: nat, c: nat, d: nat)
    requires |g| == 4 && Stands(g[0], a) && Stands(g[1], b) && StandsOrPads(g[2], c) && StandsOrPads(g[3], d)
    ensures DecodeGroup(g) == Some(WordBytes(a * 262144 + b * 4096 + c * 64 + d, g[2] != '=', g[3] != '='))
  {
    BytesOfWord(a, b, c, d);
    ValueIs(g[0], a);
    ValueIs(g[1], b);
    if g[2] != '=' {
      ValueIs(g[2], c);
    }
    if g[3] != '=' {
      ValueIs(g[3], d);
    }
    hide DecodeChar, B64Char, Byte;
  }

  /** What the characters of a group that decodes stand for. */
  lemma ValuesOf(g: string) returns (a: nat, b: nat, c: nat, d: nat)
    requires |g| == 4 && DecodeGroup(g).Some?
    ensures Stands(g[0], a) && Stands(g[1], b) && StandsOrPads(g[2], c) && StandsOrPads(g[3], d)
  {
    ValueRange(g[0]);
    ValueRange(g[1]);
    ValueRange(g[2]);
    ValueRange(g[3]);
    hide DecodeChar, Byte, Stands;
    a, b := DecodeChar(g[0]), DecodeChar(g[1]);
    c := if g[2] != '=' then DecodeChar(g[2]) else 0;
    d := if g[3] != '=' then DecodeChar(g[3]) else 0;
  }

  /** A group decodes to these bytes if and only if its characters stand for them. */
  lemma GroupIff(g: string, bytes: string)
    requires |g| == 4
    ensures DecodeGroup(g) == Some(bytes) <==> GroupSays(g, bytes)
  {
    hide B64Char, Byte, Stands, WordBytes, DecodeGroup, DecodeChar;
    if DecodeGroup(g) == Some(bytes) {
      var a, b, c, d := ValuesOf(g);
      DecodedGroup(g, a, b, c, d);
      assert GroupReads(g, a, b, c, d, bytes);
    }
    if GroupSays(g, bytes) {
      var a: nat, b: nat, c: nat, d: nat :| GroupReads(g, a, b, c, d, bytes);
      DecodedGroup(g, a, b, c, d);
    }
  }

  // ---- Whole texts --------------------------------------------------------------------------

  /** The text in the standard alphabet, filled up with padding to whole groups. */
  function Filled(s: string): (p: string)
    ensures |p| == (|s| + 3) / 4 * 4
  {
    seq((|s| + 3) / 4 * 4, i requires 0 <= i < (|s| + 3) / 4 * 4 => if i < |s| then Plain(s[i]) else '=')
  }

  /** A character as the standard alphabet has it; the decoder takes that too. */
  function Plain(c: char): char { if c == '-' then '+' else if c == '_' then '/' else c }

  /** The groups one after the other. */
  ghost predicate Says(p: string, out: string)
    decreases |p|
  {
    if |p| < 4 then out == []
    else exists bytes, rest :: out == bytes + rest && GroupSays(p[..4], bytes) && Says(p[4..], rest)
  }

  lemma {:induction false} PadIs(t: string)
    ensures Pad(t) == t + seq((|t| + 3) / 4 * 4 - |t|, _ => '=')
    decreases (4 - |t| % 4) % 4
  {
    var n := (|t| + 3) / 4 * 4 - |t|;
    if |t| % 4 == 0 {
      assert t + seq(0, _ => '=') == t;
    } else {
      PadIs(t + "=");
      assert (|t + "="| + 3) / 4 == (|t| + 3) / 4;
      assert "=" + seq(n - 1, _ => '=') == seq(n, _ => '=');
      assert t + "=" + seq(n - 1, _ => '=') == t + ("=" + seq(n - 1, _ => '='));
    }
  }

  lemma FilledIsPadded(s: string)
    ensures Pad(Each(s, FromUrl)) == Filled(s)
  {
    PadIs(Each(s, FromUrl));
  }

  lemma {:induction false} DecodesIff(p: string, i: nat, out: string)
    requires i <= |p|
    ensures DecodeFrom(p, i) == Some(out) <==> Says(p[i..], out)
    decreases |p| - i
  {
    hide DecodeGroup, GroupSays;
    if i + 4 <= |p| {
      var g, t := p[i..i + 4], p[i..];
      assert t[..4] == g && t[4..] == p[i + 4..];
      if DecodeFrom(p, i) == Some(out) {
        var rest := DecodeFrom(p, i + 4).value;
        GroupIff(g, DecodeGroup(g).value);
        DecodesIff(p, i + 4, rest);
      }
      if Says(t, out) {
        var bytes, rest :| out == bytes + rest && GroupSays(t[..4], bytes) && Says(t[4..], rest);
        GroupIff(g, bytes);
        DecodesIff(p, i + 4, rest);
      }
    }
  }

  /** Any text decodes to these bytes, if there are any, if and only if each of its groups
      stands for its share of them; with one group that stands for none, nothing at all is
      decoded. */
  lemma UrlDecodeIff(s: string, out: string)
    requires out != []
    ensures UrlDecode(s) == out <==> Says(Filled(s), out)
  {
    FilledIsPadded(s);
    hide Pad, Says, DecodeFrom, Filled;
    assert Filled(s)[0..] == Filled(s);
    DecodesIff(Filled(s), 0, out);
  }
}
