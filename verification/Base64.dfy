/** The base64url codec of the token module. Shifts and masks of the program are
    written as divisions and remainders, and the "or" of disjoint bits as a sum. */
module Base64 {
  import opened Wrappers
  import opened Texts

  // ---- Alphabet -----------------------------------------------------------------

  /** kB64Chars. */
  function B64Char(v: nat): (c: char)
    requires v < 64
    ensures c != '=' && c != '-' && c != '_' && c != '.' && c as int < 128
    ensures DecodeChar(c) == v
  {
    if v < 26 then ('A' as int + v) as char
    else if v < 52 then ('a' as int + v - 26) as char
    else if v < 62 then ('0' as int + v - 52) as char
    else if v == 62 then '+' else '/'
  }

  function DecodeChar(c: char): int {
    if 'A' <= c <= 'Z' then c as int - 'A' as int
    else if 'a' <= c <= 'z' then c as int - 'a' as int + 26
    else if '0' <= c <= '9' then c as int - '0' as int + 52
    else if c == '+' then 62
    else if c == '/' then 63
    else -1
  }

  function ToUrl(c: char): char { if c == '+' then '-' else if c == '/' then '_' else c }

  function FromUrl(c: char): char { if c == '-' then '+' else if c == '_' then '/' else c }

  // ---- Shifts ---------------------------------------------------------------------

  /** A remainder is shifted off. */
  lemma DivMod(q: nat, r: nat, d: nat)
    requires r < d
    ensures (q * d + r) / d == q && (q * d + r) % d == r
  {
    var x := q * d + r;
    assert x == (x / d) * d + x % d;
    var k := x / d - q;
    assert k * d == r - x % d;
    Multiple(k, d);
  }

  lemma Multiple(k: int, d: nat)
    ensures (k >= 1 ==> k * d >= d) && (k <= -1 ==> k * d + d <= 0)
  {
    if k >= 1 {
      assert k * d == (k - 1) * d + d;
    } else if k <= -1 {
      assert k * d + d == (k + 1) * d;
    }
  }

  // ---- Encoding -------------------------------------------------------------------

  /** One round of the encoding loop: it has always counted three bytes, because
      its test compares the advanced index with the length. */
  function EncodeGroup(a: nat, b: nat, c: nat): string
    requires a < 256 && b < 256 && c < 256
  {
    [B64Char(a / 4), B64Char((a % 4) * 16 + b / 16), B64Char((b % 16) * 4 + c / 64), B64Char(c % 64)]
  }

  function ByteAt(s: string, i: nat): (b: nat)
    requires IsBytes(s)
    ensures b < 256
  {
    if i < |s| then s[i] as int else 0
  }

  function EncodeFrom(s: string, i: nat): string
    requires IsBytes(s)
    decreases |s| - i
  {
    if i >= |s| then []
    else EncodeGroup(ByteAt(s, i), ByteAt(s, i + 1), ByteAt(s, i + 2)) + EncodeFrom(s, i + 3)
  }

  function StripPadding(s: string): string {
    if s != [] && s[|s| - 1] == '=' then StripPadding(s[..|s| - 1]) else s
  }

  function UrlEncode(s: string): string
    requires IsBytes(s)
  {
    StripPadding(Each(EncodeFrom(s, 0), ToUrl))
  }

  /** The index stops at the length in the last, short group. */
  lemma EncodeStep(s: string, start: nat, i: nat, group: string)
    requires IsBytes(s) && start < |s| && i == (if start + 3 <= |s| then start + 3 else |s|)
    requires group == EncodeGroup(ByteAt(s, start), ByteAt(s, start + 1), ByteAt(s, start + 2))
    ensures EncodeFrom(s, start) == group + EncodeFrom(s, i)
  {
    assert start + 3 >= |s| ==> EncodeFrom(s, start + 3) == EncodeFrom(s, i);
  }

  lemma FourChars(out: string, g: string, rest: string)
    requires |g| == 4
    ensures out + (g + rest) == out + [g[0]] + [g[1]] + [g[2]] + [g[3]] + rest
  {
  }

  method Base64Encode(input: string) returns (out: string)
    requires IsBytes(input)
    ensures out == EncodeFrom(input, 0)
  {
    hide IsBytes, B64Char, DecodeChar;
    out := [];
    var len := |input|;
    var i := 0;
    while i < len
      invariant 0 <= i
      invariant EncodeFrom(input, 0) == out + EncodeFrom(input, i)
    {
      var start := i;
      var a := input[i] as int;
      i := i + 1;
      var b := if i < len then input[i] as int else 0;
      i := if i < len then i + 1 else i;
      var c := if i < len then input[i] as int else 0;
      i := if i < len then i + 1 else i;
      var bytesInGroup := if i <= len then 3 else 3 - (i - len);
      var group := EncodeGroup(a, b, c);
      EncodeStep(input, start, i, group);
      FourChars(out, group, EncodeFrom(input, i));
      out := out + [group[0]] + [group[1]];
      out := out + [if bytesInGroup >= 2 then group[2] else '='];
      out := out + [if bytesInGroup >= 3 then group[3] else '='];
    }
  }

  method Base64UrlEncode(input: string) returns (out: string)
    requires IsBytes(input)
    ensures out == UrlEncode(input)
  {
    var standard := Base64Encode(input);
    out := [];
    for k := 0 to |standard|
      invariant out == Each(standard[..k], ToUrl)
    {
      out := out + [ToUrl(standard[k])];
    }
    assert standard[..|standard|] == standard;
    while out != [] && out[|out| - 1] == '='
      invariant StripPadding(out) == UrlEncode(input)
    {
      out := out[..|out| - 1];
    }
  }

  // ---- Decoding ---------------------------------------------------------------------

  function Byte(n: nat): char { (n % 256) as char }

  /** One round of the decoding loop; nothing when a character is not in the
      alphabet. */
  function DecodeGroup(g: string): Option<string>
    requires |g| == 4
  {
    var a, b := DecodeChar(g[0]), DecodeChar(g[1]);
    if a < 0 || b < 0 then None
    else
      var c := if g[2] != '=' then DecodeChar(g[2]) else 0;
      var d := if g[3] != '=' then DecodeChar(g[3]) else 0;
      if (g[2] != '=' && c < 0) || (g[3] != '=' && d < 0) then None
      else
        Some([Byte(a * 4 + b / 16)]
             + (if g[2] != '=' then [Byte((b % 16) * 16 + c / 4)] else [])
             + (if g[3] != '=' then [Byte((c % 4) * 64 + d)] else []))
  }

  function DecodeFrom(s: string, i: nat): Option<string>
    decreases |s| - i
  {
    if i + 3 >= |s| then Some([])
    else
      var g := DecodeGroup(s[i..i + 4]);
      if g.None? then None else After(g.value, DecodeFrom(s, i + 4))
  }

  function Pad(s: string): string
    decreases (4 - |s| % 4) % 4
  {
    if |s| % 4 == 0 then s else Pad(s + "=")
  }

  /** An invalid text decodes to nothing at all. */
  function UrlDecode(s: string): string {
    match DecodeFrom(Pad(Each(s, FromUrl)), 0)
    case None => []
    case Some(out) => out
  }

  /** What has been decoded, and then the rest if that decodes. */
  function After(out: string, rest: Option<string>): Option<string> {
    if rest.None? then None else Some(out + rest.value)
  }

  lemma AfterNothing(rest: Option<string>)
    ensures After([], rest) == rest
  {
    assert rest.Some? ==> [] + rest.value == rest.value;
  }

  lemma AfterTwo(a: string, b: string, rest: Option<string>)
    ensures After(a, After(b, rest)) == After(a + b, rest)
  {
    assert rest.Some? ==> a + (b + rest.value) == (a + b) + rest.value;
  }

  method DecodeRound(g: string) returns (ok: bool, bytes: string)
    requires |g| == 4
    ensures DecodeGroup(g) == if ok then Some(bytes) else None
  {
    var a, b := DecodeChar(g[0]), DecodeChar(g[1]);
    if a < 0 || b < 0 {
      return false, [];
    }
    var c := if g[2] != '=' then DecodeChar(g[2]) else 0;
    var d := if g[3] != '=' then DecodeChar(g[3]) else 0;
    if (g[2] != '=' && c < 0) || (g[3] != '=' && d < 0) {
      return false, [];
    }
    bytes := [Byte(a * 4 + b / 16)];
    bytes := bytes + if g[2] != '=' then [Byte((b % 16) * 16 + c / 4)] else [];
    bytes := bytes + if g[3] != '=' then [Byte((c % 4) * 64 + d)] else [];
    ok := true;
  }

  method Base64UrlDecode(input: string) returns (out: string)
    ensures out == UrlDecode(input)
  {
    hide Each, DecodeGroup;
    var s := [];
    for k := 0 to |input|
      invariant s == Each(input[..k], FromUrl)
    {
      s := s + [FromUrl(input[k])];
    }
    assert input[..|input|] == input;
    while |s| % 4 != 0
      invariant Pad(s) == Pad(Each(input, FromUrl))
      decreases (4 - |s| % 4) % 4
    {
      s := s + "=";
    }
    out := [];
    var i := 0;
    AfterNothing(DecodeFrom(s, 0));
    while i + 3 < |s|
      invariant 0 <= i
      invariant DecodeFrom(s, 0) == After(out, DecodeFrom(s, i))
    {
      var ok, bytes := DecodeRound(s[i..i + 4]);
      if !ok {
        return [];
      }
      AfterTwo(out, bytes, DecodeFrom(s, i + 4));
      out := out + bytes;
      i := i + 4;
    }
  }

  // ---- Round trip -------------------------------------------------------------------

  function Zeros(n: nat): string { seq(n, _ => 0 as char) }

  /** Four sextets hold three bytes. */
  predicate Packs(v0: nat, v1: nat, v2: nat, v3: nat, a: nat, b: nat, c: nat) {
    v0 * 4 + v1 / 16 == a && (v1 % 16) * 16 + v2 / 4 == b && (v2 % 4) * 64 + v3 == c
  }

  lemma GroupBits(a: nat, b: nat, c: nat) returns (v0: nat, v1: nat, v2: nat, v3: nat)
    requires a < 256 && b < 256 && c < 256
    ensures v0 < 64 && v1 < 64 && v2 < 64 && v3 < 64 && Packs(v0, v1, v2, v3, a, b, c)
    ensures EncodeGroup(a, b, c) == [B64Char(v0), B64Char(v1), B64Char(v2), B64Char(v3)]
  {
    v0, v1, v2, v3 := a / 4, (a % 4) * 16 + b / 16, (b % 16) * 4 + c / 64, c % 64;
    hide B64Char;
    assert v1 / 16 == a % 4 && v1 % 16 == b / 16;
    assert v2 / 4 == b % 16 && v2 % 4 == c / 64;
  }

  lemma CharRoundTrip(v: nat)
    requires v < 64
    ensures DecodeChar(B64Char(v)) == v && B64Char(v) != '='
  {
  }

  lemma GroupDecodes(g: string, v0: nat, v1: nat, v2: nat, v3: nat, a: nat, b: nat, c: nat)
    requires |g| == 4 && g[2] != '=' && g[3] != '=' && Packs(v0, v1, v2, v3, a, b, c)
    requires DecodeChar(g[0]) == v0 && DecodeChar(g[1]) == v1 && DecodeChar(g[2]) == v2 && DecodeChar(g[3]) == v3
    ensures DecodeGroup(g) == Some([Byte(a), Byte(b), Byte(c)])
  {
    hide DecodeChar, Byte;
    var x, y, z := Byte(a), Byte(b), Byte(c);
    assert [x] + [y] + [z] == [x, y, z];
  }

  lemma GroupRoundTrip(a: nat, b: nat, c: nat)
    requires a < 256 && b < 256 && c < 256
    ensures DecodeGroup(EncodeGroup(a, b, c)) == Some([a as char, b as char, c as char])
  {
    assert Byte(a) == a as char && Byte(b) == b as char && Byte(c) == c as char;
    hide *;
    var v0, v1, v2, v3 := GroupBits(a, b, c);
    CharRoundTrip(v0);
    CharRoundTrip(v1);
    CharRoundTrip(v2);
    CharRoundTrip(v3);
    GroupDecodes(EncodeGroup(a, b, c), v0, v1, v2, v3, a, b, c);
  }

  function Missing(n: nat): nat { (3 - n % 3) % 3 }

  /** The last, short group. */
  lemma LastGroup(s: string, i: nat)
    requires IsBytes(s) && i < |s| < i + 3
    ensures [ByteAt(s, i) as char, ByteAt(s, i + 1) as char, ByteAt(s, i + 2) as char]
         == s[i..] + Zeros(Missing(|s| - i))
  {
    var z := Zeros(Missing(|s| - i));
    if |s| == i + 1 {
      assert |z| == 2;
      assert s[i..] == [s[i]];
    } else {
      assert |s| == i + 2 && |z| == 1;
      assert s[i..] == [s[i], s[i + 1]];
    }
  }

  /** Decoding a text that continues, after `pre`, with a whole group. */
  lemma DecodeStep(pre: string, g: string, rest: string, all: string)
    requires |g| == 4 && DecodeGroup(g).Some? && all == pre + g + rest
    ensures DecodeFrom(all, |pre|) == After(DecodeGroup(g).value, DecodeFrom(all, |pre| + 4))
  {
    assert all[|pre|..|pre| + 4] == g;
  }

  lemma WholeGroup(s: string, i: nat)
    requires IsBytes(s) && i + 3 <= |s|
    ensures [ByteAt(s, i) as char, ByteAt(s, i + 1) as char, ByteAt(s, i + 2) as char] + Padded(s, i + 3)
         == Padded(s, i)
  {
    assert s[i..] == [s[i], s[i + 1], s[i + 2]] + s[i + 3..];
    assert Missing(|s| - i) == Missing(|s| - (i + 3));
  }

  /** The bytes from i on, filled up with zero bytes to whole groups. */
  function Padded(s: string, i: nat): string
    requires i <= |s|
  {
    s[i..] + Zeros(Missing(|s| - i))
  }

  /** The first group of an encoding, and what it stands for. */
  lemma FirstGroup(s: string, i: nat) returns (g: string, bytes: string)
    requires IsBytes(s) && i < |s|
    ensures |g| == 4 && EncodeFrom(s, i) == g + EncodeFrom(s, i + 3) && DecodeGroup(g) == Some(bytes)
    ensures if i + 3 <= |s| then bytes + Padded(s, i + 3) == Padded(s, i) else bytes == Padded(s, i)
  {
    g := EncodeGroup(ByteAt(s, i), ByteAt(s, i + 1), ByteAt(s, i + 2));
    bytes := [ByteAt(s, i) as char, ByteAt(s, i + 1) as char, ByteAt(s, i + 2) as char];
    GroupRoundTrip(ByteAt(s, i), ByteAt(s, i + 1), ByteAt(s, i + 2));
    if i + 3 <= |s| {
      WholeGroup(s, i);
    } else {
      LastGroup(s, i);
    }
  }

  lemma FourMore(n: nat)
    ensures (4 + n) % 4 == n % 4
  {
  }

  lemma {:induction false} EncodedLength(s: string, i: nat)
    requires IsBytes(s)
    ensures |EncodeFrom(s, i)| % 4 == 0
    decreases |s| - i
  {
    if i < |s| {
      EncodedLength(s, i + 3);
      var g, bytes := FirstGroup(s, i);
      FourMore(|EncodeFrom(s, i + 3)|);
    }
  }

  /** The encoding of the bytes from i on decodes to them and to as many zero bytes
      as the last group was short of. */
  lemma {:induction false} EncodedDecodes(s: string, i: nat, pre: string, all: string)
    requires IsBytes(s) && i <= |s| && all == pre + EncodeFrom(s, i)
    ensures DecodeFrom(all, |pre|) == Some(Padded(s, i))
    decreases |s| - i
  {
    if i < |s| {
      var g, bytes := FirstGroup(s, i);
      DecodeStep(pre, g, EncodeFrom(s, i + 3), all);
      if i + 3 <= |s| {
        EncodedDecodes(s, i + 3, pre + g, all);
      } else {
        assert bytes + [] == bytes;
        assert DecodeFrom(all, |pre| + 4) == Some([]);
      }
    } else {
      assert Padded(s, i) == [];
    }
  }

  /** The encoder's output: characters of the alphabet only. */
  predicate AllEncoded(s: string) {
    forall k :: 0 <= k < |s| ==> s[k] != '=' && s[k] != '-' && s[k] != '_' && s[k] != '.' && s[k] as int < 128
  }

  lemma {:induction false} EncodedAlphabet(s: string, i: nat)
    requires IsBytes(s)
    ensures AllEncoded(EncodeFrom(s, i)) && (i < |s| ==> EncodeFrom(s, i) != [])
    decreases |s| - i
  {
    if i < |s| {
      EncodedAlphabet(s, i + 3);
    }
  }

  /** What UrlEncode produces: no padding to strip, no dot, and not empty for a
      non-empty input. */
  lemma UrlEncodeShape(s: string)
    requires IsBytes(s)
    ensures UrlEncode(s) == Each(EncodeFrom(s, 0), ToUrl)
    ensures forall k :: 0 <= k < |UrlEncode(s)| ==> UrlEncode(s)[k] != '.'
    ensures s != [] ==> UrlEncode(s) != []
  {
    EncodedAlphabet(s, 0);
  }

  lemma EachUndone(e: string)
    requires AllEncoded(e)
    ensures Each(Each(e, ToUrl), FromUrl) == e
  {
    var u := Each(Each(e, ToUrl), FromUrl);
    forall k | 0 <= k < |e|
      ensures u[k] == e[k]
    {
      assert u[k] == FromUrl(ToUrl(e[k]));
    }
  }

  /** Encoding and decoding gives the bytes back, followed by zero bytes up to a
      multiple of three: four characters are written for every group, the last one
      included. */
  lemma UrlRoundTrip(s: string)
    requires IsBytes(s)
    ensures UrlDecode(UrlEncode(s)) == s + Zeros(Missing(|s|))
  {
    var e := EncodeFrom(s, 0);
    EncodedAlphabet(s, 0);
    UrlEncodeShape(s);
    EachUndone(e);
    assert [] + e == e;
    EncodedLength(s, 0);
    EncodedDecodes(s, 0, [], e);
    assert s[0..] == s;
  }

  /** The round trip is exact if and only if the length is a multiple of three. */
  lemma UrlRoundTripExactIff(s: string)
    requires IsBytes(s)
    ensures UrlDecode(UrlEncode(s)) == s <==> |s| % 3 == 0
  {
    UrlRoundTrip(s);
    Longer(s, Zeros(Missing(|s|)));
    MissingNone(|s|);
  }

  lemma MissingNone(n: nat)
    ensures Missing(n) == 0 <==> n % 3 == 0
  {
  }

  lemma Longer(s: string, z: string)
    ensures s + z == s <==> |z| == 0
  {
    assert |s + z| == |s| + |z|;
  }
}
