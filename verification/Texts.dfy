/** Byte strings: searching them, and decimal numbers in them. A byte string is a
    `string` whose characters are below 256. */
module Texts {
  import opened Wrappers

  predicate IsBytes(s: string) { forall i :: 0 <= i < |s| ==> s[i] as int < 256 }

  predicate Matches(s: string, needle: string, i: int) {
    0 <= i && i + |needle| <= |s| && s[i..i + |needle|] == needle
  }

  predicate Occurs(s: string, needle: string) { exists i :: 0 <= i <= |s| && Matches(s, needle, i) }

  /** The first match of all. */
  predicate FirstAt(s: string, needle: string, pos: nat) {
    Matches(s, needle, pos) && forall j :: 0 <= j < pos ==> !Matches(s, needle, j)
  }

  /** std::string::find: the first match at or after `from`, or -1. */
  function Find(s: string, needle: string, from: nat): (r: int)
    ensures r == -1 || (from <= r && Matches(s, needle, r))
    ensures forall j :: from <= j && (r == -1 || j < r) ==> !Matches(s, needle, j)
    decreases |s| - from
  {
    if from + |needle| > |s| then -1
    else if s[from..from + |needle|] == needle then from
    else Find(s, needle, from + 1)
  }

  lemma FindIs(s: string, needle: string, from: nat, at: nat)
    requires from <= at && Matches(s, needle, at)
    requires forall j :: from <= j < at ==> !Matches(s, needle, j)
    ensures Find(s, needle, from) == at
  {
  }

  /** A match can be read off character by character. */
  lemma MatchChars(s: string, needle: string, i: int)
    requires 0 <= i && i + |needle| <= |s|
    ensures Matches(s, needle, i) <==> forall k :: 0 <= k < |needle| ==> s[i + k] == needle[k]
  {
    if Matches(s, needle, i) {
      forall k | 0 <= k < |needle|
        ensures s[i + k] == needle[k]
      {
        assert s[i..i + |needle|][k] == s[i + k];
      }
    }
  }

  lemma OneCharMatch(s: string, c: char, j: nat)
    ensures Matches(s, [c], j) <==> j < |s| && s[j] == c
  {
    if j < |s| {
      assert s[j..j + 1] == [s[j]];
    }
  }

  /** What surrounds a stretch of text does not matter to matches inside it. */
  lemma MatchInside(a: string, b: string, c: string, needle: string, i: int)
    requires 0 <= i && i + |needle| <= |b|
    ensures Matches(a + b + c, needle, |a| + i) <==> Matches(b, needle, i)
  {
    assert (a + b + c)[|a| + i..|a| + i + |needle|] == b[i..i + |needle|];
  }

  function Each(s: string, f: char -> char): (r: string)
    ensures |r| == |s| && forall i :: 0 <= i < |s| ==> r[i] == f(s[i])
  {
    seq(|s|, i requires 0 <= i < |s| => f(s[i]))
  }

  function SkipSpaces(s: string, pos: nat): (r: nat)
    requires pos <= |s|
    ensures pos <= r <= |s|
    decreases |s| - pos
  {
    if pos < |s| && s[pos] == ' ' then SkipSpaces(s, pos + 1) else pos
  }

  /** The text does not start, at one of its positions, a match that reaches into the
      needle that follows it. */
  predicate NotBefore(h: string, needle: string) { forall j :: 0 <= j < |h| ==> !Matches(h + needle, needle, j) }

  /** The first match after `a` is where the needle stands. */
  lemma FindAfter(a: string, h: string, needle: string, rest: string)
    requires NotBefore(h, needle)
    ensures Find(a + h + needle + rest, needle, |a|) == |a| + |h|
  {
    var s := a + h + needle + rest;
    assert s == a + (h + needle) + rest;
    assert s[|a| + |h|..|a| + |h| + |needle|] == needle;
    forall j | |a| <= j < |a| + |h|
      ensures !Matches(s, needle, j)
    {
      MatchInside(a, h + needle, rest, needle, j - |a|);
    }
    FindIs(s, needle, |a|, |a| + |h|);
  }

  // ---- Decimal numbers ---------------------------------------------------------

  predicate IsDigit(c: char) { '0' <= c <= '9' }

  function Digit(d: nat): (c: char)
    requires d < 10
    ensures IsDigit(c) && c as int == '0' as int + d
  {
    ('0' as int + d) as char
  }

  function DecNat(n: nat): (s: string)
    ensures s != [] && forall i :: 0 <= i < |s| ==> IsDigit(s[i])
  {
    if n < 10 then [Digit(n)] else DecNat(n / 10) + [Digit(n % 10)]
  }

  /** A number as `operator<<` writes it. */
  function Dec(n: int): string { if n < 0 then "-" + DecNat(-n) else DecNat(n) }

  function DigitRun(s: string, from: nat): (n: nat)
    requires from <= |s|
    ensures from <= n <= |s| && (forall i :: from <= i < n ==> IsDigit(s[i])) && (n < |s| ==> !IsDigit(s[n]))
    decreases |s| - from
  {
    if from < |s| && IsDigit(s[from]) then DigitRun(s, from + 1) else from
  }

  function DigitValue(c: char): nat
    requires IsDigit(c)
  {
    c as int - '0' as int
  }

  function NatOf(digits: string): nat
    requires forall i :: 0 <= i < |digits| ==> IsDigit(digits[i])
  {
    if digits == [] then 0
    else 10 * NatOf(digits[..|digits| - 1]) + DigitValue(digits[|digits| - 1])
  }

  predicate IsInt64(n: int) { -0x8000_0000_0000_0000 <= n < 0x8000_0000_0000_0000 }

  /** std::stoll on a text that starts with a digit or a minus sign: the number and
      how many characters it takes; nothing when it throws. */
  function Stoll(s: string): Option<(int, nat)> {
    var start := if s != [] && s[0] == '-' then 1 else 0;
    var end := DigitRun(s, start);
    if end == start then None
    else
      var magnitude := NatOf(s[start..end]);
      var value := if start == 1 then 0 - magnitude else magnitude;
      if IsInt64(value) then Some((value, end)) else None
  }

  lemma {:induction false} NatOfDec(n: nat)
    ensures NatOf(DecNat(n)) == n
  {
    if n >= 10 {
      NatOfDec(n / 10);
      assert DecNat(n)[..|DecNat(n)| - 1] == DecNat(n / 10);
    }
  }

  lemma {:induction false} DigitRunIs(s: string, from: nat, end: nat)
    requires from <= end <= |s| && (forall i :: from <= i < end ==> IsDigit(s[i])) && (end < |s| ==> !IsDigit(s[end]))
    ensures DigitRun(s, from) == end
    decreases end - from
  {
    if from < end {
      DigitRunIs(s, from + 1, end);
    }
  }

  lemma StollAt(s: string, start: nat, end: nat)
    requires start == (if s != [] && s[0] == '-' then 1 else 0) && start < end <= |s|
    requires (forall i :: start <= i < end ==> IsDigit(s[i])) && (end < |s| ==> !IsDigit(s[end]))
    requires IsInt64(if start == 1 then 0 - NatOf(s[start..end]) else NatOf(s[start..end]))
    ensures Stoll(s) == Some((if start == 1 then 0 - NatOf(s[start..end]) else NatOf(s[start..end]), end))
  {
    DigitRunIs(s, start, end);
  }

  /** Reading back a written number that is followed by something else. */
  lemma StollOfDec(n: int, rest: string)
    requires IsInt64(n) && (rest == [] || !IsDigit(rest[0]))
    ensures Stoll(Dec(n) + rest) == Some((n, |Dec(n)|))
  {
    NatOfDec(if n < 0 then -n else n);
    if n < 0 {
      StollOfDigits(DecNat(-n), rest, 1);
    } else {
      StollOfDigits(DecNat(n), rest, 0);
    }
  }

  /** Digits, after a minus sign or not. */
  lemma StollOfDigits(digits: string, rest: string, start: nat)
    requires digits != [] && (forall i :: 0 <= i < |digits| ==> IsDigit(digits[i])) && start <= 1
    requires rest == [] || !IsDigit(rest[0])
    requires IsInt64(if start == 1 then 0 - NatOf(digits) else NatOf(digits))
    ensures var written := (if start == 1 then "-" else "") + digits;
            Stoll(written + rest) == Some((if start == 1 then 0 - NatOf(digits) else NatOf(digits), |written|))
  {
    var written := (if start == 1 then "-" else "") + digits;
    var s := written + rest;
    assert s[start..|written|] == digits;
    assert forall i :: start <= i < |written| ==> s[i] == digits[i - start];
    assert s[0] == if start == 1 then '-' else digits[0];
    assert |written| < |s| ==> s[|written|] == rest[0];
    hide Stoll, NatOf;
    StollAt(s, start, |written|);
  }
}
