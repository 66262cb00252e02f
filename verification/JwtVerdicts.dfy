/** What verification makes of any token at all, minted here or not. */
module JwtVerdicts {
  import opened Wrappers
  import opened Texts
  import opened Base64
  import opened Jwt
  import opened JwtProofs

  // ---- Claims of any text ----------------------------------------------------------

  /** A delimiter of the payload, or its end. */
  predicate EndsNumber(json: string, end: nat) {
    end >= |json| || json[end] == ',' || json[end] == '}' || json[end] == ' ' || json[end] == ']'
  }

  /** Digits, after at most one minus sign. */
  predicate IsNumber(s: string) {
    var from := if s != [] && s[0] == '-' then 1 else 0;
    from < |s| && forall i :: from <= i < |s| ==> IsDigit(s[i])
  }

  function Value(s: string): int
    requires IsNumber(s)
  {
    if s[0] == '-' then 0 - NatOf(s[1..]) else NatOf(s)
  }

  /** From `from` on the text has spaces, then the number that ends at `end`. */
  predicate NumberAt(json: string, from: nat, start: nat, end: nat, value: int) {
    && from <= start < end <= |json|
    && (forall k :: from <= k < start ==> json[k] == ' ')
    && IsNumber(json[start..end]) && Value(json[start..end]) == value
    && EndsNumber(json, end)
  }

  /** The key in quotes, with its colon. */
  function Quoted(key: string): string { ['"'] + key + ['"', ':'] }

  /** The number stands behind the first occurrence of the quoted key. */
  predicate SaysAt(json: string, key: string, pos: nat, start: nat, end: nat, value: int) {
    FirstAt(json, Quoted(key), pos) && NumberAt(json, pos + |key| + 3, start, end, value)
  }

  ghost predicate Says(json: string, key: string, value: int) {
    exists pos: nat, start: nat, end: nat :: SaysAt(json, key, pos, start, end, value)
  }

  lemma {:induction false} SpacesEnd(s: string, from: nat, start: nat)
    requires from <= start <= |s| && (forall k :: from <= k < start ==> s[k] == ' ')
    requires start < |s| ==> s[start] != ' '
    ensures SkipSpaces(s, from) == start
    decreases start - from
  {
    if from < start {
      SpacesEnd(s, from + 1, start);
    }
  }

  lemma {:induction false} SpacesSkipped(s: string, from: nat)
    requires from <= |s|
    ensures var p := SkipSpaces(s, from);
            (forall k :: from <= k < p ==> s[k] == ' ') && (p < |s| ==> s[p] != ' ')
    decreases |s| - from
  {
    if from < |s| && s[from] == ' ' {
      SpacesSkipped(s, from + 1);
    }
  }

  /** stoll() reads the longest number in front. */
  lemma StollReads(s: string, end: nat)
    requires end <= |s| && IsNumber(s[..end]) && (end < |s| ==> !IsDigit(s[end]))
    ensures Stoll(s) == if IsInt64(Value(s[..end])) then Some((Value(s[..end]), end)) else None
  {
    hide NatOf;
    var from := if s != [] && s[0] == '-' then 1 else 0;
    assert forall i :: from <= i < end ==> s[i] == s[..end][i];
    DigitRunIs(s, from, end);
    assert s[..end][1..] == s[1..end];
    assert s[0..end] == s[..end];
  }

  lemma StollIsNumber(s: string)
    requires Stoll(s).Some?
    ensures var (value, end) := Stoll(s).value;
            end <= |s| && IsNumber(s[..end]) && Value(s[..end]) == value && IsInt64(value)
  {
    hide NatOf;
    var from := if s != [] && s[0] == '-' then 1 else 0;
    var end := DigitRun(s, from);
    assert s[..end][1..] == s[1..end];
    assert s[0..end] == s[..end];
  }

  lemma NumberIsClaimed(json: string, from: nat, start: nat, end: nat, value: int)
    requires NumberAt(json, from, start, end, value) && IsInt64(value)
    ensures ClaimAt(json, from) == Some(value)
  {
    hide NatOf, Stoll;
    var s := json[start..];
    assert s[..end - start] == json[start..end];
    assert json[start] == json[start..end][0];
    SpacesEnd(json, from, start);
    assert end < |json| ==> s[end - start] == json[end];
    StollReads(s, end - start);
  }

  lemma ClaimedIsNumber(json: string, from: nat) returns (start: nat, end: nat)
    requires from <= |json| && ClaimAt(json, from).Some?
    ensures NumberAt(json, from, start, end, ClaimAt(json, from).value) && IsInt64(ClaimAt(json, from).value)
  {
    hide NatOf, Stoll;
    start := SkipSpaces(json, from);
    SpacesSkipped(json, from);
    var s := json[start..];
    StollIsNumber(s);
    end := start + Stoll(s).value.1;
    assert s[..end - start] == json[start..end];
  }

  lemma QuotedIsNeedle(key: string)
    ensures Quoted(key) == Needle(key) && |Quoted(key)| == |key| + 3
  {
  }

  lemma SaidIsClaimed(json: string, key: string, pos: nat, start: nat, end: nat, value: int)
    requires SaysAt(json, key, pos, start, end, value) && IsInt64(value)
    ensures Claim(json, key) == Some(value)
  {
    hide NumberAt, ClaimAt, IsInt64, Quoted, Needle;
    QuotedIsNeedle(key);
    FindIs(json, Quoted(key), 0, pos);
    NumberIsClaimed(json, pos + |key| + 3, start, end, value);
  }

  /** A claim is read if and only if behind the first occurrence of its quoted key, and
      any spaces, there is an integer of 64 bits with a delimiter or the end after it. */
  lemma ClaimIff(json: string, key: string, value: int)
    ensures Claim(json, key) == Some(value)
       <==> -9223372036854775808 <= value <= 9223372036854775807 && Says(json, key, value)
  {
    assert IsInt64(value) <==> -9223372036854775808 <= value <= 9223372036854775807;
    hide NumberAt, ClaimAt, IsInt64, Quoted, Needle;
    QuotedIsNeedle(key);
    var pos := Find(json, Quoted(key), 0);
    if Claim(json, key) == Some(value) {
      var start, end := ClaimedIsNumber(json, pos + |key| + 3);
      assert SaysAt(json, key, pos, start, end, value);
    }
    if IsInt64(value) && Says(json, key, value) {
      var at: nat, start: nat, end: nat :| SaysAt(json, key, at, start, end, value);
      SaidIsClaimed(json, key, at, start, end, value);
    }
  }

  // ---- Any token -------------------------------------------------------------------

  /** Two non-empty parts without a dot, signed with the secret. */
  ghost predicate Signed(token: string, h: string, p: string, mac: Mac) {
    && h != [] && '.' !in h && p != [] && '.' !in p
    && token == h + "." + p + "." + UrlEncode(mac(h + "." + p))
  }

  /** The payload has not expired at `now`, and is about this user. */
  ghost predicate Grants(payload: string, now: int, userId: int) {
    && (exists exp :: Claim(payload, "exp") == Some(exp) && now < exp)
    && Claim(payload, "sub") == Some(userId)
  }

  lemma SignedIsJudged(token: string, h: string, p: string, now: int, mac: Mac)
    requires Signed(token, h, p, mac)
    ensures Verdict(token, now, mac) == Judged(UrlDecode(p), now)
  {
    hide Verdict, Judged, UrlDecode, UrlEncode;
    VerdictOfParts(h, p, h + "." + p, token, now, mac);
  }

  lemma NoDotBetween(token: string, from: nat, to: nat)
    requires from <= to <= |token| && forall j :: from <= j < to ==> !Matches(token, ".", j)
    ensures '.' !in token[from..to]
  {
    forall k | from <= k < to
      ensures token[k] != '.'
    {
      OneCharMatch(token, '.', k);
    }
  }

  /** A token that says something is signed. */
  lemma AcceptedIsSigned(token: string, now: int, mac: Mac) returns (h: string, p: string)
    requires Verdict(token, now, mac).Some?
    ensures Signed(token, h, p, mac)
  {
    hide Judged, UrlDecode, UrlEncode;
    var dot1 := Find(token, ".", 0);
    var dot2 := Find(token, ".", dot1 + 1);
    h, p := token[..dot1], token[dot1 + 1..dot2];
    NoDotBetween(token, 0, dot1);
    NoDotBetween(token, dot1 + 1, dot2);
    assert token[..dot2] == h + "." + p;
    assert token == token[..dot2] + token[dot2..dot2 + 1] + token[dot2 + 1..];
  }

  lemma JudgedIff(payload: string, now: int, userId: int)
    ensures Judged(payload, now) == Some(userId) <==> Grants(payload, now, userId)
  {
    hide ClaimAt;
    if payload == [] {
      assert |Needle("sub")| == 6;
    }
  }

  /** A token names a user if and only if it consists of two parts signed with the
      secret, and the second decodes to a payload that has not expired and is about
      this user. */
  lemma AcceptedIff(token: string, now: int, mac: Mac, userId: int)
    ensures Verdict(token, now, mac) == Some(userId)
       <==> exists h, p :: Signed(token, h, p, mac) && Grants(UrlDecode(p), now, userId)
  {
    hide Verdict, Judged, Grants, UrlDecode, UrlEncode, Signed;
    if Verdict(token, now, mac) == Some(userId) {
      var h, p := AcceptedIsSigned(token, now, mac);
      SignedIsJudged(token, h, p, now, mac);
      JudgedIff(UrlDecode(p), now, userId);
    }
    if h, p :| Signed(token, h, p, mac) && Grants(UrlDecode(p), now, userId) {
      SignedIsJudged(token, h, p, now, mac);
      JudgedIff(UrlDecode(p), now, userId);
    }
  }

  // ---- Minted tokens -----------------------------------------------------------------

  lemma HeaderText()
    ensures HEADER_JSON == "{\"alg\":\"HS256\",\"typ\":\"JWT\"}" && |HEADER_JSON| == 27
  {
  }

  lemma WholeGroupsReadBack(s: string)
    requires IsBytes(s) && |s| % 3 == 0
    ensures UrlDecode(UrlEncode(s)) == s
  {
    hide *;
    UrlRoundTripExactIff(s);
  }

  lemma EncodedPart(s: string)
    requires IsBytes(s) && s != []
    ensures UrlEncode(s) != [] && '.' !in UrlEncode(s)
  {
    hide UrlEncode, IsBytes;
    UrlEncodeShape(s);
  }

  lemma PayloadStarts(userId: int, phone: string, iat: int)
    ensures Payload(userId, phone, iat) != []
  {
    assert |PayloadHead(userId)| > 0;
    hide PayloadPhone, PayloadIat, PayloadExp, PayloadHead;
  }

  /** A minted token is signed, and its header decodes to the two fields that section 5
      of RFC 7519 asks for. */
  lemma MintedIsSigned(userId: int, phone: string, iat: int, mac: Mac) returns (h: string, p: string)
    requires IsBytes(phone)
    ensures Signed(MintedToken(userId, phone, iat, mac), h, p, mac)
    ensures UrlDecode(h) == "{\"alg\":\"HS256\",\"typ\":\"JWT\"}"
  {
    var payload := Payload(userId, phone, iat);
    HeaderIsBytes();
    HeaderText();
    PayloadIsBytes(userId, phone, iat);
    PayloadStarts(userId, phone, iat);
    hide UrlEncode, UrlDecode, Payload, IsBytes, HEADER_JSON;
    WholeGroupsReadBack(HEADER_JSON);
    EncodedPart(HEADER_JSON);
    EncodedPart(payload);
    h, p := UrlEncode(HEADER_JSON), UrlEncode(payload);
  }
}
