/** The round trip of session tokens, and exactly for which phone numbers it holds. */
module JwtProofs {
  import opened Wrappers
  import opened Texts
  import opened Base64
  import opened Jwt

  const EXP := "\"exp\":"

  // ---- The three parts of a token --------------------------------------------------

  lemma FirstDot(a: string, rest: string)
    requires forall k :: 0 <= k < |a| ==> a[k] != '.'
    ensures Find(a + "." + rest, ".", 0) == |a|
  {
    var s := a + "." + rest;
    assert s[|a|..|a| + 1] == ".";
    forall j | 0 <= j < |a|
      ensures !Matches(s, ".", j)
    {
      MatchChars(s, ".", j);
      assert s[j + 0] == a[j] && "."[0] == '.';
    }
    FindIs(s, ".", 0, |a|);
  }

  lemma NextDot(a: string, b: string, rest: string)
    requires forall k :: 0 <= k < |b| ==> b[k] != '.'
    ensures Find(a + "." + b + "." + rest, ".", |a| + 1) == |a| + 1 + |b|
  {
    var s := a + "." + b + "." + rest;
    var at := |a| + 1 + |b|;
    assert s[at..at + 1] == ".";
    forall j | |a| + 1 <= j < at
      ensures !Matches(s, ".", j)
    {
      MatchChars(s, ".", j);
      assert s[j + 0] == b[j - |a| - 1] && "."[0] == '.';
    }
    FindIs(s, ".", |a| + 1, at);
  }

  lemma VerdictOfParts(h: string, p: string, input: string, token: string, now: int, mac: Mac)
    requires h != [] && p != []
    requires forall k :: 0 <= k < |h| ==> h[k] != '.'
    requires forall k :: 0 <= k < |p| ==> p[k] != '.'
    requires input == h + "." + p && token == input + "." + UrlEncode(mac(input))
    ensures Verdict(token, now, mac) == Judged(UrlDecode(p), now)
  {
    hide *;
    var sig := UrlEncode(mac(input));
    UrlEncodeShape(mac(input));
    assert sig != [];
    Dots(h, p, sig, token);
    VerdictIs(token, |h|, |h| + 1 + |p|, now, mac);
  }

  lemma Dots(h: string, p: string, sig: string, token: string)
    requires forall k :: 0 <= k < |h| ==> h[k] != '.'
    requires forall k :: 0 <= k < |p| ==> p[k] != '.'
    requires token == h + "." + p + "." + sig
    ensures var dot2 := |h| + 1 + |p|;
            && |token| == dot2 + 1 + |sig|
            && Find(token, ".", 0) == |h| && Find(token, ".", |h| + 1) == dot2
            && token[..dot2] == h + "." + p && token[dot2 + 1..] == sig && token[|h| + 1..dot2] == p
  {
    hide *;
    FirstDot(h, p + "." + sig);
    DotsRegrouped(h, p, sig);
    NextDot(h, p, sig);
    DotsCut(h, p, sig);
  }

  lemma DotsRegrouped(h: string, p: string, sig: string)
    ensures h + "." + (p + "." + sig) == h + "." + p + "." + sig
  {
  }

  lemma DotsCut(h: string, p: string, sig: string)
    ensures var token := h + "." + p + "." + sig;
            var dot2 := |h| + 1 + |p|;
            && |token| == dot2 + 1 + |sig|
            && token[..dot2] == h + "." + p && token[dot2 + 1..] == sig && token[|h| + 1..dot2] == p
  {
  }

  lemma VerdictIs(token: string, dot1: nat, dot2: nat, now: int, mac: Mac)
    requires 0 < dot1 && dot1 + 1 < dot2 && dot2 + 1 < |token|
    requires Find(token, ".", 0) == dot1 && Find(token, ".", dot1 + 1) == dot2
    requires token[dot2 + 1..] == UrlEncode(mac(token[..dot2]))
    ensures Verdict(token, now, mac) == Judged(UrlDecode(token[dot1 + 1..dot2]), now)
  {
  }

  /** Verifying a minted token comes down to judging the decoded payload, which is
      the payload and at most two zero bytes. */
  lemma VerdictOfMinted(userId: int, phone: string, iat: int, now: int, mac: Mac)
    requires IsBytes(phone)
    ensures var p := Payload(userId, phone, iat);
            Verdict(MintedToken(userId, phone, iat, mac), now, mac) == Judged(p + Zeros(Missing(|p|)), now)
  {
    var p := Payload(userId, phone, iat);
    HeaderIsBytes();
    PayloadIsBytes(userId, phone, iat);
    assert |p| > 0 by {
      assert |PayloadHead(userId)| > 0;
    }
    UrlEncodeShape(HEADER_JSON);
    UrlEncodeShape(p);
    UrlRoundTrip(p);
    VerdictOfParts(UrlEncode(HEADER_JSON), UrlEncode(p), SigningInput(userId, phone, iat),
                   MintedToken(userId, phone, iat, mac), now, mac);
  }

  // ---- The claims of a payload ------------------------------------------------------

  /** No `"e` starts in this text, and it does not end in a quote. */
  predicate NoQuoteE(s: string) {
    forall i :: 0 <= i < |s| && s[i] == '"' ==> i + 1 < |s| && s[i + 1] != 'e'
  }

  /** Around a phone number only the real expiry claim can match: no match starts
      before it, unless it starts in the opening quote or the number itself. */
  lemma NoStrayMatch(x: string, y: string, z: string, w: string, j: int)
    requires NoQuoteE(x) && NoQuoteE(z) && |z| >= 2 && z[0] == '"' && z[1] == ','
    requires 0 <= j < |x + y + z| && Matches(x + y + z + w, EXP, j)
    ensures |x| <= j && j + 6 <= |x + y| && Matches(y, EXP, j - |x|)
  {
    var s := x + y + z + w;
    var end := |x + y|;
    MatchChars(s, EXP, j);
    assert s[j + 0] == EXP[0] == '"' && s[j + 1] == EXP[1] == 'e';
    assert forall k :: 0 <= k < |x| ==> s[k] == x[k];
    assert forall k :: end <= k < end + |z| ==> s[k] == z[k - end];
    assert EXP[2] == 'x' && EXP[3] == 'p' && EXP[4] == '"' && EXP[5] == ':';
    assert s[j + 2] == EXP[2] && s[j + 3] == EXP[3] && s[j + 4] == EXP[4] && s[j + 5] == EXP[5];
    assert |x| <= j && j + 6 <= end;
    assert s == x + y + (z + w);
    MatchInside(x, y, z + w, EXP, j - |x|);
  }

  lemma PiecesAreQuiet(userId: int, iat: int)
    ensures NoQuoteE(PayloadHead(userId)) && NoQuoteE(PayloadIat(iat))
    ensures PayloadIat(iat)[0] == '"' && PayloadIat(iat)[1] == ','
  {
    DecIsBytes(userId);
    DecIsBytes(iat);
    HeadIsQuiet(Dec(userId));
    IatIsQuiet(Dec(iat));
  }

  /** Joining quiet texts, the second of which does not start with an e, and text
      without quotes. */
  lemma QuietJoin(a: string, b: string)
    requires NoQuoteE(a) && NoQuoteE(b)
    ensures NoQuoteE(a + b)
  {
  }

  lemma HeadIsQuiet(d: string)
    requires forall i :: 0 <= i < |d| ==> d[i] != '"'
    ensures NoQuoteE("{\"sub\":" + d + ",\"phone\":")
  {
    var a, b := "{\"sub\":", ",\"phone\":";
    assert NoQuoteE(a) by {
      assert a[1..3] == "\"s" && a[5..7] == "\":";
    }
    assert NoQuoteE(b) by {
      assert b[1..3] == "\"p" && b[7..9] == "\":";
    }
    QuietJoin(a, d);
    QuietJoin(a + d, b);
  }

  lemma IatIsQuiet(d: string)
    requires forall i :: 0 <= i < |d| ==> d[i] != '"'
    ensures NoQuoteE("\",\"iat\":" + d + ",")
  {
    var a := "\",\"iat\":";
    assert NoQuoteE(a) by {
      assert a[0..4] == "\",\"i" && a[6..8] == "\":";
    }
    QuietJoin(a, d);
    QuietJoin(a + d, ",");
  }

  /** A written number that a delimiter follows is read back. */
  lemma ClaimReadBack(pre: string, n: int, rest: string)
    requires IsInt64(n) && rest != [] && (rest[0] == ',' || rest[0] == '}')
    ensures ClaimAt(pre + Dec(n) + rest, |pre|) == Some(n)
  {
    var json := pre + Dec(n) + rest;
    DecIsBytes(n);
    assert json[|pre|] == Dec(n)[0];
    assert json[|pre|..] == Dec(n) + rest;
    StollOfDec(n, rest);
    assert json[|pre| + |Dec(n)|] == rest[0];
  }

  lemma SubIsFound(userId: int, more: string)
    requires IsInt64(userId)
    ensures Claim(PayloadHead(userId) + more, "sub") == Some(userId)
  {
    var s := PayloadHead(userId) + more;
    var needle := Needle("sub");
    assert needle == "\"sub\":";
    assert s == "{\"sub\":" + Dec(userId) + (",\"phone\":" + more);
    assert s[1..7] == needle;
    assert s[0] == '{';
    assert !Matches(s, needle, 0) by {
      MatchChars(s, needle, 0);
    }
    FindIs(s, needle, 0, 1);
    ClaimReadBack("{\"sub\":", userId, ",\"phone\":" + more);
  }

  /** The first expiry claim of a payload is the real one, unless one occurs in the
      phone number. */
  lemma ExpIsFirst(x: string, y: string, z: string, w: string)
    requires NoQuoteE(x) && NoQuoteE(z) && |z| >= 2 && z[0] == '"' && z[1] == ','
    requires !Occurs(y, EXP) && |w| >= 6 && w[..6] == EXP
    ensures Find(x + y + z + w, EXP, 0) == |x + y + z|
  {
    var s := x + y + z + w;
    var at := |x + y + z|;
    assert s[at..at + 6] == w[..6];
    forall j | 0 <= j < at
      ensures !Matches(s, EXP, j)
    {
      if Matches(s, EXP, j) {
        NoStrayMatch(x, y, z, w, j);
        assert false;
      }
    }
    FindIs(s, EXP, 0, at);
  }

  lemma ClaimFound(json: string, pre: string, key: string, n: int, rest: string)
    requires IsInt64(n) && rest != [] && (rest[0] == ',' || rest[0] == '}')
    requires json == pre + Needle(key) + Dec(n) + rest
    requires Find(json, Needle(key), 0) == |pre|
    ensures Claim(json, key) == Some(n)
  {
    ClaimReadBack(pre + Needle(key), n, rest);
    ClaimIs(json, key, |pre|, |pre + Needle(key)|, Some(n));
  }

  lemma ClaimIs(json: string, key: string, pos: nat, start: nat, r: Option<int>)
    requires Find(json, Needle(key), 0) == pos && start == pos + |Needle(key)| <= |json|
    requires ClaimAt(json, start) == r
    ensures Claim(json, key) == r
  {
    hide ClaimAt;
  }

  lemma ExpIsFound(x: string, y: string, z: string, exp: int, more: string)
    requires NoQuoteE(x) && NoQuoteE(z) && |z| >= 2 && z[0] == '"' && z[1] == ',' && IsInt64(exp)
    requires !Occurs(y, EXP)
    ensures Claim(x + y + z + (PayloadExp(exp) + more), "exp") == Some(exp)
  {
    ExpShape(exp, more);
    ExpIsFirst(x, y, z, PayloadExp(exp) + more);
    Regroup(x + y + z, EXP, Dec(exp), "}" + more);
    assert Needle("exp") == EXP;
    ClaimFound(x + y + z + EXP + Dec(exp) + ("}" + more), x + y + z, "exp", exp, "}" + more);
  }

  lemma Regroup(a: string, b: string, c: string, d: string)
    ensures a + (b + c + d) == a + b + c + d
  {
  }

  lemma RegroupEnd(a: string, b: string, c: string, d: string, e: string)
    ensures a + b + c + d + e == a + b + c + (d + e)
  {
  }

  lemma ExpShape(exp: int, more: string)
    ensures PayloadExp(exp) + more == EXP + Dec(exp) + ("}" + more)
    ensures |PayloadExp(exp) + more| >= 6 && (PayloadExp(exp) + more)[..6] == EXP
  {
    var w := PayloadExp(exp) + more;
    assert w == EXP + (Dec(exp) + "}" + more);
  }

  // ---- A claim depends on nothing after a quote -------------------------------------

  /** At `off`, the text s goes on with m, and m ends in a quote. */
  predicate GoesOn(s: string, off: nat, m: string) {
    && off + |m| <= |s| && m != [] && m[|m| - 1] == '"'
    && forall k :: off <= k < off + |m| ==> s[k] == m[k - off]
  }

  lemma {:induction false} SpacesLocal(s: string, off: nat, m: string, k: nat)
    requires GoesOn(s, off, m) && k < |m|
    ensures SkipSpaces(m, k) < |m| && SkipSpaces(s, off + k) == off + SkipSpaces(m, k)
    decreases |m| - k
  {
    assert s[off + k] == m[k];
    if m[k] == ' ' {
      SpacesLocal(s, off, m, k + 1);
    }
  }

  lemma {:induction false} DigitsLocal(s: string, off: nat, m: string, k: nat)
    requires GoesOn(s, off, m) && k < |m|
    ensures DigitRun(m, k) < |m| && DigitRun(s, off + k) == off + DigitRun(m, k)
    decreases |m| - k
  {
    assert s[off + k] == m[k];
    if IsDigit(m[k]) {
      DigitsLocal(s, off, m, k + 1);
    }
  }

  lemma StollLocal(s: string, m: string)
    requires GoesOn(s, 0, m) && m[0] != '"'
    ensures Stoll(s) == Stoll(m)
    ensures Stoll(m).Some? ==> Stoll(m).value.1 < |m|
  {
    var start := if m[0] == '-' then 1 else 0;
    DigitsLocal(s, 0, m, start);
    var end := DigitRun(m, start);
    assert s[start..end] == m[start..end];
  }

  lemma ClaimLocal(s: string, off: nat, m: string)
    requires GoesOn(s, off, m)
    ensures ClaimAt(s, off) == ClaimAt(m, 0)
  {
    hide Stoll, DigitRun, SkipSpaces;
    SpacesLocal(s, off, m, 0);
    var p := SkipSpaces(m, 0);
    assert s[off + p] == m[p];
    hide GoesOn;
    if m[p] != '"' {
      NumberLocal(s, off, m, p);
    }
  }

  lemma NumberLocal(s: string, off: nat, m: string, p: nat)
    requires GoesOn(s, off, m) && p < |m| && m[p] != '"'
    ensures Stoll(s[off + p..]) == Stoll(m[p..])
    ensures Stoll(m[p..]).Some? ==>
              var n := Stoll(m[p..]).value.1; p + n < |m| && off + p + n < |s| && s[off + p + n] == m[p + n]
  {
    hide Stoll;
    var u, v := s[off + p..], m[p..];
    assert GoesOn(u, 0, v);
    StollLocal(u, v);
  }

  /** With the key in the phone number, the first claim is the one written there. */
  lemma PhoneIsFirst(x: string, y: string, z: string, w: string)
    requires NoQuoteE(x) && NoQuoteE(z) && |z| >= 2 && z[0] == '"' && z[1] == ','
    requires Occurs(y, EXP)
    ensures Find(y, EXP, 0) >= 0
    ensures Find(x + y + z + w, EXP, 0) == |x| + Find(y, EXP, 0)
  {
    var i := Find(y, EXP, 0);
    var s := x + y + z + w;
    assert s == x + y + (z + w);
    MatchInside(x, y, z + w, EXP, i);
    forall j | 0 <= j < |x| + i
      ensures !Matches(s, EXP, j)
    {
      if Matches(s, EXP, j) {
        NoStrayMatch(x, y, z, w, j);
        assert false;
      }
    }
    FindIs(s, EXP, 0, |x| + i);
  }

  lemma UpToTheQuote(x: string, y: string, z: string, w: string, k: nat)
    requires z != [] && z[0] == '"' && k <= |y|
    ensures GoesOn(x + y + z + w, |x| + k, y[k..] + "\"")
  {
    var s := x + y + z + w;
    assert s[|x| + |y|] == z[0];
    assert forall j :: |x| + k <= j < |x| + |y| ==> s[j] == y[j - |x|];
  }

  /** The text in the phone number is taken for the expiry: y is the number with its
      opening quote. */
  function PhoneExpiry(y: string): Option<int>
    requires Occurs(y, EXP)
  {
    assert Find(y, EXP, 0) >= 0;
    ClaimAt(y[Find(y, EXP, 0) + 6..] + "\"", 0)
  }

  /** It does not depend on anything after the number. */
  lemma PhoneClaim(x: string, y: string, z: string, w: string)
    requires NoQuoteE(x) && NoQuoteE(z) && |z| >= 2 && z[0] == '"' && z[1] == ','
    requires Occurs(y, EXP)
    ensures Claim(x + y + z + w, "exp") == PhoneExpiry(y)
  {
    assert Needle("exp") == EXP;
    hide Claim, ClaimAt, Find, Occurs, NoQuoteE, Needle;
    PhoneIsFirst(x, y, z, w);
    PhoneClaimAt(x, y, z, w, x + y + z + w, Find(y, EXP, 0));
  }

  lemma PhoneClaimAt(x: string, y: string, z: string, w: string, s: string, i: nat)
    requires z != [] && z[0] == '"' && s == x + y + z + w && i + 6 <= |y|
    requires Find(s, Needle("exp"), 0) == |x| + i && |Needle("exp")| == 6
    ensures Claim(s, "exp") == ClaimAt(y[i + 6..] + "\"", 0)
  {
    hide *;
    var m := y[i + 6..] + "\"";
    UpToTheQuote(x, y, z, w, i + 6);
    ClaimLocal(s, |x| + (i + 6), m);
    LongEnough(x, y, z, w, s);
    ClaimIs(s, "exp", |x| + i, |x| + (i + 6), ClaimAt(m, 0));
  }

  lemma LongEnough(x: string, y: string, z: string, w: string, s: string)
    requires s == x + y + z + w
    ensures |x| + |y| <= |s|
  {
  }

  // ---- The round trip ---------------------------------------------------------------

  /** Verification gives back the user id for thirty days and nothing from then on. */
  ghost predicate ReadsBack(userId: int, phone: string, iat: int, now: int, mac: Mac)
    requires IsBytes(phone)
  {
    Verdict(MintedToken(userId, phone, iat, mac), now, mac)
      == if now < iat + 2592000 then Some(userId) else None
  }

  lemma JudgedIs(p: string, exp: Option<int>, userId: int, now: int)
    requires p != [] && Claim(p, "exp") == exp && Claim(p, "sub") == Some(userId)
    ensures Judged(p, now) == if exp.Some? && now < exp.value then Some(userId) else None
  {
    hide Claim;
  }

  /** The decoded payload of a minted token, and its first claim. */
  lemma DecodedPayload(userId: int, phone: string, iat: int) returns (p: string, more: string)
    requires IsInt64(userId)
    ensures p == Payload(userId, phone, iat) + Zeros(Missing(|Payload(userId, phone, iat)|))
    ensures p == PayloadHead(userId) + PayloadPhone(phone) + PayloadIat(iat) + (PayloadExp(iat + TTL_SECONDS) + more)
    ensures p != [] && Claim(p, "sub") == Some(userId)
  {
    assert |PayloadHead(userId)| > 0;
    hide Claim, UrlDecode, PayloadHead, PayloadPhone, PayloadIat, PayloadExp, Zeros;
    more := Zeros(Missing(|Payload(userId, phone, iat)|));
    p := Payload(userId, phone, iat) + more;
    var a, b, c, d := PayloadHead(userId), PayloadPhone(phone), PayloadIat(iat), PayloadExp(iat + TTL_SECONDS);
    RegroupEnd(a, b, c, d, more);
    Regroup(a, b, c, d + more);
    SubIsFound(userId, b + c + (d + more));
  }

  /** Every token reads back, whatever the keyed hash, if the expiry key does not
      occur in the phone number with its opening quote. */
  lemma TokenRoundTrip(userId: int, phone: string, iat: int, now: int, mac: Mac)
    requires IsBytes(phone) && IsInt64(userId) && IsInt64(iat + TTL_SECONDS)
    requires !Occurs("\"" + phone, EXP)
    ensures ReadsBack(userId, phone, iat, now, mac)
  {
    VerdictOfMinted(userId, phone, iat, now, mac);
    var p, more := DecodedPayload(userId, phone, iat);
    PiecesAreQuiet(userId, iat);
    ExpIsFound(PayloadHead(userId), PayloadPhone(phone), PayloadIat(iat), iat + TTL_SECONDS, more);
    JudgedIs(p, Some(iat + TTL_SECONDS), userId, now);
  }

  /** A phone number without a double quote is never in the way. */
  lemma QuoteFreePhone(phone: string)
    requires forall i :: 0 <= i < |phone| ==> phone[i] != '"'
    ensures !Occurs("\"" + phone, EXP)
  {
    var y := "\"" + phone;
    forall i | 0 <= i <= |y|
      ensures !Matches(y, EXP, i)
    {
      if i + 6 <= |y| {
        MatchChars(y, EXP, i);
        assert y[i + 4] == phone[i + 3] && EXP[4] == '"';
      }
    }
  }

  /** Otherwise the text in the phone number decides, for any mint time alike. */
  lemma PhoneDecides(userId: int, phone: string, iat: int, now: int, mac: Mac)
    requires IsBytes(phone) && IsInt64(userId) && Occurs("\"" + phone, EXP)
    ensures var expiry := PhoneExpiry("\"" + phone);
            Verdict(MintedToken(userId, phone, iat, mac), now, mac)
              == if expiry.Some? && now < expiry.value then Some(userId) else None
  {
    assert PayloadPhone(phone) == "\"" + phone;
    hide *;
    VerdictOfMinted(userId, phone, iat, now, mac);
    var p, more := DecodedPayload(userId, phone, iat);
    PiecesAreQuiet(userId, iat);
    PhoneClaim(PayloadHead(userId), PayloadPhone(phone), PayloadIat(iat), PayloadExp(iat + TTL_SECONDS) + more);
    JudgedIs(p, PhoneExpiry("\"" + phone), userId, now);
  }

  /** Of any two mint times, at least one then gives a wrong verdict at some later
      time. */
  lemma PhoneBreaks(userId: int, phone: string, iat1: int, iat2: int, mac: Mac) returns (iat: int, now: int)
    requires IsBytes(phone) && IsInt64(userId) && Occurs("\"" + phone, EXP) && iat1 != iat2
    ensures (iat == iat1 || iat == iat2) && iat <= now && !ReadsBack(userId, phone, iat, now, mac)
  {
    hide PhoneExpiry, Verdict, MintedToken, IsBytes, Occurs;
    var expiry := PhoneExpiry("\"" + phone);
    iat := if expiry == Some(iat1 + TTL_SECONDS) then iat2 else iat1;
    var exp := iat + TTL_SECONDS;
    now := if expiry.None? then iat
           else if exp < expiry.value then exp
           else if expiry.value < iat then iat else expiry.value;
    PhoneDecides(userId, phone, iat, now, mac);
  }

  /** Tokens of a user read back at all mint times if and only if the expiry key does
      not occur in the phone number with its opening quote. */
  lemma TokensReadBackIff(userId: int, phone: string, mac: Mac)
    requires IsBytes(phone) && IsInt64(userId)
    ensures (forall iat, now :: IsInt64(iat + TTL_SECONDS) && iat <= now ==> ReadsBack(userId, phone, iat, now, mac))
       <==> !Occurs("\"" + phone, EXP)
  {
    if Occurs("\"" + phone, EXP) {
      var iat, now := PhoneBreaks(userId, phone, 0, 1, mac);
      assert IsInt64(iat + TTL_SECONDS) && iat <= now;
    } else {
      forall iat, now | IsInt64(iat + TTL_SECONDS) && iat <= now
        ensures ReadsBack(userId, phone, iat, now, mac)
      {
        TokenRoundTrip(userId, phone, iat, now, mac);
      }
    }
  }
}
