/** Minting and verifying session tokens (section 7.1 of RFC 7515, with the expiry
    rule of section 4.1.4 of RFC 7519). */
module Jwt {
  import opened Wrappers
  import opened Texts
  import opened Base64

  const TTL_SECONDS := 30 * 24 * 3600

  type Digest = d: string | |d| == 32 && IsBytes(d) witness seq(32, _ => 0 as char)

  /** HMAC-SHA256 under the server's secret: any function from texts to 32 bytes. */
  type Mac = string -> Digest

  const HEADER_JSON := "{\"alg\":\"HS256\",\"typ\":\"JWT\"}"

  // ---- Claims --------------------------------------------------------------------

  function Needle(key: string): string { "\"" + key + "\":" }

  /** The integer that starts at `pos`, after spaces, if a delimiter follows it. */
  function ClaimAt(json: string, pos: nat): Option<int>
    requires pos <= |json|
  {
    var p := SkipSpaces(json, pos);
    if p == |json| || (!IsDigit(json[p]) && json[p] != '-') then None
    else match Stoll(json[p..])
      case None => None
      case Some((value, consumed)) =>
        var next := if p + consumed < |json| then json[p + consumed] else '}';
        if next != ',' && next != '}' && next != ' ' && next != ']' then None else Some(value)
  }

  /** ExtractClaim: the first occurrence of the quoted key decides. */
  function Claim(json: string, key: string): Option<int> {
    var pos := Find(json, Needle(key), 0);
    if pos == -1 then None else ClaimAt(json, pos + |Needle(key)|)
  }

  method ExtractClaim(json: string, key: string) returns (r: Option<int>)
    ensures r == Claim(json, key)
  {
    var found := Find(json, Needle(key), 0);
    if found == -1 {
      return None;
    }
    var pos := found + |Needle(key)|;
    ghost var start := pos;
    while pos < |json| && json[pos] == ' '
      invariant start <= pos <= |json|
      invariant SkipSpaces(json, start) == SkipSpaces(json, pos)
    {
      pos := pos + 1;
    }
    if pos >= |json| {
      return None;
    }
    if !IsDigit(json[pos]) && json[pos] != '-' {
      return None;
    }
    var parsed := Stoll(json[pos..]);
    if parsed.None? {
      return None;
    }
    var (value, consumed) := parsed.value;
    var next := if pos + consumed < |json| then json[pos + consumed] else '}';
    if next != ',' && next != '}' && next != ' ' && next != ']' {
      return None;
    }
    return Some(value);
  }

  // ---- Mint and verify -------------------------------------------------------------

  /** The payload up to the phone number, the phone number with its opening quote,
      what follows it up to the last claim, and the last claim. */
  function PayloadHead(userId: int): string { "{\"sub\":" + Dec(userId) + ",\"phone\":" }

  function PayloadPhone(phone: string): string { "\"" + phone }

  function PayloadIat(iat: int): string { "\",\"iat\":" + Dec(iat) + "," }

  function PayloadExp(exp: int): string { "\"exp\":" + Dec(exp) + "}" }

  function Payload(userId: int, phone: string, iat: int): string {
    PayloadHead(userId) + PayloadPhone(phone) + PayloadIat(iat) + PayloadExp(iat + TTL_SECONDS)
  }

  lemma BytesJoin(a: string, b: string)
    requires IsBytes(a) && IsBytes(b)
    ensures IsBytes(a + b)
  {
  }

  lemma DecIsBytes(n: int)
    ensures IsBytes(Dec(n)) && Dec(n) != [] && forall i :: 0 <= i < |Dec(n)| ==> IsDigit(Dec(n)[i]) || Dec(n)[i] == '-'
  {
  }

  lemma PayloadIsBytes(userId: int, phone: string, iat: int)
    requires IsBytes(phone)
    ensures IsBytes(Payload(userId, phone, iat))
  {
    hide Dec, IsDigit;
    DecIsBytes(userId);
    DecIsBytes(iat);
    DecIsBytes(iat + TTL_SECONDS);
    BytesJoin(PayloadHead(userId), PayloadPhone(phone));
    BytesJoin(PayloadHead(userId) + PayloadPhone(phone), PayloadIat(iat));
    BytesJoin(PayloadHead(userId) + PayloadPhone(phone) + PayloadIat(iat), PayloadExp(iat + TTL_SECONDS));
  }

  lemma HeaderIsBytes()
    ensures IsBytes(HEADER_JSON) && HEADER_JSON != []
  {
  }

  function SigningInput(userId: int, phone: string, iat: int): string
    requires IsBytes(phone)
  {
    HeaderIsBytes();
    PayloadIsBytes(userId, phone, iat);
    UrlEncode(HEADER_JSON) + "." + UrlEncode(Payload(userId, phone, iat))
  }

  function MintedToken(userId: int, phone: string, iat: int, mac: Mac): string
    requires IsBytes(phone)
  {
    var input := SigningInput(userId, phone, iat);
    input + "." + UrlEncode(mac(input))
  }

  /** What a payload says at time `now`. */
  function Judged(payload: string, now: int): Option<int> {
    if payload == [] then None
    else match Claim(payload, "exp")
      case None => None
      case Some(exp) => if now >= exp then None else Claim(payload, "sub")
  }

  /** What a token says at time `now`: the user id, or nothing. */
  function Verdict(token: string, now: int, mac: Mac): Option<int> {
    var dot1 := Find(token, ".", 0);
    if dot1 <= 0 then None
    else
      var dot2 := Find(token, ".", dot1 + 1);
      if dot2 == -1 || dot2 == dot1 + 1 || dot2 + 1 >= |token| then None
      else if token[dot2 + 1..] != UrlEncode(mac(token[..dot2])) then None
      else
        Judged(UrlDecode(token[dot1 + 1..dot2]), now)
  }

  method Mint(userId: int, phone: string, iat: int, mac: Mac) returns (token: string)
    requires IsBytes(phone)
    ensures token == MintedToken(userId, phone, iat, mac)
  {
    hide UrlEncode;
    HeaderIsBytes();
    PayloadIsBytes(userId, phone, iat);
    var header := Base64UrlEncode(HEADER_JSON);
    var payload := Base64UrlEncode(Payload(userId, phone, iat));
    var signingInput := header + "." + payload;
    assert signingInput == SigningInput(userId, phone, iat);
    var sig := Base64UrlEncode(mac(signingInput));
    token := signingInput + "." + sig;
  }

  method Verify(token: string, now: int, mac: Mac) returns (r: Option<int>)
    ensures r == Verdict(token, now, mac)
  {
    hide UrlEncode, UrlDecode, Claim;
    if token == "" {
      return None;
    }
    var dot1 := Find(token, ".", 0);
    if dot1 == -1 || dot1 == 0 {
      return None;
    }
    var dot2 := Find(token, ".", dot1 + 1);
    if dot2 == -1 || dot2 == dot1 + 1 {
      return None;
    }
    if dot2 + 1 >= |token| {
      return None;
    }
    var expected := Base64UrlEncode(mac(token[..dot2]));
    if token[dot2 + 1..] != expected {
      return None;
    }
    var payload := Base64UrlDecode(token[dot1 + 1..dot2]);
    if payload == "" {
      return None;
    }
    var exp := ExtractClaim(payload, "exp");
    if exp.None? {
      return None;
    }
    if now >= exp.value {
      return None;
    }
    r := ExtractClaim(payload, "sub");
  }
}
