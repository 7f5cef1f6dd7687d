/**
 * Session tokens: the printer and the parser of the service's own HS256 tokens (section 7.1 of RFC 7515).
 * The MAC and the JSON codec are parameters; all the model needs is that the claims of an issued token decode again.
 */
module Session {
  import opened Base
  import opened Base64
  import Decimal

  const ISSUER := "lurus-identity"
  const SUBJECT_PREFIX := "lurus:"
  const HEADER := "{\"typ\":\"JWT\",\"alg\":\"HS256\"}"
  const SECOND := 1_000_000_000

  datatype Claims = Claims(iss: string, sub: string, iat: int, exp: int)

  datatype Crypto = Crypto(mac: (string, string) -> seq<byte>,
                           marshal: Claims -> seq<byte>,
                           unmarshal: seq<byte> -> Option<Claims>)

  /** These claims, encoded as JSON, can be decoded again. */
  predicate Decodes(c: Crypto, claims: Claims) {
    c.unmarshal(c.marshal(claims)) == Some(claims)
  }

  // ----- Splitting -----

  /** strings.Split at a one-character separator. */
  function Split(s: string): (parts: seq<string>)
    ensures |parts| >= 1
  {
    if s == "" then [""]
    else
      var rest := Split(s[1..]);
      if s[0] == '.' then [""] + rest else [[s[0]] + rest[0]] + rest[1..]
  }

  lemma {:induction false} SplitPlain(s: string)
    requires '.' !in s
    ensures Split(s) == [s]
  {
    if s != "" {
      assert s[0] in s && forall c :: c in s[1..] ==> c in s;
      SplitPlain(s[1..]);
      assert [s[0]] + s[1..] == s;
    }
  }

  lemma {:induction false} SplitAt(a: string, s: string)
    requires '.' !in a
    ensures Split(a + "." + s) == [a] + Split(s)
  {
    if a == "" {
      assert (a + "." + s)[1..] == s;
    } else {
      assert a[0] in a && forall c :: c in a[1..] ==> c in a;
      assert (a + "." + s)[1..] == a[1..] + "." + s;
      SplitAt(a[1..], s);
      assert [a[0]] + a[1..] == a;
    }
  }

  /** Splitting gives exactly the parts that were joined. */
  lemma SplitThree(a: string, b: string, c: string)
    requires '.' !in a && '.' !in b && '.' !in c
    ensures Split(a + "." + b + "." + c) == [a, b, c]
  {
    assert a + "." + b + "." + c == a + "." + (b + "." + c);
    SplitAt(a, b + "." + c);
    SplitAt(b, c);
    SplitPlain(c);
  }

  /** Joining what was split gives the text back. */
  lemma {:induction false} JoinSplit(s: string)
    ensures |Split(s)| == 3 ==> s == Split(s)[0] + "." + Split(s)[1] + "." + Split(s)[2]
    ensures |Split(s)| == 2 ==> s == Split(s)[0] + "." + Split(s)[1]
    ensures |Split(s)| == 1 ==> s == Split(s)[0]
  {
    if s != "" {
      JoinSplit(s[1..]);
      assert s == [s[0]] + s[1..];
    }
  }

  // ----- Issue and validate -----

  function Bytes(s: string): seq<byte> {
    seq(|s|, i requires 0 <= i < |s| => s[i] as int % 256)
  }

  /** Unix seconds of a time in nanoseconds. */
  function Unix(t: int): int {
    t / SECOND
  }

  function Body(c: Crypto, claims: Claims): string {
    Encode(Bytes(HEADER)) + "." + Encode(c.marshal(claims))
  }

  /** The two clock readings are those for the issue and the expiry claim. */
  function IssuedClaims(account: int, ttl: int, issuedAt: int, expiryFrom: int): Claims {
    Claims(ISSUER, SUBJECT_PREFIX + Decimal.Format(account), Unix(issuedAt), Unix(expiryFrom + ttl))
  }

  function Issue(c: Crypto, account: int, ttl: int, secret: string, issuedAt: int, expiryFrom: int): Result<string> {
    if secret == "" then Err(Unavailable)
    else
      var body := Body(c, IssuedClaims(account, ttl, issuedAt, expiryFrom));
      Ok(body + "." + Encode(c.mac(body, secret)))
  }

  predicate HasPrefix(s: string, prefix: string) {
    prefix <= s
  }

  function Validate(c: Crypto, token: string, secret: string, now: int): Result<int> {
    if secret == "" then Err(Unavailable)
    else
      var parts := Split(token);
      if |parts| != 3 then Err(Malformed)
      else
        match Decode(parts[2])
        case None => Err(Malformed)
        case Some(signature) =>
          if c.mac(parts[0] + "." + parts[1], secret) != signature then Err(BadSignature)
          else
            match Decode(parts[1])
            case None => Err(Malformed)
            case Some(payload) => CheckClaims(c.unmarshal(payload), now)
  }

  function CheckClaims(claims: Option<Claims>, now: int): Result<int> {
    if claims.None? then Err(Malformed)
    else
      var cl := claims.value;
      if cl.iss != ISSUER then Err(BadIssuer)
      else if Unix(now) > cl.exp then Err(TokenExpired)
      else if !HasPrefix(cl.sub, SUBJECT_PREFIX) then Err(BadSubject)
      else
        match Decimal.ParseInt(cl.sub[|SUBJECT_PREFIX|..])
        case None => Err(BadSubject)
        case Some(id) => if id <= 0 then Err(BadSubject) else Ok(id)
  }

  lemma IssuedParts(c: Crypto, claims: Claims, secret: string)
    ensures var body := Body(c, claims);
            Split(body + "." + Encode(c.mac(body, secret)))
              == [Encode(Bytes(HEADER)), Encode(c.marshal(claims)), Encode(c.mac(body, secret))]
  {
    var body := Body(c, claims);
    DecodeEncode(Bytes(HEADER));
    DecodeEncode(c.marshal(claims));
    DecodeEncode(c.mac(body, secret));
    SplitThree(Encode(Bytes(HEADER)), Encode(c.marshal(claims)), Encode(c.mac(body, secret)));
  }

  lemma SubjectOf(account: int)
    ensures HasPrefix(SUBJECT_PREFIX + Decimal.Format(account), SUBJECT_PREFIX)
    ensures (SUBJECT_PREFIX + Decimal.Format(account))[|SUBJECT_PREFIX|..] == Decimal.Format(account)
  {
  }

  /**
   * An issued token validates to the account it was issued for exactly if the account id is a positive
   * 64-bit integer and the clock has not passed the expiry second; this holds for every secret, MAC and time to
   * live, if only the JSON codec gives back the claims of this token.
   */
  lemma IssuedTokenValidIff(c: Crypto, account: int, ttl: int, secret: string, issuedAt: int, expiryFrom: int, now: int)
    requires Decodes(c, IssuedClaims(account, ttl, issuedAt, expiryFrom)) && secret != ""
    ensures Issue(c, account, ttl, secret, issuedAt, expiryFrom).Ok?
    ensures var token := Issue(c, account, ttl, secret, issuedAt, expiryFrom).value;
            Validate(c, token, secret, now) == Ok(account) <==>
            0 < account <= 9_223_372_036_854_775_807 && now / 1_000_000_000 <= (expiryFrom + ttl) / 1_000_000_000
  {
    var claims := IssuedClaims(account, ttl, issuedAt, expiryFrom);
    var body := Body(c, claims);
    IssuedParts(c, claims, secret);
    DecodeEncode(c.mac(body, secret));
    DecodeEncode(c.marshal(claims));
    SubjectOf(account);
    Decimal.ParseFormat(account);
    var token := body + "." + Encode(c.mac(body, secret));
    assert Validate(c, token, secret, now) == CheckClaims(Some(claims), now);
  }

  /** The header's bytes, in ASCII. */
  lemma HeaderBytes()
    ensures Bytes(HEADER) == [123, 34, 116, 121, 112, 34, 58, 34, 74, 87, 84, 34, 44, 34]
                           + [97, 108, 103, 34, 58, 34, 72, 83, 50, 53, 54, 34, 125]
  {
  }

  /** What an issued token says: the issuer, the account after a fixed prefix, and both times in whole Unix seconds. */
  lemma IssuedText(c: Crypto, account: int, ttl: int, secret: string, issuedAt: int, expiryFrom: int)
    ensures secret == "" ==> Issue(c, account, ttl, secret, issuedAt, expiryFrom) == Err(Unavailable)
    ensures secret != "" ==>
            var claims := Claims("lurus-identity", "lurus:" + Decimal.Format(account), issuedAt / 1_000_000_000,
                                 (expiryFrom + ttl) / 1_000_000_000);
            var body := Encode(Bytes(HEADER)) + "." + Encode(c.marshal(claims));
            Issue(c, account, ttl, secret, issuedAt, expiryFrom) == Ok(body + "." + Encode(c.mac(body, secret)))
  {
  }

  /** What a text validates to: the account in its subject, or the error of the first condition that fails. */
  lemma ValidateIff(c: Crypto, token: string, secret: string, now: int)
    ensures var r, p := Validate(c, token, secret, now), Split(token);
            if secret == "" then r == Err(Unavailable)
            else if |p| != 3 || Decode(p[2]) == None then r == Err(Malformed)
            else if Decode(p[2]) != Some(c.mac(p[0] + "." + p[1], secret)) then r == Err(BadSignature)
            else if Decode(p[1]) == None || c.unmarshal(Decode(p[1]).value) == None then r == Err(Malformed)
            else
              var claims := c.unmarshal(Decode(p[1]).value).value;
              if claims.iss != "lurus-identity" then r == Err(BadIssuer)
              else if claims.exp < now / 1_000_000_000 then r == Err(TokenExpired)
              else if |claims.sub| < 6 || claims.sub[..6] != "lurus:" then r == Err(BadSubject)
              else
                match Decimal.ParseSigned(claims.sub[6..])
                case Some(id) => r == if 0 < id <= 9_223_372_036_854_775_807 then Ok(id) else Err(BadSubject)
                case None => r == Err(BadSubject)
  {
  }

  /**
   * Whatever text is presented: it validates only if it is three parts whose last decodes to the MAC of the
   * first two under the secret, and whose claims name the issuer, have not expired and carry that account.
   */
  lemma ValidTokenIsSigned(c: Crypto, token: string, secret: string, now: int)
    requires Validate(c, token, secret, now).Ok?
    ensures secret != "" && |Split(token)| == 3
    ensures var p := Split(token);
            && token == p[0] + "." + p[1] + "." + p[2]
            && Decode(p[2]) == Some(c.mac(p[0] + "." + p[1], secret))
            && Decode(p[1]).Some? && c.unmarshal(Decode(p[1]).value).Some?
            && var claims := c.unmarshal(Decode(p[1]).value).value;
               claims.iss == ISSUER && Unix(now) <= claims.exp
               && 0 < Validate(c, token, secret, now).value <= Decimal.MAX_INT64
  {
    JoinSplit(token);
  }

  /**
   * Which texts validate for one signature: with the same first two parts, exactly the spellings of the MAC, line breaks
   * aside. For the 32 bytes of HMAC-SHA256 these are four, and they validate to the same account.
   */
  lemma SignatureSpellings(c: Crypto, header: string, payload: string, signature: string, secret: string, now: int)
    requires '.' !in header && '.' !in payload && '.' !in signature
    ensures var mac := c.mac(header + "." + payload, secret);
            var token, issued := header + "." + payload + "." + signature, header + "." + payload + "." + Encode(mac);
            && (Validate(c, token, secret, now).Ok? <==>
                Validate(c, issued, secret, now).Ok? && exists x: nat :: x < Spare(mac) && Unwrapped(signature) == Spelling(mac, x))
            && (Validate(c, token, secret, now).Ok? ==> Validate(c, token, secret, now) == Validate(c, issued, secret, now))
            && (|mac| == 32 ==> Spare(mac) == 4)
  {
    var mac := c.mac(header + "." + payload, secret);
    DecodeEncode(mac);
    DecodeIff(signature, mac);
    SplitThree(header, payload, signature);
    SplitThree(header, payload, Encode(mac));
  }

  /** A valid token keeps validating to the same account until it expires, and never afterwards. */
  lemma ValidityEndsOnce(c: Crypto, token: string, secret: string, t: int, u: int)
    requires Validate(c, token, secret, u).Ok? && t <= u
    ensures Validate(c, token, secret, t) == Validate(c, token, secret, u)
  {
  }
}
