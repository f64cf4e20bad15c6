/**
 * internal/auth/auth.go: credential extraction from the Authorization
 * header, refresh-token generation, and the claim-level part of minting and
 * validating session tokens. Password hashing (argon2id) and the JWT
 * library's signing and parsing are kept abstract: the handlers receive them
 * as oracles.
 */
module Auth {
  import opened Wrappers
  import opened Strings
  import Hex
  import opened Uuids

  /** The errors auth.go produces or passes on from the libraries it calls. */
  datatype AuthError =
    | NoAuthorizationHeader
    | NoSchemePrefix(scheme: string)
    | TokenUnverifiable
    | TokenExpired
    | InvalidIssuer
    | SubjectNotUuid
    | SigningFailed
    | RandomReadFailed

  /** err.Error(); the wording of library errors is not reproduced exactly. */
  function Message(e: AuthError): string {
    match e
    case NoAuthorizationHeader => "The header has no Authorization parameter"
    case NoSchemePrefix(_) => "The Authorization header has no " + e.scheme
    case TokenUnverifiable => "token is malformed or its signature is invalid"
    case TokenExpired => "token has invalid claims: token is expired"
    case InvalidIssuer => "invalid issuer"
    case SubjectNotUuid => "invalid UUID"
    case SigningFailed => "token could not be signed"
    case RandomReadFailed => "random source failed"
  }

  /** Go's (value, error) pair; `err` is None for a nil error. */
  datatype Ret<T> = Ret(value: T, err: Option<AuthError>)

  // ---------------------------------------------------------------------
  // Authorization header
  // ---------------------------------------------------------------------

  const BearerPrefix := "Bearer "
  const ApiKeyPrefix := "ApiKey "

  /**
   * The shared procedure of GetBearerToken and GetBearerApi: an empty header
   * value is an error, so is one without the case-sensitive prefix (trailing
   * space included); otherwise one prefix is cut off and the rest trimmed.
   */
  function StripScheme(header: string, prefix: string, scheme: string): (r: Ret<string>)
    ensures r.err.None? <==> header != "" && HasPrefix(header, prefix)
    ensures r.err.Some? ==> r.value == ""
    ensures r.err.None? ==> IsTrimmed(r.value) && |r.value| <= |header| - |prefix|
  {
    if header == "" then Ret("", Some(NoAuthorizationHeader))
    else if !HasPrefix(header, prefix) then Ret("", Some(NoSchemePrefix(scheme)))
    else Ret(TrimSpace(TrimPrefix(header, prefix)), None)
  }

  /** auth.GetBearerToken, given the value of the Authorization header ("" when absent). */
  function GetBearerToken(authorization: string): (r: Ret<string>)
    ensures r.err.None? <==> HasPrefix(authorization, BearerPrefix)
    ensures r.err.Some? ==> r.value == ""
    ensures r.err.None? ==> IsTrimmed(r.value)
  {
    StripScheme(authorization, BearerPrefix, "Bearer")
  }

  /**
   * auth.GetBearerApi, which the webhook handler calls but auth.go does not
   * define: modelled as GetBearerToken with the prefix "ApiKey ".
   */
  function GetBearerApi(authorization: string): (r: Ret<string>)
    ensures r.err.None? <==> HasPrefix(authorization, ApiKeyPrefix)
    ensures r.err.Some? ==> r.value == ""
    ensures r.err.None? ==> IsTrimmed(r.value)
  {
    StripScheme(authorization, ApiKeyPrefix, "ApiKey")
  }

  /**
   * A client that sends "Bearer " followed by a token with any whitespace
   * around it gets exactly that token back.
   */
  lemma BearerTokenRoundTrip(pad: string, token: string, trail: string)
    requires AllSpace(pad) && IsTrimmed(token) && AllSpace(trail)
    ensures GetBearerToken(BearerPrefix + pad + token + trail) == Ret(token, None)
  {
    var h := BearerPrefix + pad + token + trail;
    assert h[..7] == BearerPrefix;
    assert h[7..] == pad + token + trail;
    TrimSpacePadded(pad, token, trail);
  }

  /**
   * What GetBearerToken returns is a slice of the header after the prefix,
   * and only whitespace lies between it and the prefix and after it.
   */
  lemma BearerTokenIsSliceOfHeader(authorization: string)
    requires GetBearerToken(authorization).err.None?
    ensures var rest := authorization[|BearerPrefix|..];
      && authorization == BearerPrefix + rest
      && PaddedAt(rest, GetBearerToken(authorization).value, LeadingSpaces(rest))
  {
    var rest := authorization[|BearerPrefix|..];
    assert authorization == authorization[..|BearerPrefix|] + rest;
    assert GetBearerToken(authorization).value == TrimSpace(rest);
    TrimSpaceIsSlice(rest);
  }

  /** Header values that are refused: absent, the bare word, the wrong case. */
  lemma BearerTokenRejects()
    ensures GetBearerToken("") == Ret("", Some(NoAuthorizationHeader))
    ensures GetBearerToken("Bearer") == Ret("", Some(NoSchemePrefix("Bearer")))
    ensures GetBearerToken("bearer abc") == Ret("", Some(NoSchemePrefix("Bearer")))
  {
    assert !HasPrefix("Bearer", BearerPrefix);
    assert !HasPrefix("bearer abc", BearerPrefix) by { assert "bearer abc"[0] != BearerPrefix[0]; }
  }

  /** A prefix followed by blanks gives the empty token, without an error. */
  lemma BearerTokenBlank()
    ensures GetBearerToken("Bearer ") == Ret("", None)
    ensures GetBearerToken("Bearer    ") == Ret("", None)
  {
    BearerTokenRoundTrip("", "", "");
    assert BearerPrefix + "" + "" + "" == "Bearer ";
    BearerTokenRoundTrip("", "", "   ");
    assert BearerPrefix + "" + "" + "   " == "Bearer    ";
  }

  /** Only one prefix is cut off. */
  lemma BearerTokenOnePrefix()
    ensures GetBearerToken("Bearer Bearer x") == Ret("Bearer x", None)
  {
    var h := "Bearer Bearer x";
    assert h[..|BearerPrefix|] == BearerPrefix;
    assert h[|BearerPrefix|..] == "Bearer x";
    assert TrimPrefix(h, BearerPrefix) == "Bearer x";
    TrimSpacePadded("", "Bearer x", "");
    assert "" + "Bearer x" + "" == "Bearer x";
  }

  // ---------------------------------------------------------------------
  // Refresh tokens
  // ---------------------------------------------------------------------

  /** The first `n` bytes a random source yields. */
  function RandomBytes(random: nat -> Hex.byte, n: nat): (r: seq<Hex.byte>)
    ensures |r| == n
  {
    seq(n, i requires 0 <= i < n => random(i))
  }

  /**
   * auth.MakeRefreshToken: rand.Read fills a 32-byte buffer in place (the
   * bytes come from `random`; `readOk` is whether the read succeeded), and
   * the buffer is hex-encoded.
   */
  method MakeRefreshToken(readOk: bool, random: nat -> Hex.byte) returns (r: Ret<string>)
    ensures r.err.Some? <==> !readOk
    ensures !readOk ==> r == Ret("", Some(RandomReadFailed))
    ensures readOk ==> r.value == Hex.Encode(RandomBytes(random, 32))
    ensures readOk ==> |r.value| == 64 && Hex.AllLowerHex(r.value)
    ensures readOk ==> Hex.Decode(r.value) == Some(RandomBytes(random, 32))
  {
    var key := new Hex.byte[32];
    for i := 0 to 32
      invariant key[..i] == RandomBytes(random, i)
    {
      key[i] := random(i);
    }
    if !readOk {
      return Ret("", Some(RandomReadFailed));
    }
    assert key[..] == key[..32];
    var encoded := Hex.Encode(key[..]);
    Hex.DecodeEncode(key[..]);
    return Ret(encoded, None);
  }

  // ---------------------------------------------------------------------
  // Session tokens (JWT), at the level of claims
  // ---------------------------------------------------------------------

  /** The registered claims chirpy reads and writes; times in seconds. */
  datatype Claims = Claims(issuer: string, subject: string, issuedAt: Option<int>, expiresAt: Option<int>)

  /**
   * The JWT library, abstract: `sign` is HS256 signing and serialisation of
   * claims under a secret (it can fail); `verify` parses a token and checks
   * its signature under a secret, yielding the claims it carries.
   */
  datatype JwtCodec = JwtCodec(sign: (Claims, string) -> Option<string>, verify: (string, string) -> Option<Claims>)

  /** A signed token verifies, under the same secret, to the claims it was signed with. */
  ghost predicate SoundCodec(codec: JwtCodec) {
    forall c, key | codec.sign(c, key).Some? :: codec.verify(codec.sign(c, key).value, key) == Some(c)
  }

  const Issuer := "chirpy"

  /** The claims MakeJWT signs: issuer, subject, issued-at now, expiry now + lifetime. */
  function SessionClaims(userId: Uuid, now: int, expiresIn: int): Claims {
    Claims(Issuer, UuidString(userId), Some(now), Some(now + expiresIn))
  }

  /** auth.MakeJWT at the clock reading `now`. */
  function MakeJwt(userId: Uuid, secret: string, expiresIn: int, now: int, codec: JwtCodec): (r: Ret<string>)
    ensures r.err.Some? ==> r == Ret("", Some(SigningFailed))
    ensures r.err.None? <==> codec.sign(SessionClaims(userId, now, expiresIn), secret).Some?
    ensures r.err.None? && SoundCodec(codec) ==>
      codec.verify(r.value, secret) == Some(Claims("chirpy", UuidString(userId), Some(now), Some(now + expiresIn)))
  {
    match codec.sign(SessionClaims(userId, now, expiresIn), secret)
    case None => Ret("", Some(SigningFailed))
    case Some(token) => Ret(token, None)
  }

  /** A token is live while the clock is before its expiry, if it has one. */
  predicate Live(c: Claims, now: int) {
    c.expiresAt.None? || now < c.expiresAt.value
  }

  /**
   * jwt.ParseWithClaims with the library's default checks: the signature,
   * then the expiry if the token carries one.
   */
  function ParseWithClaims(token: string, secret: string, now: int, codec: JwtCodec): (r: Result<Claims, AuthError>)
    ensures r.Success? <==> codec.verify(token, secret).Some? && Live(codec.verify(token, secret).value, now)
  {
    match codec.verify(token, secret)
    case None => Failure(TokenUnverifiable)
    case Some(c) => if Live(c, now) then Success(c) else Failure(TokenExpired)
  }

  /**
   * auth.ValidateJWT: uuid.Nil on every error. The subject read never fails
   * for registered claims (GetSubject returns the field), so a missing
   * subject shows up as the empty string, which uuid.Parse rejects.
   */
  function ValidateJwt(token: string, secret: string, now: int, codec: JwtCodec): (r: Ret<Uuid>)
    ensures r.err.Some? ==> r.value == Nil
    ensures r.err.None? <==>
      && codec.verify(token, secret).Some?
      && Live(codec.verify(token, secret).value, now)
      && codec.verify(token, secret).value.issuer == Issuer
      && ParseUuid(codec.verify(token, secret).value.subject).Some?
    ensures r.err.None? ==> ParseUuid(codec.verify(token, secret).value.subject) == Some(r.value)
  {
    match ParseWithClaims(token, secret, now, codec)
    case Failure(e) => Ret(Nil, Some(e))
    case Success(claims) =>
      if claims.issuer != Issuer then Ret(Nil, Some(InvalidIssuer))
      else
        match ParseUuid(claims.subject)
        case None => Ret(Nil, Some(SubjectNotUuid))
        case Some(id) => Ret(id, None)
  }

  /** A token minted for a user validates, before it expires, to that user. */
  lemma SessionTokenRoundTrip(userId: Uuid, secret: string, expiresIn: int, issuedAt: int, checkedAt: int, codec: JwtCodec)
    requires SoundCodec(codec)
    requires MakeJwt(userId, secret, expiresIn, issuedAt, codec).err.None?
    requires checkedAt < issuedAt + expiresIn
    ensures ValidateJwt(MakeJwt(userId, secret, expiresIn, issuedAt, codec).value, secret, checkedAt, codec) == Ret(userId, None)
  {
    UuidStringParses(userId);
  }

  /** Once its lifetime has elapsed, the same token is rejected with uuid.Nil. */
  lemma SessionTokenExpires(userId: Uuid, secret: string, expiresIn: int, issuedAt: int, checkedAt: int, codec: JwtCodec)
    requires SoundCodec(codec)
    requires MakeJwt(userId, secret, expiresIn, issuedAt, codec).err.None?
    requires checkedAt >= issuedAt + expiresIn
    ensures ValidateJwt(MakeJwt(userId, secret, expiresIn, issuedAt, codec).value, secret, checkedAt, codec) == Ret(Nil, Some(TokenExpired))
  {
    var token := MakeJwt(userId, secret, expiresIn, issuedAt, codec).value;
    assert codec.verify(token, secret) == Some(SessionClaims(userId, issuedAt, expiresIn));
  }
}
