/**
 * users.go: sign-up, login, session refresh, refresh-token revocation and
 * the update of a user's email and password.
 */
module Users {
  import opened Wrappers
  import opened Uuids
  import Hex
  import Auth
  import opened Store
  import opened Http
  import opened Server

  /** time.Hour and the refresh-token lifetime (60 days of 24 hours), in seconds. */
  const Hour := 3600
  const SixtyDays := 60 * 24 * Hour

  const IncorrectLogin := "Incorrect email or password"

  /**
   * A session token handed out at `now` by MakeJWT for `userId` validates to
   * that user for the hour that follows, under a sound JWT library.
   */
  ghost predicate SessionFor(token: string, userId: Uuid, secret: string, now: int, codec: Auth.JwtCodec) {
    forall t | now <= t < now + Hour :: Auth.ValidateJwt(token, secret, t, codec) == Auth.Ret(userId, None)
  }

  lemma SessionTokenLastsAnHour(userId: Uuid, secret: string, now: int, codec: Auth.JwtCodec)
    requires Auth.SoundCodec(codec)
    requires Auth.MakeJwt(userId, secret, Hour, now, codec).err.None?
    ensures SessionFor(Auth.MakeJwt(userId, secret, Hour, now, codec).value, userId, secret, now, codec)
  {
    forall t | now <= t < now + Hour
      ensures Auth.ValidateJwt(Auth.MakeJwt(userId, secret, Hour, now, codec).value, secret, t, codec) == Auth.Ret(userId, None)
    {
      Auth.SessionTokenRoundTrip(userId, secret, Hour, now, t, codec);
    }
  }

  // ---------------------------------------------------------------------
  // POST /api/users
  // ---------------------------------------------------------------------

  /** createUserHandler: a new user, not on the paid tier. */
  method CreateUserHandler(cfg: ApiConfig, env: Env, body: Option<Credentials>) returns (r: Response)
    requires cfg.db.Valid()
    modifies cfg.db
    ensures cfg.db.Valid()
    ensures cfg.db.chirps == old(cfg.db.chirps) && cfg.db.refreshTokens == old(cfg.db.refreshTokens)
    ensures body.None? ==>
      r == RespondWithError(StatusInternalServerError, "Error reading the password and email from the request body")
    ensures body.Some? ==>
      var hash := env.hashPassword(body.value.password);
      && (hash.Failure? ==> r == RespondWithError(StatusInternalServerError, hash.error))
      && (hash.Success? && r.status != StatusCreated ==> r == RespondWithError(StatusInternalServerError, "Something went wrong"))
      && (r.status == StatusCreated <==>
            hash.Success? && CreateUserQ !in env.faults && env.newId !in old(cfg.db.users)
            && EmailFree(old(cfg.db.users), body.value.email, None))
      && (r.status == StatusCreated ==>
            var u := UserRow(env.newId, env.now, env.now, body.value.email, hash.value, false);
            r.body == UserJson(View(u)) && cfg.db.users == old(cfg.db.users)[env.newId := u])
    ensures r.status != StatusCreated ==> cfg.db.users == old(cfg.db.users)
  {
    if body.None? {
      return RespondWithError(StatusInternalServerError, "Error reading the password and email from the request body");
    }
    var hash := env.hashPassword(body.value.password);
    if hash.Failure? {
      return RespondWithError(StatusInternalServerError, hash.error);
    }
    var user := cfg.db.CreateUser(CreateUserQ in env.faults, env.newId, env.now, body.value.email, hash.value);
    if user.Failure? {
      return RespondWithError(StatusInternalServerError, "Something went wrong");
    }
    return Response(StatusCreated, UserJson(View(user.value)));
  }

  // ---------------------------------------------------------------------
  // POST /api/login
  // ---------------------------------------------------------------------

  /**
   * loginUserHandler. An unknown email, a hash the checker cannot read and a
   * wrong password all answer the same 401. On success a one-hour session
   * token and a 60-day refresh token are handed out, the latter stored.
   */
  method LoginUserHandler(cfg: ApiConfig, env: Env, body: Option<Credentials>) returns (r: Response)
    requires cfg.db.Valid()
    modifies cfg.db
    ensures cfg.db.Valid()
    ensures cfg.db.users == old(cfg.db.users) && cfg.db.chirps == old(cfg.db.chirps)
    ensures body.None? ==> r == RespondWithError(StatusInternalServerError, "Something went wrong")
    ensures body.Some? ==>
      var user := UserWithEmail(old(cfg.db.users), body.value.email);
      && (GetUserUsingEmailQ in env.faults || user.None? ==> r == RespondWithError(StatusUnauthorized, IncorrectLogin))
      && (GetUserUsingEmailQ !in env.faults && user.Some? ==>
            var u := user.value;
            var check := env.checkPassword(body.value.password, u.hashedPassword);
            var token := Auth.MakeJwt(u.id, cfg.secret, Hour, env.now, env.jwt);
            var refresh := Hex.Encode(Auth.RandomBytes(env.random, 32));
            && (check != Success(true) ==> r == RespondWithError(StatusUnauthorized, IncorrectLogin))
            && (check == Success(true) && token.err.Some? ==>
                  r == RespondWithError(StatusInternalServerError, Auth.Message(Auth.SigningFailed)))
            && (check == Success(true) && token.err.None? && !env.randOk ==>
                  r == RespondWithError(StatusUnauthorized, Auth.Message(Auth.RandomReadFailed)))
            && (check == Success(true) && token.err.None? && env.randOk && r.status != StatusOK ==>
                  r.status == StatusUnauthorized && r.body.ErrorJson?)
            && (r.status == StatusOK <==>
                  && check == Success(true) && token.err.None? && env.randOk
                  && CreateRefreshTokenQ !in env.faults && refresh !in old(cfg.db.refreshTokens))
            && (r.status == StatusOK ==>
                  && r.body == UserWithTokenJson(View(u), token.value, refresh)
                  && |refresh| == 64 && Hex.AllLowerHex(refresh)
                  && cfg.db.refreshTokens == old(cfg.db.refreshTokens)[refresh :=
                       RefreshTokenRow(refresh, env.now, env.now, u.id, env.now + SixtyDays, None)]
                  && (Auth.SoundCodec(env.jwt) ==> SessionFor(token.value, u.id, cfg.secret, env.now, env.jwt))))
    ensures r.status in {StatusOK, StatusUnauthorized, StatusInternalServerError}
    ensures r.status != StatusOK ==> cfg.db.refreshTokens == old(cfg.db.refreshTokens)
  {
    if body.None? {
      return RespondWithError(StatusInternalServerError, "Something went wrong");
    }
    var user := cfg.db.GetUserUsingEmail(GetUserUsingEmailQ in env.faults, body.value.email);
    if user.Failure? {
      return RespondWithError(StatusUnauthorized, IncorrectLogin);
    }
    var u := user.value;
    var check := env.checkPassword(body.value.password, u.hashedPassword);
    if check.Failure? {
      return RespondWithError(StatusUnauthorized, IncorrectLogin);
    }
    if !check.value {
      return RespondWithError(StatusUnauthorized, IncorrectLogin);
    }
    var token := Auth.MakeJwt(u.id, cfg.secret, Hour, env.now, env.jwt);
    if token.err.Some? {
      return RespondWithError(StatusInternalServerError, Auth.Message(token.err.value));
    }
    var refreshToken := Auth.MakeRefreshToken(env.randOk, env.random);
    if refreshToken.err.Some? {
      return RespondWithError(StatusUnauthorized, Auth.Message(refreshToken.err.value));
    }
    var stored := cfg.db.CreateRefreshToken(CreateRefreshTokenQ in env.faults, env.now, refreshToken.value, u.id, env.now + SixtyDays);
    if stored.Failure? {
      return RespondWithError(StatusUnauthorized, DbMessage(stored.error));
    }
    if Auth.SoundCodec(env.jwt) {
      SessionTokenLastsAnHour(u.id, cfg.secret, env.now, env.jwt);
    }
    return Response(StatusOK, UserWithTokenJson(View(u), token.value, refreshToken.value));
  }

  // ---------------------------------------------------------------------
  // POST /api/refresh
  // ---------------------------------------------------------------------

  /** refreshTokenHandler: a new session token for the owner of a usable refresh token. */
  method RefreshTokenHandler(cfg: ApiConfig, env: Env, authorization: string) returns (r: Response)
    requires cfg.db.Valid()
    ensures var bearer := Auth.GetBearerToken(authorization);
      && (bearer.err.Some? ==> r == RespondWithError(StatusUnauthorized, Auth.Message(bearer.err.value)))
      && (bearer.err.None? ==>
            var tok := bearer.value;
            var usable := GetUserFromRefreshTokenQ !in env.faults && tok in cfg.db.refreshTokens
              && Usable(cfg.db.refreshTokens[tok], env.now);
            && (!usable ==> r == RespondWithError(StatusUnauthorized, "The user's token has been rejected or doesn't exist"))
            && (usable ==>
                  var owner := cfg.db.refreshTokens[tok].userId;
                  var token := Auth.MakeJwt(owner, cfg.secret, Hour, env.now, env.jwt);
                  && (token.err.Some? ==> r == RespondWithError(StatusUnauthorized, "Can't create a new JWT for the user"))
                  && (token.err.None? ==> r == Response(StatusOK, TokenJson(token.value)))
                  && (token.err.None? && Auth.SoundCodec(env.jwt) ==>
                        SessionFor(token.value, owner, cfg.secret, env.now, env.jwt))))
    ensures r.status in {StatusOK, StatusUnauthorized}
  {
    var refreshToken := Auth.GetBearerToken(authorization);
    if refreshToken.err.Some? {
      return RespondWithError(StatusUnauthorized, Auth.Message(refreshToken.err.value));
    }
    var user := cfg.db.GetUserFromRefreshToken(GetUserFromRefreshTokenQ in env.faults, env.now, refreshToken.value);
    if user.Failure? {
      return RespondWithError(StatusUnauthorized, "The user's token has been rejected or doesn't exist");
    }
    var token := Auth.MakeJwt(user.value.id, cfg.secret, Hour, env.now, env.jwt);
    if token.err.Some? {
      return RespondWithError(StatusUnauthorized, "Can't create a new JWT for the user");
    }
    if Auth.SoundCodec(env.jwt) {
      SessionTokenLastsAnHour(user.value.id, cfg.secret, env.now, env.jwt);
    }
    return Response(StatusOK, TokenJson(token.value));
  }

  // ---------------------------------------------------------------------
  // POST /api/revoke
  // ---------------------------------------------------------------------

  /** revokeTokenHandler: a revoked refresh token is never usable again. */
  method RevokeTokenHandler(cfg: ApiConfig, env: Env, authorization: string) returns (r: Response)
    requires cfg.db.Valid()
    modifies cfg.db
    ensures cfg.db.Valid()
    ensures cfg.db.users == old(cfg.db.users) && cfg.db.chirps == old(cfg.db.chirps)
    ensures var bearer := Auth.GetBearerToken(authorization);
      && (bearer.err.Some? ==> r == RespondWithError(StatusUnauthorized, Auth.Message(bearer.err.value)))
      && (bearer.err.None? ==>
            var tok := bearer.value;
            && (r.status == StatusNoContent <==> RevokeTokenQ !in env.faults && tok in old(cfg.db.refreshTokens))
            && (r.status != StatusNoContent ==>
                  r == RespondWithError(StatusUnauthorized, "Refresh token was not found in the db"))
            && (r.status == StatusNoContent ==>
                  && r.body == Empty
                  && cfg.db.refreshTokens == old(cfg.db.refreshTokens)[tok :=
                       old(cfg.db.refreshTokens)[tok].(revokedAt := Some(env.now), updatedAt := env.now)]
                  && forall t :: !Usable(cfg.db.refreshTokens[tok], t)))
    ensures r.status != StatusNoContent ==> cfg.db.refreshTokens == old(cfg.db.refreshTokens)
  {
    var refreshToken := Auth.GetBearerToken(authorization);
    if refreshToken.err.Some? {
      return RespondWithError(StatusUnauthorized, Auth.Message(refreshToken.err.value));
    }
    var revoked := cfg.db.RevokeToken(RevokeTokenQ in env.faults, env.now, refreshToken.value);
    if revoked.Failure? {
      return RespondWithError(StatusUnauthorized, "Refresh token was not found in the db");
    }
    return Response(StatusNoContent, Empty);
  }

  // ---------------------------------------------------------------------
  // PUT /api/users
  // ---------------------------------------------------------------------

  /** updateUserHandler: the authenticated user's new email and password. */
  method UpdateUserHandler(cfg: ApiConfig, env: Env, authorization: string, body: Option<Credentials>) returns (r: Response)
    requires cfg.db.Valid()
    modifies cfg.db
    ensures cfg.db.Valid()
    ensures cfg.db.chirps == old(cfg.db.chirps) && cfg.db.refreshTokens == old(cfg.db.refreshTokens)
    ensures var a := Authenticate(authorization, cfg.secret, env.now, env.jwt);
      && (a.NoBearer? ==> r == RespondWithError(StatusUnauthorized, "Access token is malformed or missing"))
      && (a.BadToken? ==> r == RespondWithError(StatusUnauthorized, "malformed / bad signature / expired token"))
      && (a.Authenticated? && body.None? ==>
            r == RespondWithError(StatusInternalServerError, "Error reading the password and email from the request body"))
      && (a.Authenticated? && body.Some? ==>
            var hash := env.hashPassword(body.value.password);
            && (hash.Failure? ==> r == RespondWithError(StatusInternalServerError, "Error hashing the password passed in"))
            && (r.status == StatusOK <==>
                  hash.Success? && UpdateUserPassEmailQ !in env.faults && a.userId in old(cfg.db.users)
                  && EmailFree(old(cfg.db.users), body.value.email, Some(a.userId)))
            && (hash.Success? && r.status != StatusOK ==>
                  r == RespondWithError(StatusInternalServerError, "Error updating the users email and password"))
            && (r.status == StatusOK ==>
                  var u := old(cfg.db.users)[a.userId].(email := body.value.email, hashedPassword := hash.value, updatedAt := env.now);
                  r.body == UserJson(View(u)) && cfg.db.users == old(cfg.db.users)[a.userId := u]))
    ensures r.status != StatusOK ==> cfg.db.users == old(cfg.db.users)
  {
    ghost var a := Authenticate(authorization, cfg.secret, env.now, env.jwt);
    var token := Auth.GetBearerToken(authorization);
    if token.err.Some? {
      return RespondWithError(StatusUnauthorized, "Access token is malformed or missing");
    }
    var userId := Auth.ValidateJwt(token.value, cfg.secret, env.now, env.jwt);
    if userId.err.Some? {
      return RespondWithError(StatusUnauthorized, "malformed / bad signature / expired token");
    }
    assert a == Authenticated(userId.value);
    if body.None? {
      return RespondWithError(StatusInternalServerError, "Error reading the password and email from the request body");
    }
    var hashedPass := env.hashPassword(body.value.password);
    if hashedPass.Failure? {
      return RespondWithError(StatusInternalServerError, "Error hashing the password passed in");
    }
    var responseUser := cfg.db.UpdateUserPassEmail(UpdateUserPassEmailQ in env.faults, env.now, userId.value, body.value.email, hashedPass.value);
    if responseUser.Failure? {
      return RespondWithError(StatusInternalServerError, "Error updating the users email and password");
    }
    return Response(StatusOK, UserJson(View(responseUser.value)));
  }
}
