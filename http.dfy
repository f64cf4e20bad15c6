/**
 * What a handler writes back (status and body, the JSON already decoded
 * into its fields), and what a request sees of the world outside the
 * handlers: the clock, the id the database generates, which queries fail,
 * the password hasher, the JWT library and the random source.
 */
module Http {
  import opened Wrappers
  import opened Uuids
  import Hex
  import Auth
  import Store

  const StatusOK := 200
  const StatusCreated := 201
  const StatusNoContent := 204
  const StatusBadRequest := 400
  const StatusUnauthorized := 401
  const StatusForbidden := 403
  const StatusNotFound := 404
  const StatusInternalServerError := 500

  /** The user fields a response shows: everything but the password hash. */
  datatype UserView = UserView(id: Uuid, createdAt: int, updatedAt: int, email: string, isChirpyRed: bool)

  function View(u: Store.UserRow): (v: UserView)
    ensures v.id == u.id && v.email == u.email && v.isChirpyRed == u.isChirpyRed
    ensures v.createdAt == u.createdAt && v.updatedAt == u.updatedAt
  {
    UserView(u.id, u.createdAt, u.updatedAt, u.email, u.isChirpyRed)
  }

  datatype Body =
    | Empty
    | ErrorJson(error: string)
    | ChirpJson(chirp: Store.Chirp)
    | ChirpListJson(chirps: seq<Store.Chirp>)
    | UserJson(user: UserView)
    | UserWithTokenJson(user: UserView, token: string, refreshToken: string)
    | TokenJson(token: string)
    | Text(text: string)
    | Html(html: string)

  datatype Response = Response(status: int, body: Body)

  /** respondWithError: the status and the body {"error": msg}. */
  function RespondWithError(code: int, msg: string): (r: Response)
    ensures r.status == code && r.body.ErrorJson? && r.body.error == msg
  {
    Response(code, ErrorJson(msg))
  }

  /**
   * The outside world as one request sees it. `hashPassword` and
   * `checkPassword` stand for argon2id (an error is its message); `randOk`
   * and `random` for crypto/rand.Read.
   */
  datatype Env = Env(
    now: int,
    newId: Uuid,
    faults: set<Store.Query>,
    hashPassword: string -> Result<string, string>,
    checkPassword: (string, string) -> Result<bool, string>,
    jwt: Auth.JwtCodec,
    randOk: bool,
    random: nat -> Hex.byte)

  /** How the authenticated handlers' preamble ends: which step failed, or the user. */
  datatype Authn = NoBearer(err: Auth.AuthError) | BadToken(err: Auth.AuthError) | Authenticated(userId: Uuid)

  /** GetBearerToken on the Authorization header, then ValidateJWT on the token. */
  function Authenticate(authorization: string, secret: string, now: int, codec: Auth.JwtCodec): (a: Authn)
    ensures a.NoBearer? <==> Auth.GetBearerToken(authorization).err.Some?
    ensures a.NoBearer? ==> a.err == Auth.GetBearerToken(authorization).err.value
    ensures !a.NoBearer? ==> var v := Auth.ValidateJwt(Auth.GetBearerToken(authorization).value, secret, now, codec);
      && (a.BadToken? <==> v.err.Some?)
      && (a.BadToken? ==> a.err == v.err.value)
      && (a.Authenticated? ==> a.userId == v.value)
  {
    var bearer := Auth.GetBearerToken(authorization);
    if bearer.err.Some? then NoBearer(bearer.err.value)
    else
      var v := Auth.ValidateJwt(bearer.value, secret, now, codec);
      if v.err.Some? then BadToken(v.err.value) else Authenticated(v.value)
  }

  /**
   * The decoded JSON body of the user endpoints. A handler receives it as an
   * Option: None when the decoder failed.
   */
  datatype Credentials = Credentials(email: string, password: string)

  /** The decoded body of the payment webhook: the event name and data.user_id. */
  datatype UpgradeEvent = UpgradeEvent(event: string, userId: string)

  /** url.Values.Get: the value of a query parameter, "" when it is absent. */
  function QueryGet(query: map<string, string>, key: string): (v: string)
    ensures key in query ==> v == query[key]
    ensures key !in query ==> v == ""
  {
    if key in query then query[key] else ""
  }
}
