/**
 * The database package, abstract: the rows the handlers read and write and
 * the twelve queries they call, each as a method on the store with the
 * outcome the schema's constraints give it. Every query takes `fault`, which
 * says whether the call fails for a reason outside the data (connection
 * lost, context cancelled); the store then is left as it was.
 */
module Store {
  import opened Wrappers
  import opened Uuids

  datatype UserRow = UserRow(id: Uuid, createdAt: int, updatedAt: int, email: string, hashedPassword: string, isChirpyRed: bool)

  datatype Chirp = Chirp(id: Uuid, createdAt: int, updatedAt: int, body: string, userId: Uuid)

  datatype RefreshTokenRow = RefreshTokenRow(token: string, createdAt: int, updatedAt: int, userId: Uuid, expiresAt: int, revokedAt: Option<int>)

  /** The queries, by the names the handlers call them with. */
  datatype Query =
    | CreateUserQ
    | GetUserUsingEmailQ
    | UpdateUserPassEmailQ
    | UpgradeToChirpyRedQ
    | ResetUsersQ
    | CreateChirpQ
    | GetChirpsQ
    | GetChirpsByIDQ
    | DeleteChirpsByIDQ
    | CreateRefreshTokenQ
    | GetUserFromRefreshTokenQ
    | RevokeTokenQ

  datatype DbError = Unavailable | NoRows | UniqueViolation | ForeignKeyViolation

  /** err.Error() of a query error; the driver's exact wording is not reproduced. */
  function DbMessage(e: DbError): string {
    match e
    case Unavailable => "driver: bad connection"
    case NoRows => "sql: no rows in result set"
    case UniqueViolation => "pq: duplicate key value violates unique constraint"
    case ForeignKeyViolation => "pq: insert or update violates foreign key constraint"
  }

  /** No user other than `except` has the address `email`. */
  ghost predicate EmailFree(users: map<Uuid, UserRow>, email: string, except: Option<Uuid>) {
    forall id | id in users && Some(id) != except :: users[id].email != email
  }

  /** The user registered under `email`, if any (there is at most one in a valid store). */
  ghost function UserWithEmail(users: map<Uuid, UserRow>, email: string): (r: Option<UserRow>)
    ensures r.Some? <==> exists id :: id in users && users[id].email == email
    ensures r.Some? ==> exists id :: id in users && users[id] == r.value && r.value.email == email
  {
    if exists id :: id in users && users[id].email == email then
      var id :| id in users && users[id].email == email;
      Some(users[id])
    else
      None
  }

  /** A refresh token that still grants access at `now`. */
  predicate Usable(t: RefreshTokenRow, now: int) {
    t.revokedAt.None? && now < t.expiresAt
  }

  /** No chirp occurs twice in a listing. */
  ghost predicate Unique(s: seq<Chirp>) {
    forall c :: multiset(s)[c] <= 1
  }

  class Database {
    var users: map<Uuid, UserRow>
    var chirps: map<Uuid, Chirp>
    var refreshTokens: map<string, RefreshTokenRow>

    /**
     * The schema's constraints: rows are keyed by their primary key, emails
     * are unique, chirps and refresh tokens reference an existing user.
     */
    ghost predicate Valid()
      reads this
    {
      && (forall id | id in users :: users[id].id == id)
      && (forall a, b | a in users && b in users && a != b :: users[a].email != users[b].email)
      && (forall id | id in chirps :: chirps[id].id == id && chirps[id].userId in users)
      && (forall t | t in refreshTokens :: refreshTokens[t].token == t && refreshTokens[t].userId in users)
    }

    /** An empty database. */
    constructor ()
      ensures Valid()
      ensures users == map[] && chirps == map[] && refreshTokens == map[]
    {
      users := map[];
      chirps := map[];
      refreshTokens := map[];
    }

    /** CreateUser: a fresh row, refused when the id or the email is taken. */
    method CreateUser(fault: bool, newId: Uuid, now: int, email: string, hashedPassword: string)
      returns (r: Result<UserRow, DbError>)
      requires Valid()
      modifies this
      ensures Valid()
      ensures r.Success? <==> !fault && newId !in old(users) && EmailFree(old(users), email, None)
      ensures r.Success? ==> r.value == UserRow(newId, now, now, email, hashedPassword, false)
      ensures r.Success? ==> users == old(users)[newId := r.value]
      ensures r.Failure? ==> users == old(users)
      ensures chirps == old(chirps) && refreshTokens == old(refreshTokens)
    {
      if fault {
        return Failure(Unavailable);
      }
      if newId in users {
        return Failure(UniqueViolation);
      }
      var free := EmailFreeNow(email, None);
      if !free {
        return Failure(UniqueViolation);
      }
      r := Success(UserRow(newId, now, now, email, hashedPassword, false));
      users := users[newId := r.value];
    }

    /** Whether no stored user but `except` has `email`, computed over the rows. */
    method EmailFreeNow(email: string, except: Option<Uuid>) returns (free: bool)
      ensures free <==> EmailFree(users, email, except)
    {
      var rest := users.Keys;
      free := true;
      while rest != {}
        invariant rest <= users.Keys
        invariant free <==> forall id | id in users && id !in rest && Some(id) != except :: users[id].email != email
        decreases rest
      {
        var id :| id in rest;
        if Some(id) != except && users[id].email == email {
          free := false;
        }
        rest := rest - {id};
      }
    }

    /** GetUserUsingEmail: the user with that address, NoRows when there is none. */
    method GetUserUsingEmail(fault: bool, email: string) returns (r: Result<UserRow, DbError>)
      requires Valid()
      ensures r.Success? <==> !fault && UserWithEmail(users, email).Some?
      ensures r.Success? ==> r == Success(UserWithEmail(users, email).value)
    {
      if fault {
        return Failure(Unavailable);
      }
      var free := EmailFreeNow(email, None);
      if free {
        return Failure(NoRows);
      }
      var id :| id in users && users[id].email == email;
      return Success(users[id]);
    }

    /** UpdateUserPassEmail: new email and hash for an existing user. */
    method UpdateUserPassEmail(fault: bool, now: int, id: Uuid, email: string, hashedPassword: string)
      returns (r: Result<UserRow, DbError>)
      requires Valid()
      modifies this
      ensures Valid()
      ensures r.Success? <==> !fault && id in old(users) && EmailFree(old(users), email, Some(id))
      ensures r.Success? ==> r.value == old(users)[id].(email := email, hashedPassword := hashedPassword, updatedAt := now)
      ensures r.Success? ==> users == old(users)[id := r.value]
      ensures r.Failure? ==> users == old(users)
      ensures chirps == old(chirps) && refreshTokens == old(refreshTokens)
    {
      if fault {
        return Failure(Unavailable);
      }
      if id !in users {
        return Failure(NoRows);
      }
      var free := EmailFreeNow(email, Some(id));
      if !free {
        return Failure(UniqueViolation);
      }
      r := Success(users[id].(email := email, hashedPassword := hashedPassword, updatedAt := now));
      users := users[id := r.value];
    }

    /** UpgradeToChirpyRed: sets the paid flag of an existing user. */
    method UpgradeToChirpyRed(fault: bool, now: int, id: Uuid) returns (r: Result<UserRow, DbError>)
      requires Valid()
      modifies this
      ensures Valid()
      ensures r.Success? <==> !fault && id in old(users)
      ensures r.Success? ==> r.value == old(users)[id].(isChirpyRed := true, updatedAt := now)
      ensures r.Success? ==> users == old(users)[id := r.value]
      ensures r.Failure? ==> users == old(users)
      ensures chirps == old(chirps) && refreshTokens == old(refreshTokens)
    {
      if fault {
        return Failure(Unavailable);
      }
      if id !in users {
        return Failure(NoRows);
      }
      r := Success(users[id].(isChirpyRed := true, updatedAt := now));
      users := users[id := r.value];
    }

    /** ResetUsers: deletes every user; chirps and refresh tokens go with them. */
    method ResetUsers(fault: bool) returns (r: Result<(), DbError>)
      requires Valid()
      modifies this
      ensures Valid()
      ensures r.Success? <==> !fault
      ensures r.Success? ==> users == map[] && chirps == map[] && refreshTokens == map[]
      ensures r.Failure? ==> users == old(users) && chirps == old(chirps) && refreshTokens == old(refreshTokens)
    {
      if fault {
        return Failure(Unavailable);
      }
      users := map[];
      chirps := map[];
      refreshTokens := map[];
      return Success(());
    }

    /** CreateChirp: a fresh chirp by an existing user. */
    method CreateChirp(fault: bool, newId: Uuid, now: int, body: string, userId: Uuid) returns (r: Result<Chirp, DbError>)
      requires Valid()
      modifies this
      ensures Valid()
      ensures r.Success? <==> !fault && newId !in old(chirps) && userId in old(users)
      ensures r.Success? ==> r.value == Chirp(newId, now, now, body, userId)
      ensures r.Success? ==> chirps == old(chirps)[newId := r.value]
      ensures r.Failure? ==> chirps == old(chirps)
      ensures users == old(users) && refreshTokens == old(refreshTokens)
    {
      if fault {
        return Failure(Unavailable);
      }
      if newId in chirps {
        return Failure(UniqueViolation);
      }
      if userId !in users {
        return Failure(ForeignKeyViolation);
      }
      r := Success(Chirp(newId, now, now, body, userId));
      chirps := chirps[newId := r.value];
    }

    /** GetChirps: every stored chirp once, in an order the query leaves open. */
    method GetChirps(fault: bool) returns (r: Result<seq<Chirp>, DbError>)
      requires Valid()
      ensures r.Success? <==> !fault
      ensures r.Success? ==> forall c :: c in r.value <==> c.id in chirps && chirps[c.id] == c
      ensures r.Success? ==> Unique(r.value)
    {
      if fault {
        return Failure(Unavailable);
      }
      var rest := chirps.Keys;
      var s: seq<Chirp> := [];
      while rest != {}
        invariant rest <= chirps.Keys
        invariant forall c :: c in s <==> c.id in chirps && c.id !in rest && chirps[c.id] == c
        invariant Unique(s)
        decreases rest
      {
        var id :| id in rest;
        var c := chirps[id];
        assert c !in s;
        assert forall d :: multiset(s + [c])[d] == multiset(s)[d] + (if d == c then 1 else 0);
        s := s + [c];
        rest := rest - {id};
      }
      return Success(s);
    }

    /** GetChirpsByID: the chirp with that id, NoRows when there is none. */
    method GetChirpsByID(fault: bool, id: Uuid) returns (r: Result<Chirp, DbError>)
      requires Valid()
      ensures r.Success? <==> !fault && id in chirps
      ensures r.Success? ==> r.value == chirps[id]
    {
      if fault {
        return Failure(Unavailable);
      }
      if id !in chirps {
        return Failure(NoRows);
      }
      return Success(chirps[id]);
    }

    /** DeleteChirpsByID: removes the chirp with that id; deleting nothing is no error. */
    method DeleteChirpsByID(fault: bool, id: Uuid) returns (r: Result<(), DbError>)
      requires Valid()
      modifies this
      ensures Valid()
      ensures r.Success? <==> !fault
      ensures r.Success? ==> chirps == old(chirps) - {id}
      ensures r.Failure? ==> chirps == old(chirps)
      ensures users == old(users) && refreshTokens == old(refreshTokens)
    {
      if fault {
        return Failure(Unavailable);
      }
      chirps := chirps - {id};
      return Success(());
    }

    /** CreateRefreshToken: stores a new token for an existing user. */
    method CreateRefreshToken(fault: bool, now: int, token: string, userId: Uuid, expiresAt: int)
      returns (r: Result<RefreshTokenRow, DbError>)
      requires Valid()
      modifies this
      ensures Valid()
      ensures r.Success? <==> !fault && token !in old(refreshTokens) && userId in old(users)
      ensures r.Success? ==> r.value == RefreshTokenRow(token, now, now, userId, expiresAt, None)
      ensures r.Success? ==> refreshTokens == old(refreshTokens)[token := r.value]
      ensures r.Failure? ==> refreshTokens == old(refreshTokens)
      ensures users == old(users) && chirps == old(chirps)
    {
      if fault {
        return Failure(Unavailable);
      }
      if token in refreshTokens {
        return Failure(UniqueViolation);
      }
      if userId !in users {
        return Failure(ForeignKeyViolation);
      }
      r := Success(RefreshTokenRow(token, now, now, userId, expiresAt, None));
      refreshTokens := refreshTokens[token := r.value];
    }

    /** GetUserFromRefreshToken: the owner of a known, unrevoked, unexpired token. */
    method GetUserFromRefreshToken(fault: bool, now: int, token: string) returns (r: Result<UserRow, DbError>)
      requires Valid()
      ensures r.Success? <==> !fault && token in refreshTokens && Usable(refreshTokens[token], now)
      ensures r.Success? ==> r.value == users[refreshTokens[token].userId]
    {
      if fault {
        return Failure(Unavailable);
      }
      if token !in refreshTokens || !Usable(refreshTokens[token], now) {
        return Failure(NoRows);
      }
      return Success(users[refreshTokens[token].userId]);
    }

    /** RevokeToken: stamps a known token as revoked now. */
    method RevokeToken(fault: bool, now: int, token: string) returns (r: Result<RefreshTokenRow, DbError>)
      requires Valid()
      modifies this
      ensures Valid()
      ensures r.Success? <==> !fault && token in old(refreshTokens)
      ensures r.Success? ==> r.value == old(refreshTokens)[token].(revokedAt := Some(now), updatedAt := now)
      ensures r.Success? ==> refreshTokens == old(refreshTokens)[token := r.value]
      ensures r.Failure? ==> refreshTokens == old(refreshTokens)
      ensures users == old(users) && chirps == old(chirps)
    {
      if fault {
        return Failure(Unavailable);
      }
      if token !in refreshTokens {
        return Failure(NoRows);
      }
      r := Success(refreshTokens[token].(revokedAt := Some(now), updatedAt := now));
      refreshTokens := refreshTokens[token := r.value];
    }
  }
}
