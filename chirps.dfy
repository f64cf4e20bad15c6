/**
 * chirps.go: posting, listing, reading and deleting chirps, and the payment
 * provider's webhook that upgrades a user to Chirpy Red.
 */
module Chirps {
  import opened Wrappers
  import opened Strings
  import opened Uuids
  import Auth
  import opened Store
  import opened Http
  import opened Server
  import opened Moderation

  const MaxChirpLen := 140

  // ---------------------------------------------------------------------
  // POST /api/chirps
  // ---------------------------------------------------------------------

  /**
   * createChirpHandler. `body` is the decoded {"body": ...}, None when the
   * request body did not decode. The length limit is on len(), the number
   * of UTF-8 bytes, and is checked before moderation.
   */
  method CreateChirpHandler(cfg: ApiConfig, env: Env, authorization: string, body: Option<string>) returns (r: Response)
    requires cfg.db.Valid()
    modifies cfg.db
    ensures cfg.db.Valid()
    ensures cfg.db.users == old(cfg.db.users) && cfg.db.refreshTokens == old(cfg.db.refreshTokens)
    ensures body.None? ==> r == RespondWithError(StatusInternalServerError, "Something went wrong")
    ensures var a := Authenticate(authorization, cfg.secret, env.now, env.jwt);
      && (body.Some? && !a.Authenticated? ==> r == RespondWithError(StatusUnauthorized, Auth.Message(a.err)))
      && (body.Some? && a.Authenticated? && (body.value == "" || a.userId == Nil) ==>
            r == RespondWithError(StatusBadRequest, "userid or body was left empty"))
      && (body.Some? && a.Authenticated? && body.value != "" && a.userId != Nil && Utf8Len(body.value) > MaxChirpLen ==>
            r == RespondWithError(StatusBadRequest, "Chirp is too long"))
      && (r.status == StatusCreated <==>
            && body.Some? && a.Authenticated? && body.value != "" && a.userId != Nil
            && Utf8Len(body.value) <= MaxChirpLen
            && CreateChirpQ !in env.faults && env.newId !in old(cfg.db.chirps) && a.userId in old(cfg.db.users))
      && (body.Some? && a.Authenticated? && body.value != "" && a.userId != Nil && Utf8Len(body.value) <= MaxChirpLen
          && r.status != StatusCreated ==>
            r == RespondWithError(StatusInternalServerError, "Something went wrong when creating chirp"))
      && (r.status == StatusCreated ==>
            var c := Chirp(env.newId, env.now, env.now, Moderate(body.value), a.userId);
            r.body == ChirpJson(c) && cfg.db.chirps == old(cfg.db.chirps)[env.newId := c])
    ensures r.status == StatusCreated ==> Utf8Len(r.body.chirp.body) <= MaxChirpLen
    ensures r.status != StatusCreated ==> cfg.db.chirps == old(cfg.db.chirps)
    ensures r.status in {StatusCreated, StatusBadRequest, StatusUnauthorized, StatusInternalServerError}
  {
    if body.None? {
      return RespondWithError(StatusInternalServerError, "Something went wrong");
    }
    var params := new Parameters(body.value);
    ghost var a := Authenticate(authorization, cfg.secret, env.now, env.jwt);
    var unverifiedToken := Auth.GetBearerToken(authorization);
    if unverifiedToken.err.Some? {
      assert a == NoBearer(unverifiedToken.err.value);
      return RespondWithError(StatusUnauthorized, Auth.Message(unverifiedToken.err.value));
    }
    var userId := Auth.ValidateJwt(unverifiedToken.value, cfg.secret, env.now, env.jwt);
    if userId.err.Some? {
      assert a == BadToken(userId.err.value);
      return RespondWithError(StatusUnauthorized, Auth.Message(userId.err.value));
    }
    assert a == Authenticated(userId.value);
    if params.body == "" || userId.value == Nil {
      return RespondWithError(StatusBadRequest, "userid or body was left empty");
    }
    if Utf8Len(params.body) > MaxChirpLen {
      return RespondWithError(StatusBadRequest, "Chirp is too long");
    }
    CleanUpBadWords(params);
    ModerateNoLonger(body.value);
    var chirp := cfg.db.CreateChirp(CreateChirpQ in env.faults, env.newId, env.now, params.body, userId.value);
    if chirp.Failure? {
      return RespondWithError(StatusInternalServerError, "Something went wrong when creating chirp");
    }
    return Response(StatusCreated, ChirpJson(chirp.value));
  }

  // ---------------------------------------------------------------------
  // GET /api/chirps
  // ---------------------------------------------------------------------

  /** Whether a chirp passes the author filter; uuid.Nil means no filter. */
  predicate Matches(c: Chirp, author: Uuid) {
    author == Nil || c.userId == author
  }

  /** The chirps of `s` that pass the author filter, in their order. */
  function ByAuthor(s: seq<Chirp>, author: Uuid): (r: seq<Chirp>)
    ensures |r| <= |s|
    ensures author == Nil ==> r == s
  {
    if s == [] then []
    else ByAuthor(s[..|s| - 1], author) + (if Matches(s[|s| - 1], author) then [s[|s| - 1]] else [])
  }

  /** The filter keeps exactly the chirps by the author. */
  lemma {:induction false} ByAuthorMembers(s: seq<Chirp>, author: Uuid)
    ensures forall c :: c in ByAuthor(s, author) <==> c in s && Matches(c, author)
  {
    if s != [] {
      ByAuthorMembers(s[..|s| - 1], author);
      assert s == s[..|s| - 1] + [s[|s| - 1]];
    }
  }

  /** The filter adds no chirp and no copy of one. */
  lemma {:induction false} ByAuthorSubMultiset(s: seq<Chirp>, author: Uuid)
    ensures multiset(ByAuthor(s, author)) <= multiset(s)
  {
    if s != [] {
      ByAuthorSubMultiset(s[..|s| - 1], author);
      assert s == s[..|s| - 1] + [s[|s| - 1]];
    }
  }

  /** The loop that copies the chirps passing the author filter into the response slice. */
  method FilterByAuthor(s: seq<Chirp>, author: Uuid) returns (out: seq<Chirp>)
    ensures out == ByAuthor(s, author)
  {
    out := [];
    for i := 0 to |s|
      invariant out == ByAuthor(s[..i], author)
    {
      assert s[..i + 1][..i] == s[..i];
      if author != Nil && s[i].userId != author {
        continue;
      }
      out := out + [s[i]];
    }
    assert s[..|s|] == s;
  }

  /** The order sort=desc asks for (newest first), otherwise oldest first. */
  predicate InOrder(x: Chirp, y: Chirp, desc: bool) {
    if desc then x.createdAt >= y.createdAt else x.createdAt <= y.createdAt
  }

  predicate Sorted(s: seq<Chirp>, desc: bool) {
    forall i, j | 0 <= i < j < |s| :: InOrder(s[i], s[j], desc)
  }

  /**
   * sort.Slice on the response slice, by created_at. Go's algorithm is not
   * reproduced (an insertion sort stands in for it); like sort.Slice, it
   * promises an ordered permutation and nothing about ties.
   */
  method SortChirps(a: array<Chirp>, desc: bool)
    modifies a
    ensures Sorted(a[..], desc)
    ensures multiset(a[..]) == multiset(old(a[..]))
  {
    var i := 0;
    while i < a.Length
      invariant 0 <= i <= a.Length
      invariant Sorted(a[..i], desc)
      invariant multiset(a[..]) == multiset(old(a[..]))
    {
      SinkLast(a, i, desc);
      i := i + 1;
    }
    assert a[..a.Length] == a[..];
  }

  /** One insertion step: a[i] moves left past the elements it must precede. */
  method SinkLast(a: array<Chirp>, i: int, desc: bool)
    requires 0 <= i < a.Length
    requires Sorted(a[..i], desc)
    modifies a
    ensures Sorted(a[..i + 1], desc)
    ensures multiset(a[..]) == multiset(old(a[..]))
  {
    var j := i;
    while j > 0 && !InOrder(a[j - 1], a[j], desc)
      invariant 0 <= j <= i
      invariant SortedBut(a[..], i, j, desc)
      invariant PrecedesRest(a[..], i, j, desc)
      invariant multiset(a[..]) == multiset(old(a[..]))
    {
      ghost var s := a[..];
      a[j - 1], a[j] := a[j], a[j - 1];
      assert a[..] == s[j - 1 := s[j]][j := s[j - 1]];
      SwapStep(s, a[..], i, j, desc);
      j := j - 1;
    }
    SinkDone(a[..], i, j, desc);
  }

  /** The first i + 1 elements are in order, leaving out the one at j. */
  ghost predicate SortedBut(s: seq<Chirp>, i: int, j: int, desc: bool)
    requires 0 <= j <= i < |s|
  {
    forall p, q | 0 <= p < q <= i && p != j && q != j :: InOrder(s[p], s[q], desc)
  }

  /** The element at j may stand before every element after it, up to i. */
  ghost predicate PrecedesRest(s: seq<Chirp>, i: int, j: int, desc: bool)
    requires 0 <= j <= i < |s|
  {
    forall q | j < q <= i :: InOrder(s[j], s[q], desc)
  }

  /** Swapping an out-of-order neighbour keeps both loop invariants, one place to the left. */
  lemma SwapStep(s: seq<Chirp>, t: seq<Chirp>, i: int, j: int, desc: bool)
    requires 0 < j <= i < |s|
    requires t == s[j - 1 := s[j]][j := s[j - 1]]
    requires !InOrder(s[j - 1], s[j], desc)
    requires SortedBut(s, i, j, desc) && PrecedesRest(s, i, j, desc)
    ensures SortedBut(t, i, j - 1, desc) && PrecedesRest(t, i, j - 1, desc)
  {
    forall p, q | 0 <= p < q <= i && p != j - 1 && q != j - 1
      ensures InOrder(t[p], t[q], desc)
    {
      if q == j {
        assert InOrder(s[p], s[j - 1], desc);
      } else if p == j {
        assert InOrder(s[j - 1], s[q], desc);
      } else {
        assert InOrder(s[p], s[q], desc);
      }
    }
  }

  /** When a[j] stops moving, the prefix up to i is sorted. */
  lemma SinkDone(s: seq<Chirp>, i: int, j: int, desc: bool)
    requires 0 <= j <= i < |s|
    requires SortedBut(s, i, j, desc) && PrecedesRest(s, i, j, desc)
    requires j > 0 ==> InOrder(s[j - 1], s[j], desc)
    ensures Sorted(s[..i + 1], desc)
  {
    forall p, q | 0 <= p < q <= i
      ensures InOrder(s[p], s[q], desc)
    {
      if q == j && p < j - 1 {
        assert InOrder(s[p], s[j - 1], desc);
      }
    }
  }

  /** The author filter the query asks for: Nil when absent, None when it is no UUID. */
  function AuthorFilter(query: map<string, string>): (r: Option<Uuid>)
    ensures "author_id" !in query ==> r == Some(Nil)
    ensures r.Some? && r.value != Nil ==> "author_id" in query && ParseUuid(query["author_id"]) == r
  {
    var s := QueryGet(query, "author_id");
    if s == "" then Some(Nil) else ParseUuid(s)
  }

  /** A client that sends an author's id in its canonical form gets that author's filter. */
  lemma AuthorFilterOfUuid(query: map<string, string>, u: Uuid)
    requires "author_id" in query && query["author_id"] == UuidString(u)
    ensures AuthorFilter(query) == Some(u)
  {
    UuidStringParses(u);
  }

  /**
   * getChirpsHandler. The store is read before the query is looked at, so a
   * failing store wins over a bad author_id.
   */
  method GetChirpsHandler(cfg: ApiConfig, env: Env, query: map<string, string>) returns (r: Response)
    requires cfg.db.Valid()
    ensures GetChirpsQ in env.faults ==> r == RespondWithError(StatusInternalServerError, "Couldn't retrieve chirps")
    ensures GetChirpsQ !in env.faults && AuthorFilter(query).None? ==> r == RespondWithError(StatusBadRequest, "Invalid author ID")
    ensures r.status == StatusOK <==> GetChirpsQ !in env.faults && AuthorFilter(query).Some?
    ensures r.status == StatusOK ==>
      && r.body.ChirpListJson?
      && var author := AuthorFilter(query).value;
      && (forall c :: c in r.body.chirps <==> c.id in cfg.db.chirps && cfg.db.chirps[c.id] == c && Matches(c, author))
      && Unique(r.body.chirps)
      && Sorted(r.body.chirps, QueryGet(query, "sort") == "desc")
  {
    var dbChirps := cfg.db.GetChirps(GetChirpsQ in env.faults);
    if dbChirps.Failure? {
      return RespondWithError(StatusInternalServerError, "Couldn't retrieve chirps");
    }
    var authorId := Nil;
    var authorIdString := QueryGet(query, "author_id");
    if authorIdString != "" {
      var parsed := ParseUuid(authorIdString);
      if parsed.None? {
        return RespondWithError(StatusBadRequest, "Invalid author ID");
      }
      authorId := parsed.value;
    }
    var sortOrder := QueryGet(query, "sort");
    var chirps := FilterByAuthor(dbChirps.value, authorId);
    var a := new Chirp[|chirps|](i requires 0 <= i < |chirps| => chirps[i]);
    assert a[..] == chirps;
    SortChirps(a, sortOrder == "desc");
    ByAuthorMembers(dbChirps.value, authorId);
    ByAuthorSubMultiset(dbChirps.value, authorId);
    assert forall c :: c in a[..] <==> c in chirps by {
      forall c ensures c in a[..] <==> c in chirps {
        assert c in a[..] <==> c in multiset(a[..]);
        assert c in chirps <==> c in multiset(chirps);
      }
    }
    return Response(StatusOK, ChirpListJson(a[..]));
  }

  // ---------------------------------------------------------------------
  // GET /api/chirps/{chirpID}
  // ---------------------------------------------------------------------

  /** getChirpsByIDHandler: every store error, missing row or not, answers 404. */
  method GetChirpsByIDHandler(cfg: ApiConfig, env: Env, chirpId: string) returns (r: Response)
    requires cfg.db.Valid()
    ensures ParseUuid(chirpId).None? ==> r == RespondWithError(StatusBadRequest, "Invalid chirp Id")
    ensures ParseUuid(chirpId).Some? ==>
      var id := ParseUuid(chirpId).value;
      && (r.status == StatusOK <==> GetChirpsByIDQ !in env.faults && id in cfg.db.chirps)
      && (r.status == StatusOK ==> r.body == ChirpJson(cfg.db.chirps[id]))
      && (r.status != StatusOK ==>
            r == RespondWithError(StatusNotFound, "Something went wrong when retrieving the chirp by id"))
  {
    var chirpID := ParseUuid(chirpId);
    if chirpID.None? {
      return RespondWithError(StatusBadRequest, "Invalid chirp Id");
    }
    var chirp := cfg.db.GetChirpsByID(GetChirpsByIDQ in env.faults, chirpID.value);
    if chirp.Failure? {
      return RespondWithError(StatusNotFound, "Something went wrong when retrieving the chirp by id");
    }
    return Response(StatusOK, ChirpJson(chirp.value));
  }

  // ---------------------------------------------------------------------
  // DELETE /api/chirps/{chirpID}
  // ---------------------------------------------------------------------

  /** deleteChirpHandler: only the author of a chirp can delete it. */
  method DeleteChirpHandler(cfg: ApiConfig, env: Env, authorization: string, chirpId: string) returns (r: Response)
    requires cfg.db.Valid()
    modifies cfg.db
    ensures cfg.db.Valid()
    ensures cfg.db.users == old(cfg.db.users) && cfg.db.refreshTokens == old(cfg.db.refreshTokens)
    ensures var a := Authenticate(authorization, cfg.secret, env.now, env.jwt);
      var id := ParseUuid(chirpId);
      && (a.NoBearer? ==> r == RespondWithError(StatusUnauthorized, "Access token is malformed or missing"))
      && (a.BadToken? ==> r == RespondWithError(StatusUnauthorized, "malformed / bad signature / expired token"))
      && (a.Authenticated? && id.None? ==> r == RespondWithError(StatusBadRequest, "Invalid chirp Id"))
      && (a.Authenticated? && id.Some? && (GetChirpsByIDQ in env.faults || id.value !in old(cfg.db.chirps)) ==>
            r == RespondWithError(StatusNotFound, "Something went wrong when retrieving the chirp by id (it might not exist)"))
      && (a.Authenticated? && id.Some? && GetChirpsByIDQ !in env.faults && id.value in old(cfg.db.chirps)
          && old(cfg.db.chirps)[id.value].userId != a.userId ==>
            r == RespondWithError(StatusForbidden, "Chirps can only be deleted by their creators"))
      && (r.status == StatusNoContent <==>
            && a.Authenticated? && id.Some? && GetChirpsByIDQ !in env.faults && id.value in old(cfg.db.chirps)
            && old(cfg.db.chirps)[id.value].userId == a.userId && DeleteChirpsByIDQ !in env.faults)
      && (a.Authenticated? && id.Some? && GetChirpsByIDQ !in env.faults && id.value in old(cfg.db.chirps)
          && old(cfg.db.chirps)[id.value].userId == a.userId && DeleteChirpsByIDQ in env.faults ==>
            r == RespondWithError(StatusInternalServerError, "Error deleting the users chirp"))
      && (r.status == StatusNoContent ==> r.body == Empty && cfg.db.chirps == old(cfg.db.chirps) - {id.value})
    ensures r.status != StatusNoContent ==> cfg.db.chirps == old(cfg.db.chirps)
    ensures r.status in {StatusNoContent, StatusBadRequest, StatusUnauthorized, StatusForbidden, StatusNotFound, StatusInternalServerError}
  {
    ghost var a := Authenticate(authorization, cfg.secret, env.now, env.jwt);
    var token := Auth.GetBearerToken(authorization);
    if token.err.Some? {
      assert a == NoBearer(token.err.value);
      return RespondWithError(StatusUnauthorized, "Access token is malformed or missing");
    }
    var userId := Auth.ValidateJwt(token.value, cfg.secret, env.now, env.jwt);
    if userId.err.Some? {
      assert a == BadToken(userId.err.value);
      return RespondWithError(StatusUnauthorized, "malformed / bad signature / expired token");
    }
    assert a == Authenticated(userId.value);
    var chirpID := ParseUuid(chirpId);
    if chirpID.None? {
      return RespondWithError(StatusBadRequest, "Invalid chirp Id");
    }
    var chirp := cfg.db.GetChirpsByID(GetChirpsByIDQ in env.faults, chirpID.value);
    if chirp.Failure? {
      return RespondWithError(StatusNotFound, "Something went wrong when retrieving the chirp by id (it might not exist)");
    }
    if chirp.value.userId != userId.value {
      return RespondWithError(StatusForbidden, "Chirps can only be deleted by their creators");
    }
    var deleted := cfg.db.DeleteChirpsByID(DeleteChirpsByIDQ in env.faults, chirpID.value);
    if deleted.Failure? {
      return RespondWithError(StatusInternalServerError, "Error deleting the users chirp");
    }
    return Response(StatusNoContent, Empty);
  }

  // ---------------------------------------------------------------------
  // POST /api/polka/webhooks
  // ---------------------------------------------------------------------

  const UserUpgraded := "user.upgraded"

  /**
   * addChirpyRedHandler. The key check comes before the body is decoded;
   * events other than user.upgraded are acknowledged and ignored.
   */
  method AddChirpyRedHandler(cfg: ApiConfig, env: Env, authorization: string, body: Option<UpgradeEvent>) returns (r: Response)
    requires cfg.db.Valid()
    modifies cfg.db
    ensures cfg.db.Valid()
    ensures cfg.db.chirps == old(cfg.db.chirps) && cfg.db.refreshTokens == old(cfg.db.refreshTokens)
    ensures var api := Auth.GetBearerApi(authorization);
      && (api.err.Some? ==> r == RespondWithError(StatusUnauthorized, "Api Key is malformed or missing"))
      && (api.err.None? && api.value != cfg.polkaApiKey ==>
            r == RespondWithError(StatusUnauthorized, "malformed / bad signature / expired api key"))
      && (api.err.None? && api.value == cfg.polkaApiKey && body.None? ==>
            r == RespondWithError(StatusInternalServerError, "Something went wrong"))
      && (api.err.None? && api.value == cfg.polkaApiKey && body.Some? && body.value.event != UserUpgraded ==>
            r == Response(StatusNoContent, Empty))
      && (api.err.None? && api.value == cfg.polkaApiKey && body.Some? && body.value.event == UserUpgraded ==>
            var id := ParseUuid(body.value.userId);
            && (id.None? ==> r == RespondWithError(StatusInternalServerError, "Error chaning the string userid to a uuid"))
            && (id.Some? && (UpgradeToChirpyRedQ in env.faults || id.value !in old(cfg.db.users)) ==>
                  r == Response(StatusNotFound, Empty))
            && (id.Some? && UpgradeToChirpyRedQ !in env.faults && id.value in old(cfg.db.users) ==>
                  r == Response(StatusNoContent, Empty)
                  && cfg.db.users == old(cfg.db.users)[id.value := old(cfg.db.users)[id.value].(isChirpyRed := true, updatedAt := env.now)]))
    ensures cfg.db.users != old(cfg.db.users) ==> r.status == StatusNoContent && body.Some? && body.value.event == UserUpgraded
  {
    var api := Auth.GetBearerApi(authorization);
    if api.err.Some? {
      return RespondWithError(StatusUnauthorized, "Api Key is malformed or missing");
    }
    if api.value != cfg.polkaApiKey {
      return RespondWithError(StatusUnauthorized, "malformed / bad signature / expired api key");
    }
    if body.None? {
      return RespondWithError(StatusInternalServerError, "Something went wrong");
    }
    if body.value.event != UserUpgraded {
      return Response(StatusNoContent, Empty);
    }
    var userId := ParseUuid(body.value.userId);
    if userId.None? {
      return RespondWithError(StatusInternalServerError, "Error chaning the string userid to a uuid");
    }
    var upgraded := cfg.db.UpgradeToChirpyRed(UpgradeToChirpyRedQ in env.faults, env.now, userId.value);
    if upgraded.Failure? {
      return Response(StatusNotFound, Empty);
    }
    return Response(StatusNoContent, Empty);
  }
}
