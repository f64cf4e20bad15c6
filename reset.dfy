/** reset.go: the admin reset of the visit counter and, on a dev platform, of the database. */
module Reset {
  import opened Wrappers
  import opened Store
  import opened Http
  import opened Server

  const DevPlatform := "dev"

  /**
   * requestResetHandler. The counter is zeroed first, so it stays zero even
   * when the database reset is then refused; outside the dev platform the
   * database is left alone and the answer is still 200.
   */
  method RequestResetHandler(cfg: ApiConfig, env: Env) returns (r: Response)
    requires cfg.db.Valid()
    modifies cfg`fileserverHits, cfg.db
    ensures cfg.db.Valid()
    ensures cfg.fileserverHits == 0
    ensures cfg.dev == DevPlatform && ResetUsersQ in env.faults ==>
      r == RespondWithError(StatusForbidden, "Can't reset the db with your permissions")
    ensures r.status == StatusOK <==> cfg.dev != DevPlatform || ResetUsersQ !in env.faults
    ensures r.status == StatusOK ==> r.body == Text("Hits reset to 0 and db reset")
    ensures cfg.dev == DevPlatform && r.status == StatusOK ==>
      cfg.db.users == map[] && cfg.db.chirps == map[] && cfg.db.refreshTokens == map[]
    ensures cfg.dev != DevPlatform || r.status != StatusOK ==>
      cfg.db.users == old(cfg.db.users) && cfg.db.chirps == old(cfg.db.chirps)
      && cfg.db.refreshTokens == old(cfg.db.refreshTokens)
  {
    cfg.fileserverHits := 0;
    if cfg.dev == DevPlatform {
      var reset := cfg.db.ResetUsers(ResetUsersQ in env.faults);
      if reset.Failure? {
        return RespondWithError(StatusForbidden, "Can't reset the db with your permissions");
      }
    }
    return Response(StatusOK, Text("Hits reset to 0 and db reset"));
  }
}
