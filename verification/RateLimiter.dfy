/**
 `RateLimiter.reserve` and `RateLimiter.release` as programs over the shared
 store: one command at a time, with everybody else working in between.
 */
module RateLimiter {
  import opened LimiterProtocol
  import opened LimiterLedger
  import opened Options
  import opened SharedStore

  /** Released at most once; a denied reservation's token is born released. */
  class ReservationToken {
    const req: Req
    var released: bool

    constructor (req: Req)
      ensures this.req == req && !released
    {
      this.req, released := req, false;
    }
  }

  /** What `reserve` answers when nobody else interferes. */
  function Verdict(s: State, req: Req): (bool, string) {
    match Check(s.lim, s.db, s.now, req, s.now.Floor)
    case Blocked(reason, _) => (false, "cred_" + reason)
    case Granted => SharedVerdict(s, req)
  }

  function SharedVerdict(s: State, req: Req): (bool, string) {
    if Full(ProviderCap(req.provider), Get(s.db.provider, req.provider)) then (false, "provider_active")
    else if req.HasJob() && Full(s.lim.maxJob, Get(s.db.job, req.job.value)) then (false, "job_active")
    else (true, "ok")
  }

  class RateLimiter {
    const store: Store

    constructor (store: Store)
      ensures this.store == store
    {
      this.store := store;
    }

    /** A job over its limit: the credential's charge and the provider's slot go back. */
    method RollBack(req: Req, token: ReservationToken)
      requires store.Valid() && store.Pc().SawJob? && store.Pc().req == req && req.HasJob()
      requires Full(store.s.lim.maxJob, store.Pc().seen) && req.cred == store.account && store.charged == 0
      modifies store`s, store`circuits, store`schedule, store`traffic, store`latest, store`charged, token
      ensures store.Valid() && store.charged == 0 && token.released && store.s.now >= old(store.s.now)
      ensures store.Pc() == Idle
    {
      hide Refund, Bump, Reachable, Store.Sound, Store.Heard;
      var _ := store.RunRelease(req, 0);
      var _ := store.AddProvider(req.provider, -1);
      token.released := true;
    }

    /** Step 3 of `reserve`: the job slot, or everything back. */
    method ReserveJob(req: Req, token: ReservationToken) returns (allowed: bool)
      requires store.Valid() && store.Pc() == GotProvider(req) && req.HasJob() && token.req == req && !token.released
      requires req.cred == store.account && store.charged == 0
      modifies store`s, store`circuits, store`schedule, store`traffic, store`latest, store`charged, token
      ensures store.Valid() && store.charged == 0 && token.released == !allowed && store.s.now >= old(store.s.now)
      ensures store.Pc() == if allowed then Held(req) else Idle
      ensures store.alone ==> allowed == !Full(old(store.s).lim.maxJob, Get(old(store.s).db.job, req.job.value))
    {
      hide Share, Total, Reachable, Refund, Bump, Store.Sound, Store.Heard;
      var curJob, _ := store.GetJob(req.job.value);
      if store.s.lim.maxJob > 0 && curJob >= store.s.lim.maxJob {
        RollBack(req, token);
        return false;
      }
      var _ := store.AddJob(req.job.value, 1);
      return true;
    }

    /** Steps 2 and 3: the credential is charged, the shared slots are not yet. */
    method ReserveShared(req: Req, token: ReservationToken) returns (allowed: bool, reason: string)
      requires store.Valid() && store.Pc() == GotCred(req) && token.req == req && !token.released
      requires req.cred == store.account && store.charged == 0
      modifies store`s, store`circuits, store`schedule, store`traffic, store`latest, store`charged, token
      ensures store.Valid() && store.charged == 0 && token.released == !allowed && store.s.now >= old(store.s.now)
      ensures store.Pc() == if allowed then Held(req) else Idle
      ensures store.alone ==> (allowed, reason) == SharedVerdict(old(store.s), req)
    {
      hide Share, Total, Reachable, Refund, Bump, Store.Sound, Store.Heard;
      var curProvider, _ := store.GetProvider(req.provider);
      if ProviderCap(req.provider) > 0 && curProvider >= ProviderCap(req.provider) {
        var _ := store.RunRelease(req, 0);
        token.released := true;
        return false, "provider_active";
      }
      var _ := store.AddProvider(req.provider, 1);
      if req.HasJob() {
        allowed := ReserveJob(req, token);
        return allowed, if allowed then "ok" else "job_active";
      }
      return true, "ok";
    }

    /** The whole of `reserve`: allowed exactly when this caller now holds the reservation.  `blockedBy` is the
        script's third value when a cooldown denied it; the source drops it. */
    method Reserve(req: Req) returns (allowed: bool, reason: string, token: ReservationToken, blockedBy: Option<int>)
      requires store.Valid() && store.Pc().Idle? && req.cred == store.account && store.charged == 0
      modifies store`s, store`circuits, store`schedule, store`traffic, store`latest, store`charged, store`journal
      ensures store.Valid() && store.charged == 0
      ensures fresh(token) && token.req == req && token.released == !allowed
      ensures store.Pc() == if allowed then Held(req) else Idle
      ensures store.journal == old(store.journal) + [Reserved(allowed)]
      ensures store.s.now >= old(store.s.now)
      ensures store.alone ==> (allowed, reason) == Verdict(old(store.s), req)
      ensures blockedBy.Some? ==> !allowed && reason == "cred_cooldown" && blockedBy.value > old(store.s.now).Floor
      ensures store.alone && blockedBy.Some? ==>
                && store.s.now == old(store.s.now) && store.s.db == old(store.s.db)
                && blockedBy == GetCooldown(store.s.db, req.cred, store.s.now)
    {
      hide Reachable, Store.Sound, Store.Heard;
      blockedBy := None;
      token := new ReservationToken(req);
      var now := store.s.now.Floor;
      var reply, _ := store.RunReserve(req, now);
      if reply.Blocked? {
        token.released := true;
        allowed, reason := false, "cred_" + reply.reason;
        blockedBy := if ByCooldown(reply) then Some(reply.value) else None;
      } else {
        allowed, reason := ReserveShared(req, token);
      }
      store.Note(Reserved(allowed));
    }

    method ReleaseJob(req: Req)
      requires store.Valid() && store.Pc() == GaveProvider(req) && req.HasJob()
      modifies store`s, store`circuits, store`schedule, store`traffic, store`latest, store`charged
      ensures store.Valid() && store.Pc().Idle? && store.charged == old(store.charged)
              && store.s.now >= old(store.s.now)
    {
      var cur, _ := store.GetJob(req.job.value);
      store.AtHand("");
      ReachableLedger(store.s);
      GuardsAlwaysPass(store.s, store.me);
      if cur > 0 {
        var _ := store.AddJob(req.job.value, -1);
      }
    }

    /** The shared slots go back after the release script. */
    method ReleaseShared(req: Req)
      requires store.Valid() && store.Pc() == GaveCred(req)
      modifies store`s, store`circuits, store`schedule, store`traffic, store`latest, store`charged
      ensures store.Valid() && store.Pc().Idle? && store.charged == old(store.charged)
              && store.s.now >= old(store.s.now)
    {
      var cur, _ := store.GetProvider(req.provider);
      store.AtHand("");
      ReachableLedger(store.s);
      GuardsAlwaysPass(store.s, store.me);
      if cur > 0 {
        var _ := store.AddProvider(req.provider, -1);
      }
      if req.HasJob() {
        ReleaseJob(req);
      }
    }

    /** The whole of `release`: a token already released is left alone, any other gives back all it holds. */
    method Release(token: ReservationToken, actual: nat)
      requires store.Valid() && (!token.released ==> store.Pc() == Held(token.req))
      requires token.req.cred == store.account && (!token.released ==> store.charged == 0)
      modifies store`s, store`circuits, store`schedule, store`traffic, store`latest, store`charged, store`journal, token
      ensures store.Valid() && token.released && store.s.now >= old(store.s.now)
      ensures old(token.released) ==>
                && store.s == old(store.s) && store.journal == old(store.journal)
                    && store.circuits == old(store.circuits)
                && store.schedule == old(store.schedule) && store.charged == old(store.charged)
      ensures !old(token.released) ==>
                store.Pc().Idle? && store.journal == old(store.journal) + [GaveBack(actual)] && store.charged == actual
    {
      if token.released {
        return;
      }
      token.released := true;
      var _ := store.RunRelease(token.req, actual);
      ReleaseShared(token.req);
      store.Note(GaveBack(actual));
    }
  }
}
