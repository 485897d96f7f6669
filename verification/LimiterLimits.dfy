/**
 When a credential's limits let a caller in, written out, and that each of them
 can be used up.
 */
module LimiterLimits {
  import opened LimiterProtocol
  import opened LimiterLedger
  import opened LimiterWindow
  import opened Options

  // ---------------------------------------------------------------------------
  // Who gets in
  // ---------------------------------------------------------------------------

  /** A live cooldown of the credential lies after the caller's clock second. */
  predicate CoolingDown(s: State, c: string, stamp: int) {
    c in s.db.cooldown && s.now < s.db.cooldown[c].expires && s.db.cooldown[c].until > stamp
  }

  /** Requests of the credential in its open window. */
  function Requests(s: State, c: string): int {
    if c in s.db.rpm && s.now < s.db.rpm[c].expires then s.db.rpm[c].count else 0
  }

  function Tokens(s: State, c: string): int {
    if c in s.db.tpm then s.db.tpm[c] else 0
  }

  function Active(s: State, c: string): int {
    if c in s.db.active then s.db.active[c] else 0
  }

  /** An idle caller's reserve script grants exactly if no cooldown lies ahead and each limit that is set leaves room,
      for one more request, for the estimate and for one more call; otherwise it changes nothing. */
  lemma GrantedIff(s: State, k: nat, req: Req, stamp: int)
    requires k < |s.callers| && s.callers[k].pc.Idle? && stamp <= s.now.Floor
    ensures var r, c := Next(s, Reserve(k, req, stamp)), req.cred;
            && (r.callers[k].pc == GotCred(req) <==>
                  && !CoolingDown(s, c, stamp)
                  && (s.lim.maxRpm > 0 ==> Requests(s, c) < s.lim.maxRpm)
                  && (s.lim.maxTpm > 0 ==> Tokens(s, c) + req.est <= s.lim.maxTpm)
                  && (s.lim.maxActive > 0 ==> Active(s, c) < s.lim.maxActive))
            && (r.callers[k].pc != GotCred(req) ==> r == s)
  {
  }

  /** And what a denial says is the first of them that is in the way, with the value it found. */
  lemma FirstInTheWay(s: State, req: Req, stamp: int, reason: string, value: int)
    ensures var c := req.cred;
            var noCooldown := !CoolingDown(s, c, stamp);
            var inWindow := s.lim.maxRpm <= 0 || Requests(s, c) < s.lim.maxRpm;
            var inTokens := s.lim.maxTpm <= 0 || Tokens(s, c) + req.est <= s.lim.maxTpm;
            Check(s.lim, s.db, s.now, req, stamp) == Blocked(reason, value) <==>
              || (reason == "cooldown" && !noCooldown && value == s.db.cooldown[c].until)
              || (reason == "rpm" && noCooldown && !inWindow && value == Requests(s, c))
              || (reason == "tpm" && noCooldown && inWindow && !inTokens && value == Tokens(s, c))
              || (reason == "active" && noCooldown && inWindow && inTokens
                  && s.lim.maxActive > 0 && Active(s, c) >= s.lim.maxActive && value == Active(s, c))
  {
  }

  /** The slots of each provider. */
  lemma ProviderDefaults(p: string)
    ensures p == "anthropic" || p == "openrouter" ==> ProviderCap(p) == 8
    ensures p == "ollama" || p == "groq" ==> ProviderCap(p) == 4
    ensures p !in {"anthropic", "openrouter", "ollama", "groq"} ==> ProviderCap(p) == 16
  {
  }

  // ---------------------------------------------------------------------------
  // Each limit can be used up
  // ---------------------------------------------------------------------------

  /** A provider for each caller, so that no provider's cap is in the way. */
  function Provider(k: nat): string {
    seq(k, _ => 'p')
  }

  function Ask(k: nat, c: string, est: nat): Req {
    Req(c, Provider(k), None, est)
  }

  /** Where a caller stands that was let in: it holds its token or, if `back`, has just run the release script. */
  function Entered(k: nat, c: string, est: nat, back: bool): Pc {
    if back then GaveCred(Ask(k, c, est)) else Held(Ask(k, c, est))
  }

  /** The log of n grants in a window that has just begun; a window that is not positive is over at once. */
  ghost predicate Logged(s: State, c: string, n: nat) {
    if s.lim.window > 0
    then
      && InWindow(GrantsOf(s, c), s.now) == n
      && (c in s.db.rpm ==> s.db.rpm[c] == RpmKey(n, s.now + s.lim.window as real) && n > 0)
      && (c !in s.db.rpm ==> n == 0)
    else
      c in s.db.rpm ==> s.db.rpm[c].expires <= s.now
  }

  /** The first n callers were let in with `est` tokens of credential `c` each, the rest is idle. */
  ghost predicate Filling(s: State, c: string, est: nat, n: nat, back: bool) {
    && n <= |s.callers| && s.db.cooldown == map[]
    && (forall k | 0 <= k < n :: s.callers[k].pc == Entered(k, c, est, back))
    && (forall k | n <= k < |s.callers| :: s.callers[k].pc.Idle?)
    && (forall p | p in s.db.provider :: |p| < n)
    && Active(s, c) == (if back then 0 else n) && Tokens(s, c) == (if back then 0 else n * est)
    && Logged(s, c, n)
  }

  /** The limits leave room for n calls of `est` tokens, one after the other or all at once. */
  predicate Roomy(lim: Limits, est: nat, n: nat, back: bool) {
    && (lim.maxRpm > 0 ==> n <= lim.maxRpm)
    && (lim.maxActive > 0 ==> back || n <= lim.maxActive)
    && (lim.maxTpm > 0 ==> (if back then est else n * est) <= lim.maxTpm)
  }

  lemma Joined(s: State)
    ensures Next(s, Join) == s.(callers := s.callers + [Caller(Idle, 0, 0)])
  {
  }

  lemma {:induction false} Idlers(lim: Limits, c: string, est: nat, n: nat, back: bool) returns (s: State)
    ensures s.lim == lim && |s.callers| == n && Reachable(s) && Filling(s, c, est, 0, back)
  {
    if n == 0 {
      s := Start(lim, 0.0);
      assert s == Run(Start(s.lim, 0.0), []);
    } else {
      hide Reachable, Next;
      var t := Idlers(lim, c, est, n - 1, back);
      ReachableStep(t, Join);
      Joined(t);
      s := Next(t, Join);
    }
  }

  lemma ProductGrows(m: nat, n: nat, est: nat)
    requires m < n
    ensures m * est + est <= n * est && (m + 1) * est == m * est + est
  {
    assert (n - m - 1) * est >= 0;
    assert n * est == (n - m - 1) * est + m * est + est;
  }

  /** One more grant is logged in the window that has just begun. */
  lemma LoggedOneMore(s: State, r: State, c: string, n: nat)
    requires Logged(s, c, n) && r.lim == s.lim && r.now == s.now
    requires c in r.db.rpm && r.db.rpm[c] == BumpRpm(s.lim, s.db, s.now, c)
    requires GrantsOf(r, c) == GrantsOf(s, c) + [Grant(s.now, r.db.rpm[c].expires - s.lim.window as real)]
    ensures Logged(r, c, n + 1)
  {
    hide InWindow;
    OneMoreInWindow(GrantsOf(s, c), Grant(s.now, r.db.rpm[c].expires - s.lim.window as real));
  }

  /** The reserve script lets caller n in. */
  lemma LetIn(s: State, c: string, est: nat, n: nat, total: nat, back: bool)
    requires Filling(s, c, est, n, back) && n < |s.callers| && n < total && Roomy(s.lim, est, total, back)
    ensures var r := Next(s, Reserve(n, Ask(n, c, est), s.now.Floor));
            && Local(s, n, r) && r.callers[n].pc == GotCred(Ask(n, c, est)) && r.db.provider == s.db.provider
            && r.db.cooldown == map[] && Active(r, c) == Active(s, c) + 1 && Tokens(r, c) == Tokens(s, c) + est
            && Logged(r, c, n + 1)
  {
    hide InWindow, ReserveCommand, ReleaseCommand, RefundStep, Total;
    var req := Ask(n, c, est);
    ProductGrows(n, total, est);
    GrantedIff(s, n, req, s.now.Floor);
    var r := Next(s, Reserve(n, req, s.now.Floor));
    assert r == ReserveStep(s, n, req, s.now.Floor);
    LoggedOneMore(s, r, c, n);
  }

  /** The two commands after the script: nobody is at caller n's provider, so it goes on to its token. */
  lemma TakesProvider(s: State, c: string, est: nat, n: nat)
    requires n < |s.callers| && s.callers[n].pc == GotCred(Ask(n, c, est))
    requires forall p | p in s.db.provider :: |p| < n
    ensures var r := Next(Next(s, Proceed(n)), Proceed(n));
            && Local(s, n, r) && r.callers[n].pc == Held(Ask(n, c, est))
            && r.db == s.db.(provider := r.db.provider) && (forall p | p in r.db.provider :: |p| < n + 1)
            && r.grants == s.grants
  {
    hide Total, Raise;
    assert Provider(n) !in s.db.provider;
    assert ProviderCap(Provider(n)) > 0;
  }

  /** Its release script gives the slot and the whole estimate back. */
  lemma GivesBack(s: State, c: string, est: nat, n: nat)
    requires n < |s.callers| && s.callers[n].pc == Held(Ask(n, c, est)) && Active(s, c) > 0 && Tokens(s, c) >= est
    ensures var r := Next(s, Release(n, 0));
            && Local(s, n, r) && r.callers[n].pc == GaveCred(Ask(n, c, est))
            && r.db == s.db.(active := r.db.active, tpm := r.db.tpm) && r.grants == s.grants
            && Active(r, c) == Active(s, c) - 1 && Tokens(r, c) == Tokens(s, c) - est
  {
    hide Provider;
  }

  lemma FillingAfter(s: State, r: State, c: string, est: nat, n: nat, back: bool)
    requires Filling(s, c, est, n, back) && n < |s.callers| && Local(s, n, r)
    requires r.callers[n].pc == Entered(n, c, est, back) && (forall p | p in r.db.provider :: |p| < n + 1)
    requires r.db.cooldown == map[] && Logged(r, c, n + 1)
    requires Active(r, c) == (if back then 0 else Active(s, c) + 1)
    requires Tokens(r, c) == (if back then 0 else Tokens(s, c) + est)
    ensures Filling(r, c, est, n + 1, back)
  {
    hide Logged, Entered;
    ProductGrows(n, n + 1, est);
  }

  /** One caller more. */
  lemma OneMore(s: State, c: string, est: nat, n: nat, total: nat, back: bool) returns (r: State)
    requires Filling(s, c, est, n, back) && n < |s.callers| && Reachable(s)
    requires n < total && Roomy(s.lim, est, total, back)
    ensures Filling(r, c, est, n + 1, back) && Reachable(r) && r.lim == s.lim && |r.callers| == |s.callers|
  {
    hide Reachable, Next, InWindow, Roomy, Ask;
    var stamp := s.now.Floor;
    LetIn(s, c, est, n, total, back);
    ReachableStep(s, Reserve(n, Ask(n, c, est), stamp));
    r := Next(s, Reserve(n, Ask(n, c, est), stamp));
    TakesProvider(r, c, est, n);
    ReachableStep(r, Proceed(n));
    ReachableStep(Next(r, Proceed(n)), Proceed(n));
    r := Next(Next(r, Proceed(n)), Proceed(n));
    if back {
      GivesBack(r, c, est, n);
      ReachableStep(r, Release(n, 0));
      r := Next(r, Release(n, 0));
    }
    FillingAfter(s, r, c, est, n, back);
  }

  lemma {:induction false} Filled(lim: Limits, c: string, est: nat, n: nat, total: nat, back: bool) returns (s: State)
    requires Roomy(lim, est, total, back) && n <= total
    ensures s.lim == lim && |s.callers| == total && Reachable(s) && Filling(s, c, est, n, back)
  {
    hide Reachable, Filling, Roomy;
    if n == 0 {
      s := Idlers(lim, c, est, total, back);
    } else {
      s := Filled(lim, c, est, n - 1, total, back);
      s := OneMore(s, c, est, n - 1, total, back);
    }
  }

  /** Under any limits whose request limit is not below the concurrency limit, some run ends with as many callers of
      one credential holding a token as the concurrency limit says. */
  lemma ActiveReachesItsLimit(lim: Limits, c: string) returns (s: State)
    requires lim.maxActive > 0 && (lim.maxRpm > 0 ==> lim.maxActive <= lim.maxRpm)
    ensures Reachable(s) && s.lim == lim && |s.callers| == lim.maxActive
    ensures forall k | 0 <= k < |s.callers| :: s.callers[k].pc.Held? && s.callers[k].pc.req.cred == c
    ensures Get(s.db.active, c) == lim.maxActive
  {
    hide Reachable, Logged, Provider;
    s := Filled(lim, c, 0, lim.maxActive, lim.maxActive, false);
  }

  /** Under any limits some run grants as many requests in one window as the request limit says, even if only one
      call may run at a time. */
  lemma RequestsReachTheirLimit(lim: Limits, c: string) returns (s: State, start: real)
    requires lim.maxRpm > 0 && lim.window > 0
    ensures Reachable(s) && s.lim == lim && InWindow(GrantsOf(s, c), start) == lim.maxRpm
  {
    hide Reachable, InWindow;
    s := Filled(lim, c, 0, lim.maxRpm, lim.maxRpm, true);
    start := s.now;
  }

  /** Under any limits some run ends with the estimates outstanding at the token limit, by n equal calls that the other
      limits allow at once; one call that asks for all of it always will do. */
  lemma TokensReachTheirLimit(lim: Limits, c: string, est: nat, n: nat) returns (s: State)
    requires lim.maxTpm > 0 && n * est == lim.maxTpm
    requires n == 1 || ((lim.maxRpm > 0 ==> n <= lim.maxRpm) && (lim.maxActive > 0 ==> n <= lim.maxActive))
    ensures Reachable(s) && s.lim == lim && Get(s.db.tpm, c) == lim.maxTpm && Get(s.db.active, c) == n
    ensures forall k | 0 <= k < |s.callers| :: s.callers[k].pc.Held? && s.callers[k].pc.req.cred == c
  {
    hide Reachable, Logged, Provider;
    s := Filled(lim, c, est, n, n, false);
  }
}
