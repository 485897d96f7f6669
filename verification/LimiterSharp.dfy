/**
 The bounds on the shared slots are met: for every cap and every width of the race
 between GET and INCR some run ends exactly that much above the cap.
 */
module LimiterSharp {
  import opened LimiterProtocol
  import opened LimiterLedger
  import opened Options

  /** Caller k asks with a credential of its own, so that no limit of a credential is in its way. */
  function Cred(k: nat): string {
    seq(k, _ => 'c')
  }

  function Ask(k: nat, p: string, job: Option<string>): Req {
    Req(Cred(k), p, job, 0)
  }

  /** No caller from k on has left a key for its credential. */
  ghost predicate Untouched(db: Db, k: nat) {
    && db.cooldown == map[]
    && (forall c | c in db.rpm :: |c| < k)
    && (forall c | c in db.tpm :: |c| < k)
    && (forall c | c in db.active :: |c| < k)
  }

  function Entered(req: Req): Pc {
    if req.HasJob() then GotProvider(req) else Held(req)
  }

  /** The first `held` callers have their provider slot, the next `looking` have read the counter, the rest is idle. */
  ghost predicate Lined(s: State, p: string, job: Option<string>, held: nat, looking: nat, seen: int) {
    && held + looking <= |s.callers|
    && (forall k | 0 <= k < held :: s.callers[k].pc == Entered(Ask(k, p, job)))
    && (forall k | held <= k < held + looking :: s.callers[k].pc == SawProvider(Ask(k, p, job), seen))
    && (forall k | held + looking <= k < |s.callers| :: s.callers[k].pc.Idle?)
    && seen < ProviderCap(p) && Get(s.db.provider, p) == held
    && Untouched(s.db, held + looking)
  }

  /** No race on `p` was ever wider than w. */
  ghost predicate Narrow(s: State, p: string, looking: nat, w: nat) {
    Total(ProviderGap(p), s.lim, s.callers) == looking && Get(s.providerPeak, p) <= w
  }

  ghost predicate NoJobYet(s: State) {
    s.db.job == map[] && s.jobPeak == map[]
  }

  // ---------------------------------------------------------------------------
  // Lining up at a provider
  // ---------------------------------------------------------------------------

  lemma {:induction false} NoShares(m: Meter, lim: Limits, callers: seq<Caller>)
    requires forall k | 0 <= k < |callers| :: Share(m, lim, callers[k].pc) == 0
    ensures Total(m, lim, callers) == 0
  {
    if callers != [] {
      NoShares(m, lim, callers[1..]);
    }
  }

  lemma CapIsPositive(p: string)
    ensures ProviderCap(p) >= 4
  {
  }

  lemma {:induction false} Gathered(lim: Limits, p: string, job: Option<string>, n: nat) returns (s: State)
    ensures s.lim == lim && |s.callers| == n && Reachable(s) && NoJobYet(s)
    ensures Lined(s, p, job, 0, 0, 0) && Narrow(s, p, 0, 0)
  {
    if n == 0 {
      s := Start(lim, 0.0);
      CapIsPositive(p);
      assert s == Run(Start(s.lim, 0.0), []);
    } else {
      hide Reachable, Lined, Narrow;
      s := Gathered(lim, p, job, n - 1);
      s := GatheredOneMore(s, p, job);
    }
  }

  lemma GatheredOneMore(s: State, p: string, job: Option<string>) returns (r: State)
    requires Reachable(s) && NoJobYet(s) && Lined(s, p, job, 0, 0, 0) && Narrow(s, p, 0, 0)
    ensures r.lim == s.lim && |r.callers| == |s.callers| + 1 && Reachable(r) && NoJobYet(r)
    ensures Lined(r, p, job, 0, 0, 0) && Narrow(r, p, 0, 0)
  {
    hide Reachable, Next, Untouched, Entered;
    ReachableStep(s, Join);
    Joined(s);
    r := Next(s, Join);
    NoShares(ProviderGap(p), r.lim, r.callers);
  }

  lemma Joined(s: State)
    ensures Next(s, Join) == s.(callers := s.callers + [Caller(Idle, 0, 0)])
  {
  }

  /** A fresh credential is granted whatever the limits are. */
  lemma FreshIsGranted(s: State, k: nat, req: Req, stamp: int)
    requires Untouched(s.db, k) && |req.cred| == k && req.est == 0
    ensures Check(s.lim, s.db, s.now, req, stamp) == Granted
  {
    assert req.cred !in s.db.rpm && req.cred !in s.db.tpm && req.cred !in s.db.active;
  }

  /** Caller k, the first idle one, gets past the reserve script. */
  lemma Charged(s: State, k: nat, req: Req)
    requires k < |s.callers| && s.callers[k].pc.Idle? && Untouched(s.db, k) && |req.cred| == k && req.est == 0
    ensures var r := Next(s, Reserve(k, req, s.now.Floor));
            && Local(s, k, r) && r.callers[k].pc == GotCred(req) && Untouched(r.db, k + 1)
            && r.db.provider == s.db.provider && r.providerPeak == s.providerPeak
            && r.db.job == s.db.job && r.jobPeak == s.jobPeak
  {
    FreshIsGranted(s, k, req, s.now.Floor);
  }

  /** It reads the provider's counter. */
  lemma Read(s: State, k: nat, req: Req)
    requires k < |s.callers| && s.callers[k].pc == GotCred(req)
    ensures var r := Next(s, Proceed(k));
            && Local(s, k, r) && r.callers[k].pc == SawProvider(req, Get(s.db.provider, req.provider))
            && r.db == s.db && r.jobPeak == s.jobPeak
            && Get(r.providerPeak, req.provider) ==
                 (var gap := Total(ProviderGap(req.provider), r.lim, r.callers);
                  if gap > Get(s.providerPeak, req.provider) then gap else Get(s.providerPeak, req.provider))
  {
    hide Total;
  }

  lemma LinedAfterLook(s: State, r: State, p: string, job: Option<string>, held: nat, looking: nat)
    requires Lined(s, p, job, held, looking, held) && held + looking < |s.callers|
    requires var k := held + looking;
             Local(s, k, r) && r.callers[k].pc == SawProvider(Ask(k, p, job), held) && Untouched(r.db, k + 1)
    requires r.db.provider == s.db.provider
    ensures Lined(r, p, job, held, looking + 1, held)
  {
    hide Untouched, Ask;
  }

  lemma NarrowAfterLook(s: State, r: State, p: string, k: nat, req: Req, looking: nat, w: nat)
    requires Narrow(s, p, looking, w) && looking < w && req.provider == p
    requires k < |s.callers| && s.callers[k].pc.Idle? && Local(s, k, r)
    requires r.callers[k].pc.SawProvider? && r.callers[k].pc.req == req && r.callers[k].pc.seen < ProviderCap(p)
    requires var gap := Total(ProviderGap(p), r.lim, r.callers);
             Get(r.providerPeak, p) == if gap > Get(s.providerPeak, p) then gap else Get(s.providerPeak, p)
    ensures Narrow(r, p, looking + 1, w)
  {
    hide Total, ProviderCap;
    Moved(s, k, r, ProviderGap(p));
  }

  /** One more caller joins the race. */
  lemma Looks(s: State, p: string, job: Option<string>, held: nat, looking: nat, w: nat) returns (r: State)
    requires Lined(s, p, job, held, looking, held) && Narrow(s, p, looking, w) && NoJobYet(s) && Reachable(s)
    requires held + looking < |s.callers| && looking < w
    ensures Lined(r, p, job, held, looking + 1, held) && Narrow(r, p, looking + 1, w) && NoJobYet(r) && Reachable(r)
    ensures r.lim == s.lim && |r.callers| == |s.callers|
  {
    hide Reachable, Total, Next, Untouched, Narrow;
    var k := held + looking;
    var req := Ask(k, p, job);
    var mid := Next(s, Reserve(k, req, s.now.Floor));
    ReachableStep(s, Reserve(k, req, s.now.Floor));
    Charged(s, k, req);
    r := Next(mid, Proceed(k));
    ReachableStep(mid, Proceed(k));
    Read(mid, k, req);
    NarrowAfterLook(s, r, p, k, req, looking, w);
    LinedAfterLook(s, r, p, job, held, looking);
  }

  lemma Increments(s: State, k: nat, req: Req, seen: int)
    requires k < |s.callers| && s.callers[k].pc == SawProvider(req, seen) && seen < ProviderCap(req.provider)
    ensures var r := Next(s, Proceed(k));
            && Local(s, k, r) && r.callers[k].pc == Entered(req)
            && r.db == s.db.(provider := r.db.provider) && r.jobPeak == s.jobPeak && r.providerPeak == s.providerPeak
            && Get(r.db.provider, req.provider) == Get(s.db.provider, req.provider) + 1
  {
  }

  lemma LinedAfterTake(s: State, r: State, p: string, job: Option<string>, held: nat, looking: nat, seen: int)
    requires Lined(s, p, job, held, looking, seen) && looking > 0
    requires Local(s, held, r) && r.callers[held].pc == Entered(Ask(held, p, job))
    requires r.db == s.db.(provider := r.db.provider) && Get(r.db.provider, p) == held + 1
    ensures Lined(r, p, job, held + 1, looking - 1, seen)
  {
    hide Ask, Entered;
  }

  lemma NarrowAfterTake(s: State, r: State, p: string, k: nat, req: Req, looking: nat, w: nat)
    requires Narrow(s, p, looking, w) && looking > 0 && req.provider == p
    requires k < |s.callers| && Local(s, k, r) && r.callers[k].pc == Entered(req) && r.providerPeak == s.providerPeak
    requires s.callers[k].pc.SawProvider? && s.callers[k].pc.req == req && s.callers[k].pc.seen < ProviderCap(p)
    ensures Narrow(r, p, looking - 1, w)
  {
    hide Total, ProviderCap;
    Moved(s, k, r, ProviderGap(p));
  }

  /** The first of the race increments. */
  lemma Takes(s: State, p: string, job: Option<string>, held: nat, looking: nat, seen: int, w: nat) returns (r: State)
    requires Lined(s, p, job, held, looking, seen) && Narrow(s, p, looking, w) && NoJobYet(s) && Reachable(s)
    requires looking > 0
    ensures Lined(r, p, job, held + 1, looking - 1, seen) && Narrow(r, p, looking - 1, w)
    ensures NoJobYet(r) && Reachable(r) && r.lim == s.lim && |r.callers| == |s.callers|
  {
    hide Reachable, Total, Next, Untouched, Narrow, Entered;
    var req := Ask(held, p, job);
    r := Next(s, Proceed(held));
    ReachableStep(s, Proceed(held));
    Increments(s, held, req, seen);
    NarrowAfterTake(s, r, p, held, req, looking, w);
    LinedAfterTake(s, r, p, job, held, looking, seen);
  }

  /** All of `more` callers look before any of them increments. */
  lemma {:induction false} AllLook(s: State, p: string, job: Option<string>, held: nat, more: nat, w: nat)
    returns (r: State)
    requires Lined(s, p, job, held, 0, held) && Narrow(s, p, 0, w) && NoJobYet(s) && Reachable(s)
    requires held + more <= |s.callers| && more <= w
    ensures Lined(r, p, job, held, more, held) && Narrow(r, p, more, w) && NoJobYet(r) && Reachable(r)
    ensures r.lim == s.lim && |r.callers| == |s.callers|
  {
    r := s;
    hide *;
    if more > 0 {
      r := AllLook(s, p, job, held, more - 1, w);
      r := Looks(r, p, job, held, more - 1, w);
    }
  }

  lemma {:induction false} AllTake(s: State, p: string, job: Option<string>, held: nat, looking: nat, seen: int, w: nat)
    returns (r: State)
    requires Lined(s, p, job, held, looking, seen) && Narrow(s, p, looking, w) && NoJobYet(s) && Reachable(s)
    ensures Lined(r, p, job, held + looking, 0, seen) && Narrow(r, p, 0, w) && NoJobYet(r) && Reachable(r)
    ensures r.lim == s.lim && |r.callers| == |s.callers|
    decreases looking
  {
    r := s;
    hide *;
    if looking > 0 {
      r := Takes(s, p, job, held, looking, seen, w);
      r := AllTake(r, p, job, held + 1, looking - 1, seen, w);
    }
  }

  /** With nobody looking, what the last ones saw is forgotten. */
  lemma Settled(s: State, p: string, job: Option<string>, held: nat, seen: int)
    requires Lined(s, p, job, held, 0, seen) && held < ProviderCap(p)
    ensures Lined(s, p, job, held, 0, held)
  {
  }

  /** Callers one after the other fill all slots but one. */
  lemma {:induction false} Filled(s: State, p: string, held: nat, w: nat) returns (r: State)
    requires Lined(s, p, None, 0, 0, 0) && Narrow(s, p, 0, w) && NoJobYet(s) && Reachable(s)
    requires held <= |s.callers| && held < ProviderCap(p) && w > 0
    ensures Lined(r, p, None, held, 0, held) && Narrow(r, p, 0, w) && NoJobYet(r) && Reachable(r)
    ensures r.lim == s.lim && |r.callers| == |s.callers|
  {
    r := s;
    hide *;
    if held > 0 {
      r := Filled(s, p, held - 1, w);
      r := Looks(r, p, None, held - 1, 0, w);
      r := Takes(r, p, None, held - 1, 1, held - 1, w);
      Settled(r, p, None, held, held - 1);
    }
  }

  lemma AllHold(s: State, p: string, held: nat, w: nat)
    requires Lined(s, p, None, held + w, 0, held) && Narrow(s, p, 0, w) && Reachable(s)
    requires |s.callers| == held + w && held == ProviderCap(p) - 1
    ensures Get(s.db.provider, p) == held + w && Get(s.providerPeak, p) == w
    ensures forall k | 0 <= k < |s.callers| :: s.callers[k].pc.Held? && s.callers[k].pc.req.provider == p
  {
    ProviderOvershoot(s, p);
    hide Reachable, ProviderCap, Total;
    forall k | 0 <= k < |s.callers| ensures s.callers[k].pc.Held? && s.callers[k].pc.req.provider == p {
      assert s.callers[k].pc == Entered(Ask(k, p, None));
    }
  }

  /** The bound of the provider's slots is sharp: under any limits, for a race of any width w, some run ends with as
      many callers holding a slot as the cap less one and w make, and no race in it was wider. */
  lemma {:induction false} ProviderOvershootIsSharp(lim: Limits, p: string, w: nat) returns (s: State)
    requires w > 0
    ensures s.lim == lim && Reachable(s) && Get(s.providerPeak, p) == w
    ensures Get(s.db.provider, p) == ProviderCap(p) - 1 + w == |s.callers|
    ensures forall k | 0 <= k < |s.callers| :: s.callers[k].pc.Held? && s.callers[k].pc.req.provider == p
  {
    hide *;
    CapIsPositive(p);
    var held := ProviderCap(p) - 1;
    s := Gathered(lim, p, None, held + w);
    Wider(s, p, w);
    s := Filled(s, p, held, w);
    s := AllLook(s, p, None, held, w, w);
    s := AllTake(s, p, None, held, w, held, w);
    AllHold(s, p, held, w);
  }

  lemma Wider(s: State, p: string, w: nat)
    requires Narrow(s, p, 0, 0)
    ensures Narrow(s, p, 0, w)
  {
  }

  // ---------------------------------------------------------------------------
  // Lining up for a job
  // ---------------------------------------------------------------------------

  function JobAsk(k: nat, p: string, j: string): Req {
    Ask(k, p, Some(j))
  }

  /** Everybody has a provider slot; the first `held` callers hold a job slot, too, and the next `looking` have read
      the job's counter. */
  ghost predicate JobLined(s: State, p: string, j: string, held: nat, looking: nat, seen: int) {
    && held + looking <= |s.callers| && j != ""
    && (forall k | 0 <= k < held :: s.callers[k].pc == Held(JobAsk(k, p, j)))
    && (forall k | held <= k < held + looking :: s.callers[k].pc == SawJob(JobAsk(k, p, j), seen))
    && (forall k | held + looking <= k < |s.callers| :: s.callers[k].pc == GotProvider(JobAsk(k, p, j)))
    && seen < s.lim.maxJob && Get(s.db.job, j) == held
  }

  ghost predicate JobNarrow(s: State, j: string, looking: nat, w: nat) {
    Total(JobGap(j), s.lim, s.callers) == looking && Get(s.jobPeak, j) <= w
  }

  lemma JobRead(s: State, k: nat, req: Req, j: string)
    requires k < |s.callers| && s.callers[k].pc == GotProvider(req) && req.job == Some(j) && j != ""
    ensures var r := Next(s, Proceed(k));
            && Local(s, k, r) && r.callers[k].pc == SawJob(req, Get(s.db.job, j)) && r.db == s.db
            && Get(r.jobPeak, j) ==
                 (var gap := Total(JobGap(j), r.lim, r.callers);
                  if gap > Get(s.jobPeak, j) then gap else Get(s.jobPeak, j))
  {
    hide Total;
  }

  lemma JobLinedAfterLook(s: State, r: State, p: string, j: string, held: nat, looking: nat)
    requires JobLined(s, p, j, held, looking, held) && held + looking < |s.callers|
    requires var k := held + looking;
             Local(s, k, r) && r.callers[k].pc == SawJob(JobAsk(k, p, j), held) && r.db == s.db
    ensures JobLined(r, p, j, held, looking + 1, held)
  {
    hide JobAsk;
  }

  lemma JobNarrowAfterLook(s: State, r: State, j: string, k: nat, req: Req, looking: nat, w: nat)
    requires JobNarrow(s, j, looking, w) && looking < w && req.job == Some(j)
    requires k < |s.callers| && s.callers[k].pc == GotProvider(req) && Local(s, k, r)
    requires r.callers[k].pc.SawJob? && r.callers[k].pc.req == req && r.callers[k].pc.seen < s.lim.maxJob
    requires var gap := Total(JobGap(j), r.lim, r.callers);
             Get(r.jobPeak, j) == if gap > Get(s.jobPeak, j) then gap else Get(s.jobPeak, j)
    ensures JobNarrow(r, j, looking + 1, w)
  {
    hide Total;
    Moved(s, k, r, JobGap(j));
  }

  lemma JobLooks(s: State, p: string, j: string, held: nat, looking: nat, w: nat) returns (r: State)
    requires JobLined(s, p, j, held, looking, held) && JobNarrow(s, j, looking, w) && Reachable(s)
    requires held + looking < |s.callers| && looking < w
    ensures JobLined(r, p, j, held, looking + 1, held) && JobNarrow(r, j, looking + 1, w) && Reachable(r)
    ensures r.lim == s.lim && |r.callers| == |s.callers|
  {
    hide Reachable, Total, Next, JobNarrow;
    var k := held + looking;
    r := Next(s, Proceed(k));
    ReachableStep(s, Proceed(k));
    JobRead(s, k, JobAsk(k, p, j), j);
    JobNarrowAfterLook(s, r, j, k, JobAsk(k, p, j), looking, w);
    JobLinedAfterLook(s, r, p, j, held, looking);
  }

  lemma JobIncrements(s: State, k: nat, req: Req, seen: int, j: string)
    requires k < |s.callers| && s.callers[k].pc == SawJob(req, seen) && seen < s.lim.maxJob
    requires req.job == Some(j) && j != ""
    ensures var r := Next(s, Proceed(k));
            && Local(s, k, r) && r.callers[k].pc == Held(req) && r.jobPeak == s.jobPeak
            && Get(r.db.job, j) == Get(s.db.job, j) + 1
  {
  }

  lemma JobLinedAfterTake(s: State, r: State, p: string, j: string, held: nat, looking: nat, seen: int)
    requires JobLined(s, p, j, held, looking, seen) && looking > 0
    requires Local(s, held, r) && r.callers[held].pc == Held(JobAsk(held, p, j)) && Get(r.db.job, j) == held + 1
    ensures JobLined(r, p, j, held + 1, looking - 1, seen)
  {
    hide JobAsk;
  }

  lemma JobNarrowAfterTake(s: State, r: State, j: string, k: nat, req: Req, looking: nat, w: nat)
    requires JobNarrow(s, j, looking, w) && looking > 0 && req.job == Some(j)
    requires k < |s.callers| && Local(s, k, r) && r.callers[k].pc == Held(req) && r.jobPeak == s.jobPeak
    requires s.callers[k].pc.SawJob? && s.callers[k].pc.req == req && s.callers[k].pc.seen < s.lim.maxJob
    ensures JobNarrow(r, j, looking - 1, w)
  {
    hide Total;
    Moved(s, k, r, JobGap(j));
  }

  lemma JobTakes(s: State, p: string, j: string, held: nat, looking: nat, seen: int, w: nat) returns (r: State)
    requires JobLined(s, p, j, held, looking, seen) && JobNarrow(s, j, looking, w) && Reachable(s) && looking > 0
    ensures JobLined(r, p, j, held + 1, looking - 1, seen) && JobNarrow(r, j, looking - 1, w) && Reachable(r)
    ensures r.lim == s.lim && |r.callers| == |s.callers|
  {
    hide Reachable, Total, Next, JobNarrow;
    var req := JobAsk(held, p, j);
    r := Next(s, Proceed(held));
    ReachableStep(s, Proceed(held));
    JobIncrements(s, held, req, seen, j);
    JobNarrowAfterTake(s, r, j, held, req, looking, w);
    JobLinedAfterTake(s, r, p, j, held, looking, seen);
  }

  lemma {:induction false} AllJobLook(s: State, p: string, j: string, held: nat, more: nat, w: nat) returns (r: State)
    requires JobLined(s, p, j, held, 0, held) && JobNarrow(s, j, 0, w) && Reachable(s)
    requires held + more <= |s.callers| && more <= w
    ensures JobLined(r, p, j, held, more, held) && JobNarrow(r, j, more, w) && Reachable(r)
    ensures r.lim == s.lim && |r.callers| == |s.callers|
  {
    r := s;
    hide *;
    if more > 0 {
      r := AllJobLook(s, p, j, held, more - 1, w);
      r := JobLooks(r, p, j, held, more - 1, w);
    }
  }

  lemma {:induction false} AllJobTake(s: State, p: string, j: string, held: nat, looking: nat, seen: int, w: nat)
    returns (r: State)
    requires JobLined(s, p, j, held, looking, seen) && JobNarrow(s, j, looking, w) && Reachable(s)
    ensures JobLined(r, p, j, held + looking, 0, seen) && JobNarrow(r, j, 0, w) && Reachable(r)
    ensures r.lim == s.lim && |r.callers| == |s.callers|
    decreases looking
  {
    r := s;
    hide *;
    if looking > 0 {
      r := JobTakes(s, p, j, held, looking, seen, w);
      r := AllJobTake(r, p, j, held + 1, looking - 1, seen, w);
    }
  }

  lemma JobSettled(s: State, p: string, j: string, held: nat, seen: int)
    requires JobLined(s, p, j, held, 0, seen) && held < s.lim.maxJob
    ensures JobLined(s, p, j, held, 0, held)
  {
  }

  lemma {:induction false} JobFilled(s: State, p: string, j: string, held: nat, w: nat) returns (r: State)
    requires JobLined(s, p, j, 0, 0, 0) && JobNarrow(s, j, 0, w) && Reachable(s)
    requires held <= |s.callers| && held < s.lim.maxJob && w > 0
    ensures JobLined(r, p, j, held, 0, held) && JobNarrow(r, j, 0, w) && Reachable(r)
    ensures r.lim == s.lim && |r.callers| == |s.callers|
  {
    r := s;
    hide *;
    if held > 0 {
      r := JobFilled(s, p, j, held - 1, w);
      r := JobLooks(r, p, j, held - 1, 0, w);
      r := JobTakes(r, p, j, held - 1, 1, held - 1, w);
      JobSettled(r, p, j, held, held - 1);
    }
  }

  /** All at once past the provider, and none at the job yet. */
  lemma JobGathered(lim: Limits, p: string, j: string, n: nat, w: nat) returns (s: State)
    requires lim.maxJob > 0 && j != ""
    ensures s.lim == lim && |s.callers| == n && Reachable(s) && JobLined(s, p, j, 0, 0, 0) && JobNarrow(s, j, 0, w)
  {
    hide Reachable, Lined, Narrow, JobLined, JobNarrow, Total, ProviderCap;
    s := Gathered(lim, p, Some(j), n);
    Wider(s, p, n);
    s := AllLook(s, p, Some(j), 0, n, n);
    s := AllTake(s, p, Some(j), 0, n, 0, n);
    AtTheJob(s, p, j, w);
  }

  lemma AtTheJob(s: State, p: string, j: string, w: nat)
    requires Lined(s, p, Some(j), |s.callers|, 0, 0) && NoJobYet(s) && s.lim.maxJob > 0 && j != ""
    ensures JobLined(s, p, j, 0, 0, 0) && JobNarrow(s, j, 0, w)
  {
    hide Total;
    forall k | 0 <= k < |s.callers| ensures s.callers[k].pc == GotProvider(JobAsk(k, p, j)) {
      assert s.callers[k].pc == Entered(Ask(k, p, Some(j)));
    }
    NoShares(JobGap(j), s.lim, s.callers);
  }

  lemma AllHoldTheJob(s: State, p: string, j: string, held: nat, w: nat)
    requires JobLined(s, p, j, held + w, 0, held) && JobNarrow(s, j, 0, w) && Reachable(s)
    requires |s.callers| == held + w && held == s.lim.maxJob - 1
    ensures Get(s.db.job, j) == held + w && Get(s.jobPeak, j) == w
    ensures forall k | 0 <= k < |s.callers| :: s.callers[k].pc.Held? && s.callers[k].pc.req.job == Some(j)
  {
    JobOvershoot(s, j);
    hide Reachable, Total;
    forall k | 0 <= k < |s.callers| ensures s.callers[k].pc.Held? && s.callers[k].pc.req.job == Some(j) {
      assert s.callers[k].pc == Held(JobAsk(k, p, j));
    }
  }

  /** The bound of a job's slots is sharp in the same way, for every positive limit. */
  lemma {:induction false} JobOvershootIsSharp(lim: Limits, j: string, w: nat) returns (s: State)
    requires lim.maxJob > 0 && j != "" && w > 0
    ensures s.lim == lim && Reachable(s) && Get(s.jobPeak, j) == w
    ensures Get(s.db.job, j) == lim.maxJob - 1 + w == |s.callers|
    ensures forall k | 0 <= k < |s.callers| :: s.callers[k].pc.Held? && s.callers[k].pc.req.job == Some(j)
  {
    hide *;
    var held := lim.maxJob - 1;
    s := JobGathered(lim, "", j, held + w, w);
    s := JobFilled(s, "", j, held, w);
    s := AllJobLook(s, "", j, held, w, w);
    s := AllJobTake(s, "", j, held, w, held, w);
    AllHoldTheJob(s, "", j, held, w);
  }
}
