/**
 Keys that lapse at any moment (the tpm key after its window, the shared counters
 five minutes after their last increment): which part of the ledger is left.
 */
module LimiterLapse {
  import opened LimiterProtocol
  import opened LimiterLedger
  import opened Options

  /** A step of the protocol, or the time to live of a key runs out, whoever holds what it counts. */
  datatype Step =
    | Does(e: Event)
    | TpmLapses(c: string)
    | ProviderLapses(p: string)
    | JobLapses(j: string)

  function After(s: State, x: Step): State {
    match x
    case Does(e) => Next(s, e)
    case TpmLapses(c) => s.(db := s.db.(tpm := s.db.tpm - {c}), spent := s.spent - {c}, overrun := s.overrun - {c})
    case ProviderLapses(p) => s.(db := s.db.(provider := s.db.provider - {p}))
    case JobLapses(j) => s.(db := s.db.(job := s.db.job - {j}))
  }

  function RunAll(s: State, steps: seq<Step>): State
    decreases |steps|
  {
    if steps == [] then s else After(RunAll(s, steps[..|steps| - 1]), steps[|steps| - 1])
  }

  // ---------------------------------------------------------------------------
  // When the ledger survives
  // ---------------------------------------------------------------------------

  /** The key that lapses counts nothing at the time. */
  predicate Harmless(s: State, x: Step) {
    match x
    case Does(_) => true
    case TpmLapses(c) => Total(CredTpm(c), s.lim, s.callers) == 0
    case ProviderLapses(p) => Total(ProviderActive(p), s.lim, s.callers) == 0
    case JobLapses(j) => Total(JobActive(j), s.lim, s.callers) == 0
  }

  lemma SharedLapseKeeps(s: State, x: Step)
    requires Ledger(s) && (x.ProviderLapses? || x.JobLapses?) && Harmless(s, x)
    ensures Ledger(After(s, x))
  {
    hide Total;
    var r := After(s, x);
    forall c ensures CredOk(r, c) { assert CredOk(s, c); }
    forall p ensures ProviderOk(r, p) { assert ProviderOk(s, p); }
    forall j ensures JobOk(r, j) { assert JobOk(s, j); }
  }

  /** One step keeps the ledger exactly if it is no lapse of a key that counts something. */
  lemma LapseKeepsIff(s: State, x: Step)
    requires Ledger(s)
    ensures Ledger(After(s, x)) <==> Harmless(s, x)
  {
    hide Next, Total;
    match x
    case Does(e) => StepKeeps(s, e);
    case TpmLapses(c) =>
      if Harmless(s, x) {
        TpmExpiryKeeps(s, c);
        ExpiryIsLapse(s, c);
      }
      assert Ledger(After(s, x)) ==> CredOk(After(s, x), c);
    case ProviderLapses(p) =>
      if Harmless(s, x) { SharedLapseKeeps(s, x); }
      assert Ledger(After(s, x)) ==> ProviderOk(After(s, x), p);
    case JobLapses(j) =>
      if Harmless(s, x) { SharedLapseKeeps(s, x); }
      assert Ledger(After(s, x)) ==> JobOk(After(s, x), j);
  }

  lemma ExpiryIsLapse(s: State, c: string)
    requires Total(CredTpm(c), s.lim, s.callers) == 0
    ensures Next(s, TpmExpires(c)) == After(s, TpmLapses(c))
  {
  }

  ghost predicate AllHarmless(s: State, steps: seq<Step>) {
    forall n | 0 <= n < |steps| :: Harmless(RunAll(s, steps[..n]), steps[n])
  }

  ghost predicate LedgerThroughout(s: State, steps: seq<Step>) {
    forall n | 0 <= n <= |steps| :: Ledger(RunAll(s, steps[..n]))
  }

  lemma {:induction false} PrefixesOf(s: State, steps: seq<Step>, x: Step)
    ensures AllHarmless(s, steps + [x]) <==> AllHarmless(s, steps) && Harmless(RunAll(s, steps), x)
    ensures LedgerThroughout(s, steps + [x]) <==> LedgerThroughout(s, steps) && Ledger(After(RunAll(s, steps), x))
  {
    hide Harmless, Ledger, After;
    var more := steps + [x];
    assert more[..|steps|] == steps && more[..|more|] == more && more[|steps|] == x;
    forall n | 0 <= n <= |steps| ensures more[..n] == steps[..n] {
    }
    RunAllGrows(s, steps, x);
    if AllHarmless(s, more) {
      forall n | 0 <= n < |steps| ensures Harmless(RunAll(s, steps[..n]), steps[n]) {
        assert Harmless(RunAll(s, more[..n]), more[n]);
      }
      assert Harmless(RunAll(s, more[..|steps|]), more[|steps|]);
    }
    if LedgerThroughout(s, more) {
      forall n | 0 <= n <= |steps| ensures Ledger(RunAll(s, steps[..n])) {
        assert Ledger(RunAll(s, more[..n]));
      }
      assert Ledger(RunAll(s, more[..|more|]));
    }
  }

  lemma RunAllGrows(s: State, steps: seq<Step>, x: Step)
    ensures RunAll(s, steps + [x]) == After(RunAll(s, steps), x)
  {
    assert (steps + [x])[..|steps|] == steps;
  }

  lemma LedgerAtStart(lim: Limits, now: real)
    ensures LedgerThroughout(Start(lim, now), []) && AllHarmless(Start(lim, now), [])
  {
    RunKeepsLedger(lim, now, []);
    assert RunAll(Start(lim, now), [][..0]) == Start(lim, now);
  }

  lemma LedgerAtEnd(s: State, steps: seq<Step>)
    requires LedgerThroughout(s, steps)
    ensures Ledger(RunAll(s, steps))
  {
    assert steps[..|steps|] == steps;
  }

  /** Through a whole run in which keys lapse, every counter stays the sum of its holders' shares exactly if no key
      lapses while it counts something. */
  lemma {:induction false} LedgerIffHarmless(lim: Limits, now: real, steps: seq<Step>)
    ensures LedgerThroughout(Start(lim, now), steps) <==> AllHarmless(Start(lim, now), steps)
    decreases |steps|
  {
    hide LedgerThroughout, AllHarmless, Ledger, After, Harmless, RunAll;
    var s := Start(lim, now);
    if steps == [] {
      LedgerAtStart(lim, now);
    } else {
      var before, x := steps[..|steps| - 1], steps[|steps| - 1];
      assert steps == before + [x];
      LedgerIffHarmless(lim, now, before);
      PrefixesOf(s, before, x);
      if LedgerThroughout(s, before) {
        LedgerAtEnd(s, before);
        LapseKeepsIff(RunAll(s, before), x);
      }
    }
  }

  // ---------------------------------------------------------------------------
  // What survives any lapse
  // ---------------------------------------------------------------------------

  /** The part of a share that a decrement is still to come for: a releasing caller that found the counter empty
      will not take its slot off. */
  function Due(m: Meter, lim: Limits, pc: Pc): nat {
    if m.ProviderActive? && pc.SawProviderBack? && pc.seen <= 0 then 0
    else if m.JobActive? && pc.SawJobBack? && pc.seen <= 0 then 0
    else Share(m, lim, pc)
  }

  function TotalDue(m: Meter, lim: Limits, callers: seq<Caller>): nat {
    if callers == [] then 0 else Due(m, lim, callers[0].pc) + TotalDue(m, lim, callers[1..])
  }

  lemma {:induction false} DueUpdate(m: Meter, lim: Limits, callers: seq<Caller>, k: nat, x: Caller)
    requires k < |callers|
    ensures TotalDue(m, lim, callers[k := x]) == TotalDue(m, lim, callers) - Due(m, lim, callers[k].pc)
            + Due(m, lim, x.pc)
  {
    hide Due;
    if k == 0 {
      assert callers[k := x][1..] == callers[1..];
    } else {
      assert callers[k := x][1..] == callers[1..][k - 1 := x];
      DueUpdate(m, lim, callers[1..], k - 1, x);
    }
  }

  lemma {:induction false} DueAppend(m: Meter, lim: Limits, callers: seq<Caller>, x: Caller)
    ensures TotalDue(m, lim, callers + [x]) == TotalDue(m, lim, callers) + Due(m, lim, x.pc)
  {
    hide Due;
    if callers == [] {
      assert callers + [x] == [x];
    } else {
      assert (callers + [x])[1..] == callers[1..] + [x];
      DueAppend(m, lim, callers[1..], x);
    }
  }

  lemma {:induction false} DueAtMost(m: Meter, lim: Limits, callers: seq<Caller>)
    ensures TotalDue(m, lim, callers) <= Total(m, lim, callers)
  {
    if callers != [] {
      DueAtMost(m, lim, callers[1..]);
    }
  }

  lemma DueMoved(s: State, k: nat, r: State, m: Meter)
    requires k < |s.callers| && Local(s, k, r)
    ensures TotalDue(m, r.lim, r.callers)
         == TotalDue(m, s.lim, s.callers) - Due(m, s.lim, s.callers[k].pc) + Due(m, s.lim, r.callers[k].pc)
  {
    assert r.callers == s.callers[k := r.callers[k]];
    DueUpdate(m, s.lim, s.callers, k, r.callers[k]);
  }

  /** `active` has no time to live and stays exact; tpm never passes what it should be and never falls below 0. */
  ghost predicate CredUnder(s: State, c: string) {
    && Get(s.db.active, c) == Total(CredActive(c), s.lim, s.callers)
    && 0 <= Get(s.db.tpm, c) <= Total(CredTpm(c), s.lim, s.callers) + Get(s.spent, c)
    && Get(s.spent, c) >= 0
  }

  /** A shared counter never passes the decrements that are still to come. */
  ghost predicate SharedUnder(s: State, p: string, j: string) {
    && Get(s.db.provider, p) <= TotalDue(ProviderActive(p), s.lim, s.callers)
    && Get(s.db.job, j) <= TotalDue(JobActive(j), s.lim, s.callers)
  }

  /** A caller that looks after a job slot has a job. */
  ghost predicate Shaped(x: Caller) {
    x.pc.GotProvider? || x.pc.SawJob? || x.pc.UndoProvider? || x.pc.GaveProvider? || x.pc.SawJobBack? ==>
        x.pc.req.HasJob()
  }

  ghost predicate Under(s: State) {
    && (forall c :: CredUnder(s, c))
    && (forall p, j :: SharedUnder(s, p, j))
    && (forall k | 0 <= k < |s.callers| :: Shaped(s.callers[k]))
  }

  lemma CredUnderStays(s: State, k: nat, r: State, c: string)
    requires k < |s.callers| && Local(s, k, r) && CredUnder(s, c)
    requires r.db.active == s.db.active && r.db.tpm == s.db.tpm && r.spent == s.spent
    requires Share(CredActive(c), s.lim, r.callers[k].pc) == Share(CredActive(c), s.lim, s.callers[k].pc)
    requires Share(CredTpm(c), s.lim, r.callers[k].pc) == Share(CredTpm(c), s.lim, s.callers[k].pc)
    ensures CredUnder(r, c)
  {
    hide Share, Total;
    Moved(s, k, r, CredActive(c));
    Moved(s, k, r, CredTpm(c));
  }

  /** A shared counter moves no further up than what is due, or is not above 0. */
  lemma SharedMoves(s: State, k: nat, r: State, p: string, j: string)
    requires k < |s.callers| && Local(s, k, r) && SharedUnder(s, p, j)
    requires Get(r.db.provider, p) <= 0
          || Get(r.db.provider, p) - Get(s.db.provider, p)
               <= Due(ProviderActive(p), s.lim, r.callers[k].pc) - Due(ProviderActive(p), s.lim, s.callers[k].pc)
    requires Get(r.db.job, j) <= 0
          || Get(r.db.job, j) - Get(s.db.job, j)
               <= Due(JobActive(j), s.lim, r.callers[k].pc) - Due(JobActive(j), s.lim, s.callers[k].pc)
    ensures SharedUnder(r, p, j)
  {
    hide Due, TotalDue;
    DueMoved(s, k, r, ProviderActive(p));
    DueMoved(s, k, r, JobActive(j));
  }

  lemma ChargeUnder(s: State, k: nat, req: Req, stamp: int, c: string)
    requires k < |s.callers| && s.callers[k].pc.Idle? && CredUnder(s, c)
    ensures CredUnder(ReserveStep(s, k, req, stamp), c)
  {
    if Check(s.lim, s.db, s.now, req, stamp).Granted? {
      var r := ReserveStep(s, k, req, stamp);
      assert Get(r.db.active, c) == Get(s.db.active, c) + if c == req.cred then 1 else 0;
      assert Get(r.db.tpm, c) == Get(s.db.tpm, c) + if c == req.cred then req.est else 0;
      hide Total;
      Moved(s, k, r, CredActive(c));
      Moved(s, k, r, CredTpm(c));
    }
  }

  lemma RefundUnder(s: State, k: nat, actual: nat, pc: Pc, c: string)
    requires k < |s.callers| && HoldsCred(s.callers[k].pc) && !HoldsCred(pc) && CredUnder(s, c)
    requires CredUnder(s, s.callers[k].pc.req.cred)
    ensures CredUnder(RefundStep(s, k, actual, pc), c)
  {
    hide Total;
    var r, req := RefundStep(s, k, actual, pc), s.callers[k].pc.req;
    TotalAtLeast(CredActive(req.cred), s.lim, s.callers, k);
    TotalAtLeast(CredTpm(req.cred), s.lim, s.callers, k);
    Moved(s, k, r, CredActive(c));
    Moved(s, k, r, CredTpm(c));
  }

  /** A step of caller k keeps what is left at every key. */
  ghost predicate UnderAt(s: State, k: nat, c: string, p: string, j: string)
    requires k < |s.callers|
  {
    CredUnder(s, c) && SharedUnder(s, p, j) && Shaped(s.callers[k])
  }

  lemma RefundStepUnder(s: State, k: nat, actual: nat, pc: Pc, c: string, p: string, j: string)
    requires k < |s.callers| && HoldsCred(s.callers[k].pc) && !HoldsCred(pc) && UnderAt(s, k, c, p, j)
    requires CredUnder(s, s.callers[k].pc.req.cred) && (!pc.Idle? ==> pc.req == s.callers[k].pc.req)
    requires HoldsProvider(pc) == HoldsProvider(s.callers[k].pc) && HoldsJob(pc) == HoldsJob(s.callers[k].pc)
    requires !pc.SawProviderBack? && !pc.SawJobBack? && Shaped(s.callers[k].(pc := pc))
    ensures UnderAt(RefundStep(s, k, actual, pc), k, c, p, j)
  {
    RefundUnder(s, k, actual, pc, c);
    hide CredUnder, TotalDue, Total;
    SharedMoves(s, k, RefundStep(s, k, actual, pc), p, j);
  }

  /** INCR or DECR of the provider's counter, by a caller for whom that is due. */
  lemma MoveProviderUnder(s: State, k: nat, d: int, pc: Pc, c: string, p: string, j: string)
    requires k < |s.callers| && !s.callers[k].pc.Idle? && UnderAt(s, k, c, p, j)
    requires !pc.Idle? ==> pc.req == s.callers[k].pc.req
    requires HoldsCred(pc) == HoldsCred(s.callers[k].pc) && HoldsJob(pc) == HoldsJob(s.callers[k].pc)
    requires !pc.SawProviderBack? && !pc.SawJobBack? && !s.callers[k].pc.SawJobBack? && Shaped(s.callers[k].(pc := pc))
    requires d == 1 ==> !HoldsProvider(s.callers[k].pc) && HoldsProvider(pc)
    requires d != 1 ==> d == -1 && (s.callers[k].pc.SawProviderBack? ==> s.callers[k].pc.seen > 0)
    ensures UnderAt(MoveProvider(s, k, s.callers[k].pc.req.provider, d, pc), k, c, p, j)
  {
    hide CredUnder, SharedUnder, Total, TotalDue;
    var r := MoveProvider(s, k, s.callers[k].pc.req.provider, d, pc);
    CredUnderStays(s, k, r, c);
    SharedMoves(s, k, r, p, j);
  }

  lemma MoveJobUnder(s: State, k: nat, d: int, pc: Pc, c: string, p: string, j: string)
    requires k < |s.callers| && !s.callers[k].pc.Idle? && s.callers[k].pc.req.HasJob() && UnderAt(s, k, c, p, j)
    requires !pc.Idle? ==> pc.req == s.callers[k].pc.req
    requires HoldsCred(pc) == HoldsCred(s.callers[k].pc) && HoldsProvider(pc) == HoldsProvider(s.callers[k].pc)
    requires !pc.SawProviderBack? && !pc.SawJobBack? && !s.callers[k].pc.SawProviderBack?
             && Shaped(s.callers[k].(pc := pc))
    requires d == 1 ==> !HoldsJob(s.callers[k].pc) && HoldsJob(pc)
    requires d != 1 ==> d == -1 && (s.callers[k].pc.SawJobBack? ==> s.callers[k].pc.seen > 0)
    ensures UnderAt(MoveJob(s, k, s.callers[k].pc.req.job.value, d, pc), k, c, p, j)
  {
    hide CredUnder, SharedUnder, Total, TotalDue;
    var r := MoveJob(s, k, s.callers[k].pc.req.job.value, d, pc);
    CredUnderStays(s, k, r, c);
    SharedMoves(s, k, r, p, j);
  }

  /** Caller k goes on to `pc` without touching a counter: what was due of it stays due, unless the counter is
      empty. */
  lemma WalkUnder(s: State, k: nat, r: State, c: string, p: string, j: string)
    requires k < |s.callers| && UnderAt(s, k, c, p, j) && Local(s, k, r) && r.db == s.db && r.spent == s.spent
    requires Shaped(r.callers[k])
    requires var was, pc := s.callers[k].pc, r.callers[k].pc;
             && Share(CredActive(c), s.lim, pc) == Share(CredActive(c), s.lim, was)
             && Share(CredTpm(c), s.lim, pc) == Share(CredTpm(c), s.lim, was)
             && (Get(s.db.provider, p) <= 0 || Due(ProviderActive(p), s.lim, pc) >= Due(ProviderActive(p), s.lim, was))
             && (Get(s.db.job, j) <= 0 || Due(JobActive(j), s.lim, pc) >= Due(JobActive(j), s.lim, was))
    ensures UnderAt(r, k, c, p, j)
  {
    hide CredUnder, SharedUnder, Total, TotalDue, Share, Due;
    CredUnderStays(s, k, r, c);
    SharedMoves(s, k, r, p, j);
  }

  lemma GoSeeProvider(s: State, k: nat, req: Req, c: string, p: string, j: string)
    requires k < |s.callers| && UnderAt(s, k, c, p, j) && s.callers[k].pc == GotCred(req)
    ensures UnderAt(SeeProvider(s, k, req), k, c, p, j)
  {
    hide CredUnder, SharedUnder, Total, TotalDue;
    WalkUnder(s, k, SeeProvider(s, k, req), c, p, j);
  }

  lemma GoSeeJob(s: State, k: nat, req: Req, c: string, p: string, j: string)
    requires k < |s.callers| && UnderAt(s, k, c, p, j) && s.callers[k].pc == GotProvider(req) && req.HasJob()
    ensures UnderAt(SeeJob(s, k, req), k, c, p, j)
  {
    hide CredUnder, SharedUnder, Total, TotalDue;
    WalkUnder(s, k, SeeJob(s, k, req), c, p, j);
  }

  lemma GoSeeProviderBack(s: State, k: nat, req: Req, c: string, p: string, j: string)
    requires k < |s.callers| && UnderAt(s, k, c, p, j) && s.callers[k].pc == GaveCred(req)
    ensures UnderAt(SetPc(s, k, SawProviderBack(req, Get(s.db.provider, req.provider))), k, c, p, j)
  {
    hide CredUnder, SharedUnder, Total, TotalDue;
    WalkUnder(s, k, SetPc(s, k, SawProviderBack(req, Get(s.db.provider, req.provider))), c, p, j);
  }

  lemma GoPastProvider(s: State, k: nat, req: Req, c: string, p: string, j: string)
    requires k < |s.callers| && UnderAt(s, k, c, p, j) && s.callers[k].pc.SawProviderBack?
             && s.callers[k].pc.seen <= 0 && s.callers[k].pc.req == req
    ensures UnderAt(SetPc(s, k, if req.HasJob() then GaveProvider(req) else Idle), k, c, p, j)
  {
    hide CredUnder, SharedUnder, Total, TotalDue;
    WalkUnder(s, k, SetPc(s, k, if req.HasJob() then GaveProvider(req) else Idle), c, p, j);
  }

  lemma GoSeeJobBack(s: State, k: nat, req: Req, c: string, p: string, j: string)
    requires k < |s.callers| && UnderAt(s, k, c, p, j) && s.callers[k].pc == GaveProvider(req) && req.HasJob()
    ensures UnderAt(SetPc(s, k, SawJobBack(req, Get(s.db.job, req.job.value))), k, c, p, j)
  {
    hide CredUnder, SharedUnder, Total, TotalDue;
    WalkUnder(s, k, SetPc(s, k, SawJobBack(req, Get(s.db.job, req.job.value))), c, p, j);
  }

  lemma GoPastJob(s: State, k: nat, req: Req, c: string, p: string, j: string)
    requires k < |s.callers| && UnderAt(s, k, c, p, j) && s.callers[k].pc.SawJobBack? && s.callers[k].pc.seen <= 0
             && s.callers[k].pc.req == req
    ensures UnderAt(SetPc(s, k, Idle), k, c, p, j)
  {
    hide CredUnder, SharedUnder, Total, TotalDue;
    WalkUnder(s, k, SetPc(s, k, Idle), c, p, j);
  }

  lemma ReserveCommandUnder(s: State, k: nat, c: string, p: string, j: string)
    requires k < |s.callers| && UnderAt(s, k, c, p, j)
    requires !s.callers[k].pc.Idle? ==> CredUnder(s, s.callers[k].pc.req.cred)
    ensures UnderAt(ReserveCommand(s, k), k, c, p, j)
  {
    hide CredUnder, SharedUnder, Total, TotalDue, RefundStep, MoveProvider, MoveJob, SetPc, SeeProvider, SeeJob;
    match s.callers[k].pc
    case GotCred(req) => GoSeeProvider(s, k, req, c, p, j);
    case SawProvider(req, seen) =>
      if Full(ProviderCap(req.provider), seen) {
        RefundStepUnder(s, k, 0, Idle, c, p, j);
      } else {
        MoveProviderUnder(s, k, 1, if req.HasJob() then GotProvider(req) else Held(req), c, p, j);
      }
    case GotProvider(req) => GoSeeJob(s, k, req, c, p, j);
    case SawJob(req, seen) =>
      if Full(s.lim.maxJob, seen) {
        RefundStepUnder(s, k, 0, UndoProvider(req), c, p, j);
      } else {
        MoveJobUnder(s, k, 1, Held(req), c, p, j);
      }
    case UndoProvider(req) => MoveProviderUnder(s, k, -1, Idle, c, p, j);
    case _ =>
  }

  lemma ReleaseCommandUnder(s: State, k: nat, c: string, p: string, j: string)
    requires k < |s.callers| && UnderAt(s, k, c, p, j)
    ensures UnderAt(ReleaseCommand(s, k), k, c, p, j)
  {
    hide CredUnder, SharedUnder, Total, TotalDue, MoveProvider, MoveJob, SetPc;
    match s.callers[k].pc
    case GaveCred(req) => GoSeeProviderBack(s, k, req, c, p, j);
    case SawProviderBack(req, seen) =>
      var pc := if req.HasJob() then GaveProvider(req) else Idle;
      if seen > 0 {
        MoveProviderUnder(s, k, -1, pc, c, p, j);
      } else {
        GoPastProvider(s, k, req, c, p, j);
      }
    case GaveProvider(req) => GoSeeJobBack(s, k, req, c, p, j);
    case SawJobBack(req, seen) =>
      if seen > 0 {
        MoveJobUnder(s, k, -1, Idle, c, p, j);
      } else {
        GoPastJob(s, k, req, c, p, j);
      }
    case _ =>
  }

  lemma ReserveUnder(s: State, k: nat, req: Req, stamp: int, c: string, p: string, j: string)
    requires k < |s.callers| && s.callers[k].pc.Idle? && UnderAt(s, k, c, p, j)
    ensures UnderAt(ReserveStep(s, k, req, stamp), k, c, p, j)
  {
    ChargeUnder(s, k, req, stamp, c);
    var r := ReserveStep(s, k, req, stamp);
    assert r.db.provider == s.db.provider && r.db.job == s.db.job;
    assert r.callers[k].pc in {Idle, GotCred(req)};
    hide ReserveStep, CredUnder, SharedUnder, TotalDue, Total;
    SharedMoves(s, k, r, p, j);
  }

  lemma CallerStepUnder(s: State, e: Event, k: nat)
    requires Under(s) && k < |s.callers| && Actor(e) == Some(k)
    ensures Under(Next(s, e))
  {
    hide CredUnder, SharedUnder, Total, TotalDue, RefundStep, ReserveStep, ReserveCommand, ReleaseCommand;
    var r := Next(s, e);
    assert Shaped(s.callers[k]);
    forall c, p, j ensures UnderAt(r, k, c, p, j) {
      assert CredUnder(s, c) && SharedUnder(s, p, j);
      assert !s.callers[k].pc.Idle? ==> CredUnder(s, s.callers[k].pc.req.cred);
      match e
      case Reserve(_, req, stamp) =>
        if s.callers[k].pc.Idle? && stamp <= s.now.Floor { ReserveUnder(s, k, req, stamp, c, p, j); }
      case Proceed(_) => ReserveCommandUnder(s, k, c, p, j);
      case Unwind(_) => ReleaseCommandUnder(s, k, c, p, j);
      case Release(_, actual) =>
        if s.callers[k].pc.Held? { RefundStepUnder(s, k, actual, GaveCred(s.callers[k].pc.req), c, p, j); }
    }
    forall c ensures CredUnder(r, c) { assert UnderAt(r, k, c, c, c); }
    forall p, j ensures SharedUnder(r, p, j) { assert UnderAt(r, k, p, p, j); }
    assert UnderAt(r, k, "", "", "");
  }

  lemma JoinUnder(s: State)
    requires Under(s)
    ensures Under(Next(s, Join))
  {
    var r, x := Next(s, Join), Caller(Idle, 0, 0);
    forall c ensures CredUnder(r, c) {
      assert CredUnder(s, c);
      TotalAppend(CredActive(c), s.lim, s.callers, x);
      TotalAppend(CredTpm(c), s.lim, s.callers, x);
    }
    forall p, j ensures SharedUnder(r, p, j) {
      assert SharedUnder(s, p, j);
      DueAppend(ProviderActive(p), s.lim, s.callers, x);
      DueAppend(JobActive(j), s.lim, s.callers, x);
    }
  }

  /** Nobody moves, and no counter rises. */
  lemma NobodyUnder(s: State, r: State)
    requires Under(s) && r.lim == s.lim && r.callers == s.callers && r.db.active == s.db.active
    requires forall c ::
               0 <= Get(r.db.tpm, c) <= Total(CredTpm(c), s.lim, s.callers) + Get(r.spent, c) && Get(r.spent, c) >= 0
    requires forall p :: Get(r.db.provider, p) <= 0 || Get(r.db.provider, p) <= Get(s.db.provider, p)
    requires forall j :: Get(r.db.job, j) <= 0 || Get(r.db.job, j) <= Get(s.db.job, j)
    ensures Under(r)
  {
    hide Total, TotalDue;
    forall c ensures CredUnder(r, c) { assert CredUnder(s, c); }
    forall p, j ensures SharedUnder(r, p, j) { assert SharedUnder(s, p, j); }
  }

  lemma LapseUnder(s: State, x: Step)
    requires Under(s) && !x.Does?
    ensures Under(After(s, x))
  {
    hide Total, TotalDue, SharedUnder;
    var r := After(s, x);
    forall c ensures 0 <= Get(r.db.tpm, c) <= Total(CredTpm(c), s.lim, s.callers) + Get(r.spent, c)
        && Get(r.spent, c) >= 0 {
      assert CredUnder(s, c);
    }
    NobodyUnder(s, r);
  }

  lemma QuietUnder(s: State, e: Event)
    requires Under(s) && (e.Tick? || e.SetCooldown? || e.ClearCooldown?)
    ensures Under(Next(s, e))
  {
    var r := Next(s, e);
    assert r.callers == s.callers && r.spent == s.spent && r.db == s.db.(cooldown := r.db.cooldown);
    hide Next, Total, TotalDue, SharedUnder;
    forall c
      ensures 0 <= Get(r.db.tpm, c) <= Total(CredTpm(c), s.lim, s.callers) + Get(r.spent, c) && Get(r.spent, c) >= 0 {
      assert CredUnder(s, c);
    }
    NobodyUnder(s, r);
  }

  lemma StepUnder(s: State, x: Step)
    requires Under(s)
    ensures Under(After(s, x))
  {
    hide Under, RefundStep, ReserveStep, ReserveCommand, ReleaseCommand, Total;
    match x
    case Does(e) =>
      match e {
        case Join => JoinUnder(s);
        case TpmExpires(c) =>
          if Total(CredTpm(c), s.lim, s.callers) == 0 {
            LapseUnder(s, TpmLapses(c));
            ExpiryIsLapse(s, c);
          }
        case Tick(_) => QuietUnder(s, e);
        case SetCooldown(_, _) => QuietUnder(s, e);
        case ClearCooldown(_) => QuietUnder(s, e);
        case _ =>
          if Actor(e).value < |s.callers| {
            CallerStepUnder(s, e, Actor(e).value);
          }
      }
    case _ => LapseUnder(s, x);
  }

  /** Whatever lapses whenever, in every run of any number of callers: reservations of a credential are counted
      exactly, no counter is above the sum of its holders' shares, and tpm is not negative. */
  lemma {:induction false} UnderAnyLapse(lim: Limits, now: real, steps: seq<Step>)
    ensures Under(RunAll(Start(lim, now), steps))
    decreases |steps|
  {
    hide After;
    if steps != [] {
      UnderAnyLapse(lim, now, steps[..|steps| - 1]);
      StepUnder(RunAll(Start(lim, now), steps[..|steps| - 1]), steps[|steps| - 1]);
    } else {
      var s := Start(lim, now);
      forall c ensures CredUnder(s, c) {}
      forall p, j ensures SharedUnder(s, p, j) {}
    }
  }

  /** So no lapse loses capacity for good: once nobody holds anything, no counter is above 0. */
  lemma NothingStaysTaken(lim: Limits, now: real, steps: seq<Step>, c: string, p: string, j: string)
    ensures var s := RunAll(Start(lim, now), steps);
            && Get(s.db.provider, p) <= Total(ProviderActive(p), s.lim, s.callers)
            && Get(s.db.job, j) <= Total(JobActive(j), s.lim, s.callers)
            && ((forall k | 0 <= k < |s.callers| :: s.callers[k].pc.Idle?) ==>
                  && Get(s.db.active, c) == 0 && 0 <= Get(s.db.tpm, c) <= Get(s.spent, c)
                  && Get(s.db.provider, p) <= 0 && Get(s.db.job, j) <= 0)
  {
    hide RunAll;
    UnderAnyLapse(lim, now, steps);
    var s := RunAll(Start(lim, now), steps);
    assert CredUnder(s, c) && SharedUnder(s, p, j);
    DueAtMost(ProviderActive(p), s.lim, s.callers);
    DueAtMost(JobActive(j), s.lim, s.callers);
    if forall k | 0 <= k < |s.callers| :: s.callers[k].pc.Idle? {
      NoneHeld(ProviderActive(p), s.lim, s.callers);
      NoneHeld(JobActive(j), s.lim, s.callers);
      NoneHeld(CredActive(c), s.lim, s.callers);
      NoneHeld(CredTpm(c), s.lim, s.callers);
    }
  }

  lemma {:induction false} NoneHeld(m: Meter, lim: Limits, callers: seq<Caller>)
    requires forall k | 0 <= k < |callers| :: callers[k].pc.Idle?
    ensures Total(m, lim, callers) == 0
  {
    if callers != [] {
      NoneHeld(m, lim, callers[1..]);
    }
  }

  // ---------------------------------------------------------------------------
  // A count below zero
  // ---------------------------------------------------------------------------

  /** One caller reserves, and releases up to its last GET. */
  function Returning(req: Req, stamp: int): seq<Step> {
    [Does(Join), Does(Reserve(0, req, stamp))] + [Does(Proceed(0)), Does(Proceed(0))] +
    [Does(Release(0, 0)), Does(Unwind(0))]
  }

  /** The provider's key lapses before its DECR. */
  function LapsingRun(req: Req, stamp: int): seq<Step> {
    Returning(req, stamp) + [ProviderLapses(req.provider), Does(Unwind(0))]
  }

  lemma TwoMore(s: State, steps: seq<Step>, x: Step, y: Step)
    ensures RunAll(s, steps + [x, y]) == After(After(RunAll(s, steps), x), y)
  {
    hide After, RunAll;
    RunAllGrows(s, steps, x);
    RunAllGrows(s, steps + [x], y);
    assert steps + [x, y] == steps + [x] + [y];
  }

  lemma TwoEvents(s: State, steps: seq<Step>, d: Event, e: Event)
    ensures RunAll(s, steps + [Does(d), Does(e)]) == Next(Next(RunAll(s, steps), d), e)
  {
    hide RunAll, Next;
    TwoMore(s, steps, Does(d), Does(e));
  }

  /** Where the one caller stands, and what its provider's counter shows. */
  ghost predicate Alone(s: State, req: Req, pc: Pc, count: int) {
    |s.callers| == 1 && s.callers[0].pc == pc && Get(s.db.provider, req.provider) == count
  }

  lemma Reserving(s: State, req: Req)
    requires s == Start(s.lim, s.now) && (s.lim.maxTpm <= 0 || req.est <= s.lim.maxTpm)
    ensures Alone(Next(Next(s, Join), Reserve(0, req, s.now.Floor)), req, GotCred(req), 0)
  {
    var t := Next(s, Join);
    assert Check(t.lim, t.db, t.now, req, s.now.Floor) == Granted;
  }

  lemma TakingTheSlot(s: State, req: Req)
    requires Alone(s, req, GotCred(req), 0) && !req.HasJob()
    ensures Alone(Next(Next(s, Proceed(0)), Proceed(0)), req, Held(req), 1)
  {
    var t := Next(s, Proceed(0));
    assert Alone(t, req, SawProvider(req, 0), 0);
    assert !Full(ProviderCap(req.provider), 0);
  }

  lemma GivingBack(s: State, req: Req)
    requires Alone(s, req, Held(req), 1)
    ensures Alone(Next(Next(s, Release(0, 0)), Unwind(0)), req, SawProviderBack(req, 1), 1)
  {
    var t := Next(s, Release(0, 0));
    assert t.db.provider == s.db.provider;
    assert t.callers[0].pc == GaveCred(req);
    assert Alone(t, req, GaveCred(req), 1);
  }

  lemma LapsedAndDecremented(s: State, req: Req)
    requires Alone(s, req, SawProviderBack(req, 1), 1)
    ensures Get(After(After(s, ProviderLapses(req.provider)), Does(Unwind(0))).db.provider, req.provider) == -1
    ensures !Harmless(s, ProviderLapses(req.provider))
  {
    assert Alone(After(s, ProviderLapses(req.provider)), req, SawProviderBack(req, 1), 0);
    TotalAtLeast(ProviderActive(req.provider), s.lim, s.callers, 0);
  }

  lemma {:induction false} ReturningGetsThere(s: State, req: Req)
    requires s == Start(s.lim, s.now) && (s.lim.maxTpm <= 0 || req.est <= s.lim.maxTpm) && !req.HasJob()
    ensures Alone(RunAll(s, Returning(req, s.now.Floor)), req, SawProviderBack(req, 1), 1)
  {
    Reserving(s, req);
    assert RunAll(s, []) == s;
    hide RunAll, Next, Start, Alone;
    var a, b := [Does(Join), Does(Reserve(0, req, s.now.Floor))], [Does(Proceed(0)), Does(Proceed(0))];
    TwoEvents(s, [], Join, Reserve(0, req, s.now.Floor));
    assert [] + a == a;
    TwoEvents(s, a, Proceed(0), Proceed(0));
    TwoEvents(s, a + b, Release(0, 0), Unwind(0));
    TakingTheSlot(RunAll(s, a), req);
    GivingBack(RunAll(s, a + b), req);
  }

  lemma NotAllHarmless(s: State, steps: seq<Step>, x: Step, y: Step)
    requires !Harmless(RunAll(s, steps), x)
    ensures !AllHarmless(s, steps + [x, y])
  {
    hide RunAll, Harmless;
    var more := steps + [x, y];
    assert more[..|steps|] == steps && more[|steps|] == x;
  }

  /** But counters can be below 0: from an empty store, for any limits and any request without a job that the token
      limit lets through.  The lapse is not harmless, so the ledger does not hold throughout. */
  lemma {:induction false} LapseBeforeDecrement(lim: Limits, now: real, req: Req)
    requires !req.HasJob() && (lim.maxTpm <= 0 || req.est <= lim.maxTpm)
    ensures var s, before := Start(lim, now), Returning(req, now.Floor);
            && Get(RunAll(s, LapsingRun(req, now.Floor)).db.provider, req.provider) == -1
            && !Harmless(RunAll(s, before), ProviderLapses(req.provider))
            && !LedgerThroughout(s, LapsingRun(req, now.Floor))
  {
    var s, before := Start(lim, now), Returning(req, now.Floor);
    ReturningGetsThere(s, req);
    hide RunAll, Harmless, After, Start, Returning, AllHarmless, LedgerThroughout;
    TwoMore(s, before, ProviderLapses(req.provider), Does(Unwind(0)));
    LapsedAndDecremented(RunAll(s, before), req);
    NotAllHarmless(s, before, ProviderLapses(req.provider), Does(Unwind(0)));
    LedgerIffHarmless(lim, now, LapsingRun(req, now.Floor));
  }
}
