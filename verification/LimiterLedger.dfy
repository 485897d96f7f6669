/**
 What every interleaving of reserve and release keeps: each counter is the sum of
 its holders' shares, the caps hold, and no guard or clamp ever drops an update.
 */
module LimiterLedger {
  import opened LimiterProtocol
  import opened Options

  // ---------------------------------------------------------------------------
  // Sums over callers
  // ---------------------------------------------------------------------------

  lemma {:induction false} TotalUpdate(m: Meter, lim: Limits, callers: seq<Caller>, k: nat, x: Caller)
    requires k < |callers|
    ensures Total(m, lim, callers[k := x]) == Total(m, lim, callers) - Share(m, lim, callers[k].pc)
            + Share(m, lim, x.pc)
  {
    if k == 0 {
      assert callers[k := x][1..] == callers[1..];
    } else {
      assert callers[k := x][1..] == callers[1..][k - 1 := x];
      TotalUpdate(m, lim, callers[1..], k - 1, x);
    }
  }

  lemma {:induction false} TotalAppend(m: Meter, lim: Limits, callers: seq<Caller>, x: Caller)
    ensures Total(m, lim, callers + [x]) == Total(m, lim, callers) + Share(m, lim, x.pc)
  {
    if callers == [] {
      assert callers + [x] == [x];
    } else {
      assert (callers + [x])[1..] == callers[1..] + [x];
      TotalAppend(m, lim, callers[1..], x);
    }
  }

  lemma {:induction false} TotalAtLeast(m: Meter, lim: Limits, callers: seq<Caller>, k: nat)
    requires k < |callers|
    ensures Share(m, lim, callers[k].pc) <= Total(m, lim, callers)
  {
    if k > 0 {
      TotalAtLeast(m, lim, callers[1..], k - 1);
    }
  }

  lemma {:induction false} TotalAtMost(m: Meter, lim: Limits, callers: seq<Caller>)
    requires !m.CredTpm?
    ensures Total(m, lim, callers) <= |callers|
  {
    if callers != [] {
      TotalAtMost(m, lim, callers[1..]);
    }
  }

  /** A step of caller k moves every sum by the change of k's own share. */
  lemma Moved(s: State, k: nat, r: State, m: Meter)
    requires k < |s.callers| && Local(s, k, r)
    ensures Total(m, r.lim, r.callers)
         == Total(m, s.lim, s.callers) - Share(m, s.lim, s.callers[k].pc) + Share(m, s.lim, r.callers[k].pc)
  {
    assert r.callers == s.callers[k := r.callers[k]];
    TotalUpdate(m, s.lim, s.callers, k, r.callers[k]);
  }

  // ---------------------------------------------------------------------------
  // The invariants
  // ---------------------------------------------------------------------------

  /** The counters of a credential are the sums over its reservations held or in progress, and its caps hold;
      tpm may pass its cap only by what calls used beyond their estimates. */
  ghost predicate CredOk(s: State, c: string) {
    && Get(s.db.active, c) == Total(CredActive(c), s.lim, s.callers)
    && Get(s.db.tpm, c) == Total(CredTpm(c), s.lim, s.callers) + Get(s.spent, c)
    && Get(s.spent, c) >= 0
    && Get(s.overrun, c) >= 0
    && (s.lim.maxActive > 0 ==> Get(s.db.active, c) <= s.lim.maxActive)
    && (s.lim.maxTpm > 0 ==> Get(s.db.tpm, c) <= s.lim.maxTpm + Get(s.overrun, c))
  }

  /** A provider counter is the number of its holders; its overshoot is bounded by the widest race so far. */
  ghost predicate ProviderOk(s: State, p: string) {
    && Get(s.db.provider, p) == Total(ProviderActive(p), s.lim, s.callers)
    && Total(ProviderGap(p), s.lim, s.callers) <= Get(s.providerPeak, p) <= |s.callers|
    && (ProviderCap(p) > 0 ==>
          Get(s.db.provider, p) + Total(ProviderGap(p), s.lim, s.callers) <= ProviderCap(p) - 1
              + Get(s.providerPeak, p))
  }

  ghost predicate JobOk(s: State, j: string) {
    && Get(s.db.job, j) == Total(JobActive(j), s.lim, s.callers)
    && Total(JobGap(j), s.lim, s.callers) <= Get(s.jobPeak, j) <= |s.callers|
    && (s.lim.maxJob > 0 ==>
          Get(s.db.job, j) + Total(JobGap(j), s.lim, s.callers) <= s.lim.maxJob - 1 + Get(s.jobPeak, j))
  }

  /** Every grant is given back exactly once, and a releasing caller always sees its own slot counted. */
  ghost predicate CallerOk(x: Caller) {
    && x.granted == x.returned + (if HoldsCred(x.pc) then 1 else 0)
    && (x.pc.SawProviderBack? ==> x.pc.seen > 0)
    && (x.pc.SawJobBack? ==> x.pc.seen > 0)
    && (x.pc.GotProvider? || x.pc.SawJob? || x.pc.UndoProvider? || x.pc.GaveProvider? || x.pc.SawJobBack? ==>
        x.pc.req.HasJob())
  }

  ghost predicate Ledger(s: State) {
    && (forall c :: CredOk(s, c))
    && (forall p :: ProviderOk(s, p))
    && (forall j :: JobOk(s, j))
    && (forall k | 0 <= k < |s.callers| :: CallerOk(s.callers[k]))
  }

  /** The ledger at one key of each kind, and at one caller. */
  ghost predicate LedgerAt(s: State, k: nat, c: string, p: string, j: string)
    requires k < |s.callers|
  {
    CredOk(s, c) && ProviderOk(s, p) && JobOk(s, j) && CallerOk(s.callers[k])
  }

  // ---------------------------------------------------------------------------
  // Preservation, one kind of step at a time
  // ---------------------------------------------------------------------------

  /** A step that leaves one kind of counter alone keeps that part of the ledger. */
  lemma CredStays(s: State, k: nat, r: State, c: string)
    requires k < |s.callers| && Local(s, k, r) && CredOk(s, c)
    requires r.db.active == s.db.active && r.db.tpm == s.db.tpm && r.spent == s.spent && r.overrun == s.overrun
    requires HoldsCred(s.callers[k].pc) == HoldsCred(r.callers[k].pc)
    requires HoldsCred(r.callers[k].pc) ==> r.callers[k].pc.req == s.callers[k].pc.req
    ensures CredOk(r, c)
  {
    Moved(s, k, r, CredActive(c));
    Moved(s, k, r, CredTpm(c));
  }

  lemma ProviderStays(s: State, k: nat, r: State, p: string)
    requires k < |s.callers| && Local(s, k, r) && ProviderOk(s, p)
    requires r.db.provider == s.db.provider && r.providerPeak == s.providerPeak
    requires HoldsProvider(s.callers[k].pc) == HoldsProvider(r.callers[k].pc)
    requires HoldsProvider(r.callers[k].pc) ==> r.callers[k].pc.req == s.callers[k].pc.req
    requires Share(ProviderGap(p), s.lim, r.callers[k].pc) == Share(ProviderGap(p), s.lim, s.callers[k].pc)
    ensures ProviderOk(r, p)
  {
    Moved(s, k, r, ProviderActive(p));
    Moved(s, k, r, ProviderGap(p));
  }

  lemma JobStays(s: State, k: nat, r: State, j: string)
    requires k < |s.callers| && Local(s, k, r) && JobOk(s, j)
    requires r.db.job == s.db.job && r.jobPeak == s.jobPeak
    requires HoldsJob(s.callers[k].pc) == HoldsJob(r.callers[k].pc)
    requires HoldsJob(r.callers[k].pc) ==> r.callers[k].pc.req == s.callers[k].pc.req
    requires Share(JobGap(j), s.lim, r.callers[k].pc) == Share(JobGap(j), s.lim, s.callers[k].pc)
    ensures JobOk(r, j)
  {
    Moved(s, k, r, JobActive(j));
    Moved(s, k, r, JobGap(j));
  }

  /** Deltas of the counters against deltas of the shares. */
  lemma CredMoves(s: State, k: nat, r: State, c: string)
    requires k < |s.callers| && Local(s, k, r) && CredOk(s, c)
    requires Get(r.db.active, c) - Get(s.db.active, c)
          == Share(CredActive(c), s.lim, r.callers[k].pc) - Share(CredActive(c), s.lim, s.callers[k].pc)
    requires Get(r.db.tpm, c) - Get(s.db.tpm, c)
          == Share(CredTpm(c), s.lim, r.callers[k].pc) - Share(CredTpm(c), s.lim, s.callers[k].pc)
              + Get(r.spent, c) - Get(s.spent, c)
    requires Get(r.spent, c) >= Get(s.spent, c) && Get(r.overrun, c) >= Get(s.overrun, c)
    requires s.lim.maxActive > 0 ==> Get(r.db.active, c) <= s.lim.maxActive
    requires s.lim.maxTpm > 0 ==> Get(r.db.tpm, c) <= s.lim.maxTpm + Get(r.overrun, c)
    ensures CredOk(r, c)
  {
    Moved(s, k, r, CredActive(c));
    Moved(s, k, r, CredTpm(c));
  }

  lemma ChargeCred(s: State, k: nat, req: Req, stamp: int, c: string)
    requires k < |s.callers| && s.callers[k].pc.Idle? && CredOk(s, c)
    requires Check(s.lim, s.db, s.now, req, stamp).Granted?
    ensures CredOk(ReserveStep(s, k, req, stamp), c)
  {
    var db := Charge(s.lim, s.db, s.now, req);
    assert Get(db.active, c) == Get(s.db.active, c) + if c == req.cred then 1 else 0;
    assert Get(db.tpm, c) == Get(s.db.tpm, c) + if c == req.cred then req.est else 0;
    CredMoves(s, k, ReserveStep(s, k, req, stamp), c);
  }

  lemma ReserveKeeps(s: State, k: nat, req: Req, stamp: int, c: string, p: string, j: string)
    requires k < |s.callers| && s.callers[k].pc.Idle? && LedgerAt(s, k, c, p, j)
    ensures LedgerAt(ReserveStep(s, k, req, stamp), k, c, p, j)
  {
    if Check(s.lim, s.db, s.now, req, stamp).Granted? {
      ChargeCred(s, k, req, stamp, c);
      ProviderStays(s, k, ReserveStep(s, k, req, stamp), p);
      JobStays(s, k, ReserveStep(s, k, req, stamp), j);
    }
  }

  /** The release script undoes exactly one grant: its guard holds and its clamp does not fire. */
  lemma RefundExact(s: State, k: nat, actual: nat, c: string)
    requires k < |s.callers| && HoldsCred(s.callers[k].pc) && CredOk(s, s.callers[k].pc.req.cred)
    ensures var req := s.callers[k].pc.req; var db := Refund(s.db, req.cred, req.est, actual);
            && Get(db.active, c) == Get(s.db.active, c) - (if c == req.cred then 1 else 0)
            && Get(db.tpm, c) == Get(s.db.tpm, c) + (if c == req.cred then actual - req.est else 0)
  {
    var req := s.callers[k].pc.req;
    TotalAtLeast(CredActive(req.cred), s.lim, s.callers, k);
    TotalAtLeast(CredTpm(req.cred), s.lim, s.callers, k);
  }

  lemma RefundCred(s: State, k: nat, actual: nat, pc: Pc, c: string)
    requires k < |s.callers| && HoldsCred(s.callers[k].pc) && !HoldsCred(pc)
    requires CredOk(s, c) && CredOk(s, s.callers[k].pc.req.cred)
    ensures CredOk(RefundStep(s, k, actual, pc), c)
  {
    RefundExact(s, k, actual, c);
    CredMoves(s, k, RefundStep(s, k, actual, pc), c);
  }

  lemma RefundKeeps(s: State, k: nat, actual: nat, pc: Pc, c: string, p: string, j: string)
    requires k < |s.callers| && HoldsCred(s.callers[k].pc) && !HoldsCred(pc)
    requires LedgerAt(s, k, c, p, j) && CredOk(s, s.callers[k].pc.req.cred)
    requires !pc.Idle? ==> pc.req == s.callers[k].pc.req
    requires HoldsProvider(pc) == HoldsProvider(s.callers[k].pc) && HoldsJob(pc) == HoldsJob(s.callers[k].pc)
    requires s.callers[k].pc.SawProvider? ==> Full(ProviderCap(s.callers[k].pc.req.provider), s.callers[k].pc.seen)
    requires s.callers[k].pc.SawJob? ==> Full(s.lim.maxJob, s.callers[k].pc.seen)
    requires CallerOk(Caller(pc, s.callers[k].granted, s.callers[k].returned + 1))
    requires !pc.SawProvider? && !pc.SawJob?
    ensures LedgerAt(RefundStep(s, k, actual, pc), k, c, p, j)
  {
    RefundCred(s, k, actual, pc, c);
    ProviderStays(s, k, RefundStep(s, k, actual, pc), p);
    JobStays(s, k, RefundStep(s, k, actual, pc), j);
  }

  lemma SeeProviderKeeps(s: State, k: nat, c: string, p: string, j: string)
    requires k < |s.callers| && s.callers[k].pc.GotCred? && LedgerAt(s, k, c, p, j)
    ensures LedgerAt(SeeProvider(s, k, s.callers[k].pc.req), k, c, p, j)
  {
    var r := SeeProvider(s, k, s.callers[k].pc.req);
    CredStays(s, k, r, c);
    JobStays(s, k, r, j);
    Moved(s, k, r, ProviderActive(p));
    Moved(s, k, r, ProviderGap(p));
    TotalAtMost(ProviderGap(p), r.lim, r.callers);
  }

  lemma SeeJobKeeps(s: State, k: nat, c: string, p: string, j: string)
    requires k < |s.callers| && s.callers[k].pc.GotProvider? && s.callers[k].pc.req.HasJob() && LedgerAt(s, k, c, p, j)
    ensures LedgerAt(SeeJob(s, k, s.callers[k].pc.req), k, c, p, j)
  {
    var r := SeeJob(s, k, s.callers[k].pc.req);
    CredStays(s, k, r, c);
    ProviderStays(s, k, r, p);
    Moved(s, k, r, JobActive(j));
    Moved(s, k, r, JobGap(j));
    TotalAtMost(JobGap(j), r.lim, r.callers);
  }

  lemma MoveProviderKeeps(s: State, k: nat, d: int, pc: Pc, c: string, p: string, j: string)
    requires k < |s.callers| && !s.callers[k].pc.Idle? && LedgerAt(s, k, c, p, j)
    requires !pc.Idle? ==> pc.req == s.callers[k].pc.req
    requires HoldsCred(pc) == HoldsCred(s.callers[k].pc) && !pc.SawProvider? && !pc.SawJob? && !s.callers[k].pc.SawJob?
    requires d == (if HoldsProvider(pc) then 1 else 0) - if HoldsProvider(s.callers[k].pc) then 1 else 0
    requires d == 1 ==>
               s.callers[k].pc.SawProvider? && !Full(ProviderCap(s.callers[k].pc.req.provider), s.callers[k].pc.seen)
    requires d != 1 ==> !s.callers[k].pc.SawProvider?
    requires HoldsJob(pc) == HoldsJob(s.callers[k].pc) && CallerOk(s.callers[k].(pc := pc))
    ensures LedgerAt(MoveProvider(s, k, s.callers[k].pc.req.provider, d, pc), k, c, p, j)
  {
    hide Total;
    var r := MoveProvider(s, k, s.callers[k].pc.req.provider, d, pc);
    CredStays(s, k, r, c);
    JobStays(s, k, r, j);
    Moved(s, k, r, ProviderActive(p));
    Moved(s, k, r, ProviderGap(p));
  }

  lemma MoveJobKeeps(s: State, k: nat, d: int, pc: Pc, c: string, p: string, j: string)
    requires k < |s.callers| && !s.callers[k].pc.Idle? && s.callers[k].pc.req.HasJob() && LedgerAt(s, k, c, p, j)
    requires !pc.Idle? ==> pc.req == s.callers[k].pc.req
    requires HoldsCred(pc) == HoldsCred(s.callers[k].pc) && !pc.SawProvider? && !pc.SawJob?
             && !s.callers[k].pc.SawProvider?
    requires d == (if HoldsJob(pc) then 1 else 0) - if HoldsJob(s.callers[k].pc) then 1 else 0
    requires d == 1 ==> s.callers[k].pc.SawJob? && !Full(s.lim.maxJob, s.callers[k].pc.seen)
    requires d != 1 ==> !s.callers[k].pc.SawJob?
    requires HoldsProvider(pc) == HoldsProvider(s.callers[k].pc) && CallerOk(s.callers[k].(pc := pc))
    ensures LedgerAt(MoveJob(s, k, s.callers[k].pc.req.job.value, d, pc), k, c, p, j)
  {
    hide Total;
    var r := MoveJob(s, k, s.callers[k].pc.req.job.value, d, pc);
    CredStays(s, k, r, c);
    ProviderStays(s, k, r, p);
    Moved(s, k, r, JobActive(j));
    Moved(s, k, r, JobGap(j));
  }

  lemma ReserveCommandKeeps(s: State, k: nat, c: string, p: string, j: string)
    requires k < |s.callers|
    requires LedgerAt(s, k, c, p, j) && (s.callers[k].pc.Idle? || CredOk(s, s.callers[k].pc.req.cred))
    ensures LedgerAt(ReserveCommand(s, k), k, c, p, j)
  {
    match s.callers[k].pc
    case GotCred(req) => SeeProviderKeeps(s, k, c, p, j);
    case SawProvider(req, seen) =>
      if Full(ProviderCap(req.provider), seen) {
        RefundKeeps(s, k, 0, Idle, c, p, j);
      } else {
        MoveProviderKeeps(s, k, 1, if req.HasJob() then GotProvider(req) else Held(req), c, p, j);
      }
    case GotProvider(req) => SeeJobKeeps(s, k, c, p, j);
    case SawJob(req, seen) =>
      if Full(s.lim.maxJob, seen) {
        RefundKeeps(s, k, 0, UndoProvider(req), c, p, j);
      } else {
        MoveJobKeeps(s, k, 1, Held(req), c, p, j);
      }
    case UndoProvider(req) => MoveProviderKeeps(s, k, -1, Idle, c, p, j);
    case _ =>
  }

  lemma ReadKeeps(s: State, k: nat, pc: Pc, c: string, p: string, j: string)
    requires k < |s.callers| && !s.callers[k].pc.Idle? && LedgerAt(s, k, c, p, j)
    requires !pc.Idle? && pc.req == s.callers[k].pc.req && CallerOk(s.callers[k].(pc := pc))
    requires !HoldsCred(pc) && !HoldsCred(s.callers[k].pc)
    requires HoldsProvider(pc) == HoldsProvider(s.callers[k].pc) && HoldsJob(pc) == HoldsJob(s.callers[k].pc)
    ensures LedgerAt(SetPc(s, k, pc), k, c, p, j)
  {
    CredStays(s, k, SetPc(s, k, pc), c);
    ProviderStays(s, k, SetPc(s, k, pc), p);
    JobStays(s, k, SetPc(s, k, pc), j);
  }

  lemma ReleaseCommandKeeps(s: State, k: nat, c: string, p: string, j: string)
    requires Ledger(s) && k < |s.callers|
    ensures LedgerAt(ReleaseCommand(s, k), k, c, p, j)
  {
    hide Total;
    assert LedgerAt(s, k, c, p, j);
    match s.callers[k].pc
    case GaveCred(req) =>
      assert ProviderOk(s, req.provider);
      TotalAtLeast(ProviderActive(req.provider), s.lim, s.callers, k);
      ReadKeeps(s, k, SawProviderBack(req, Get(s.db.provider, req.provider)), c, p, j);
    case SawProviderBack(req, seen) =>
      MoveProviderKeeps(s, k, -1, if req.HasJob() then GaveProvider(req) else Idle, c, p, j);
    case GaveProvider(req) =>
      assert JobOk(s, req.job.value);
      TotalAtLeast(JobActive(req.job.value), s.lim, s.callers, k);
      ReadKeeps(s, k, SawJobBack(req, Get(s.db.job, req.job.value)), c, p, j);
    case SawJobBack(req, seen) => MoveJobKeeps(s, k, -1, Idle, c, p, j);
    case _ =>
  }

  lemma JoinKeeps(s: State)
    requires Ledger(s)
    ensures Ledger(Next(s, Join))
  {
    var r := Next(s, Join);
    forall m ensures Total(m, r.lim, r.callers) == Total(m, s.lim, s.callers) {
      TotalAppend(m, s.lim, s.callers, Caller(Idle, 0, 0));
    }
    forall c ensures CredOk(r, c) { assert CredOk(s, c); }
    forall p ensures ProviderOk(r, p) { assert ProviderOk(s, p); }
    forall j ensures JobOk(r, j) { assert JobOk(s, j); }
  }

  /** A step of caller k keeps the ledger if it keeps it at every key. */
  lemma Assemble(s: State, k: nat, r: State)
    requires Ledger(s) && k < |s.callers| && Local(s, k, r)
    requires forall c, p, j :: LedgerAt(r, k, c, p, j)
    ensures Ledger(r)
  {
    forall c ensures CredOk(r, c) { assert LedgerAt(r, k, c, c, c); }
    forall p ensures ProviderOk(r, p) { assert LedgerAt(r, k, p, p, p); }
    forall j ensures JobOk(r, j) { assert LedgerAt(r, k, j, j, j); }
    assert LedgerAt(r, k, "", "", "");
  }

  lemma QuietKeeps(s: State, r: State)
    requires Ledger(s)
    requires r.lim == s.lim && r.callers == s.callers && r.spent == s.spent && r.overrun == s.overrun
    requires r.db == s.db.(cooldown := r.db.cooldown) && r.providerPeak == s.providerPeak && r.jobPeak == s.jobPeak
    ensures Ledger(r)
  {
    forall c ensures CredOk(r, c) { assert CredOk(s, c); }
    forall p ensures ProviderOk(r, p) { assert ProviderOk(s, p); }
    forall j ensures JobOk(r, j) { assert JobOk(s, j); }
  }

  lemma TpmExpiryKeeps(s: State, c: string)
    requires Ledger(s)
    ensures Ledger(Next(s, TpmExpires(c)))
  {
    hide ReserveCommand, ReleaseCommand, ReserveStep, RefundStep;
    var r := Next(s, TpmExpires(c));
    forall d ensures CredOk(r, d) { assert CredOk(s, d); }
    forall p ensures ProviderOk(r, p) { assert ProviderOk(s, p); }
    forall j ensures JobOk(r, j) { assert JobOk(s, j); }
  }

  lemma CallerStepKeeps(s: State, e: Event, k: nat)
    requires Ledger(s) && k < |s.callers| && Actor(e) == Some(k)
    ensures Ledger(Next(s, e))
  {
    var r := Next(s, e);
    assert CallerOk(s.callers[k]);
    forall c, p, j ensures LedgerAt(r, k, c, p, j) {
      assert LedgerAt(s, k, c, p, j);
      assert !s.callers[k].pc.Idle? ==> CredOk(s, s.callers[k].pc.req.cred);
      match e
      case Reserve(_, req, stamp) =>
        if s.callers[k].pc.Idle? && stamp <= s.now.Floor { ReserveKeeps(s, k, req, stamp, c, p, j); }
      case Proceed(_) => ReserveCommandKeeps(s, k, c, p, j);
      case Unwind(_) => ReleaseCommandKeeps(s, k, c, p, j);
      case Release(_, actual) =>
        if s.callers[k].pc.Held? { RefundKeeps(s, k, actual, GaveCred(s.callers[k].pc.req), c, p, j); }
    }
    Assemble(s, k, r);
  }

  lemma StepKeeps(s: State, e: Event)
    requires Ledger(s)
    ensures Ledger(Next(s, e))
  {
    match e
    case Reserve(k, _, _) => if k < |s.callers| { CallerStepKeeps(s, e, k); }
    case Proceed(k) => if k < |s.callers| { CallerStepKeeps(s, e, k); }
    case Unwind(k) => if k < |s.callers| { CallerStepKeeps(s, e, k); }
    case Release(k, _) => if k < |s.callers| { CallerStepKeeps(s, e, k); }
    case Tick(_) => QuietKeeps(s, Next(s, e));
    case SetCooldown(_, _) => QuietKeeps(s, Next(s, e));
    case ClearCooldown(_) => QuietKeeps(s, Next(s, e));
    case TpmExpires(c) => TpmExpiryKeeps(s, c);
    case Join => JoinKeeps(s);
  }

  /** Every interleaving of any number of callers keeps the ledger. */
  lemma {:induction false} RunKeepsLedger(lim: Limits, now: real, events: seq<Event>)
    ensures Ledger(Run(Start(lim, now), events))
    decreases |events|
  {
    var s := Start(lim, now);
    if events == [] {
      forall c ensures CredOk(s, c) {}
    } else {
      RunKeepsLedger(lim, now, events[..|events| - 1]);
      StepKeeps(Run(s, events[..|events| - 1]), events[|events| - 1]);
    }
  }

  lemma ReachableLedger(s: State)
    requires Reachable(s)
    ensures Ledger(s)
  {
    var now: real, events: seq<Event> :| s == Run(Start(s.lim, now), events);
    RunKeepsLedger(s.lim, now, events);
  }

  // ---------------------------------------------------------------------------
  // What a caller can rely on, in every reachable state
  // ---------------------------------------------------------------------------

  /** Nobody holds a slot and is about to take one. */
  lemma {:induction false} OneSlotEach(lim: Limits, callers: seq<Caller>, p: string, j: string)
    ensures Total(ProviderActive(p), lim, callers) + Total(ProviderGap(p), lim, callers) <= |callers|
    ensures Total(JobActive(j), lim, callers) + Total(JobGap(j), lim, callers) <= |callers|
  {
    if callers != [] {
      OneSlotEach(lim, callers[1..], p, j);
    }
  }

  /** The unlocked provider check overshoots by at most the callers that ever raced between GET and INCR;
      if they never raced, the cap is exact. */
  lemma ProviderOvershoot(s: State, p: string)
    requires Reachable(s)
    ensures Get(s.db.provider, p) + Total(ProviderGap(p), s.lim, s.callers) <= ProviderCap(p) - 1
            + Get(s.providerPeak, p)
    ensures Get(s.db.provider, p) + Total(ProviderGap(p), s.lim, s.callers) <= |s.callers|
    ensures Get(s.providerPeak, p) <= 1 ==> Get(s.db.provider, p) <= ProviderCap(p)
  {
    ReachableLedger(s);
    OneSlotEach(s.lim, s.callers, p, "");
    assert ProviderOk(s, p);
  }

  lemma JobOvershoot(s: State, j: string)
    requires Reachable(s) && s.lim.maxJob > 0
    ensures Get(s.db.job, j) + Total(JobGap(j), s.lim, s.callers) <= s.lim.maxJob - 1 + Get(s.jobPeak, j)
    ensures Get(s.db.job, j) + Total(JobGap(j), s.lim, s.callers) <= |s.callers|
    ensures Get(s.jobPeak, j) <= 1 ==> Get(s.db.job, j) <= s.lim.maxJob
  {
    ReachableLedger(s);
    OneSlotEach(s.lim, s.callers, "", j);
    assert JobOk(s, j);
  }

  /** The guard of the release script always passes, and its clamp to 0 never fires. */
  lemma ClampNeverFires(s: State, k: nat, actual: nat)
    requires Ledger(s) && k < |s.callers| && HoldsCred(s.callers[k].pc)
    ensures var req := s.callers[k].pc.req;
            Get(s.db.active, req.cred) > 0 && Get(s.db.tpm, req.cred) + (actual - req.est) >= 0
  {
    var req := s.callers[k].pc.req;
    assert CredOk(s, req.cred);
    TotalAtLeast(CredActive(req.cred), s.lim, s.callers, k);
    TotalAtLeast(CredTpm(req.cred), s.lim, s.callers, k);
  }

  /** `release` never finds a shared counter at 0 while it still holds the slot, so it skips no decrement. */
  lemma GuardsAlwaysPass(s: State, k: nat)
    requires Ledger(s) && k < |s.callers|
    ensures HoldsProvider(s.callers[k].pc) ==> Get(s.db.provider, s.callers[k].pc.req.provider) > 0
    ensures HoldsJob(s.callers[k].pc) ==> Get(s.db.job, s.callers[k].pc.req.job.value) > 0
    ensures s.callers[k].pc.SawProviderBack? || s.callers[k].pc.SawJobBack? ==> s.callers[k].pc.seen > 0
  {
    hide Total;
    var pc := s.callers[k].pc;
    assert CallerOk(s.callers[k]);
    if HoldsProvider(pc) {
      assert ProviderOk(s, pc.req.provider);
      TotalAtLeast(ProviderActive(pc.req.provider), s.lim, s.callers, k);
    }
    if HoldsJob(pc) {
      assert JobOk(s, pc.req.job.value);
      TotalAtLeast(JobActive(pc.req.job.value), s.lim, s.callers, k);
    }
  }

  /** A caller outside reserve and release has given back exactly what it was granted. */
  lemma ReleasedExactlyOnce(s: State, k: nat)
    requires Reachable(s) && k < |s.callers|
    ensures s.callers[k].pc.Idle? ==> s.callers[k].granted == s.callers[k].returned
    ensures s.callers[k].pc.Held? ==> s.callers[k].granted == s.callers[k].returned + 1
  {
    ReachableLedger(s);
    assert CallerOk(s.callers[k]);
  }

  /** If the tpm key lapses, the count stays right exactly when no estimate is outstanding. */
  lemma TpmLapse(s: State, c: string)
    requires Reachable(s)
    ensures CredOk(s.(db := s.db.(tpm := s.db.tpm - {c}), spent := s.spent - {c}, overrun := s.overrun - {c}), c)
       <==> Total(CredTpm(c), s.lim, s.callers) == 0
  {
    ReachableLedger(s);
    assert CredOk(s, c);
  }

  /** Between two states only caller `me` worked; of `tokens` it charged to `cred`, what `c` got. */
  ghost predicate OnlyMineAt(a: State, b: State, me: nat, cred: string, tokens: nat, c: string) {
    && me < |a.callers| == |b.callers| && b.lim == a.lim
    && b.callers == a.callers[me := b.callers[me]]
    && Get(b.spent, c) == Get(a.spent, c) + if c == cred then tokens else 0
  }

  /** Every counter is as it was, but for `tokens` more in the tpm count of `cred`. */
  ghost predicate CountersBack(a: State, b: State, cred: string, tokens: nat) {
    && (forall c :: Get(b.db.active, c) == Get(a.db.active, c))
    && (forall c :: Get(b.db.tpm, c) == Get(a.db.tpm, c) + if c == cred then tokens else 0)
    && (forall p :: Get(b.db.provider, p) == Get(a.db.provider, p))
    && (forall j :: Get(b.db.job, j) == Get(a.db.job, j))
  }

  /** A caller that was and is idle leaves every counter as it found it, but for the tokens it used. */
  lemma IdleLeavesNoTrace(a: State, b: State, me: nat, cred: string, tokens: nat)
    requires Reachable(a) && Reachable(b) && forall c :: OnlyMineAt(a, b, me, cred, tokens, c)
    requires me < |a.callers| == |b.callers| && a.callers[me].pc.Idle? && b.callers[me].pc.Idle?
    ensures CountersBack(a, b, cred, tokens)
  {
    ReachableLedger(a);
    ReachableLedger(b);
    assert OnlyMineAt(a, b, me, cred, tokens, "");
    forall c ensures Get(b.db.active, c) == Get(a.db.active, c)
                  && Get(b.db.tpm, c) == Get(a.db.tpm, c) + if c == cred then tokens else 0 {
      assert CredOk(a, c) && CredOk(b, c) && OnlyMineAt(a, b, me, cred, tokens, c);
      TotalUpdate(CredActive(c), a.lim, a.callers, me, b.callers[me]);
      TotalUpdate(CredTpm(c), a.lim, a.callers, me, b.callers[me]);
    }
    forall p ensures Get(b.db.provider, p) == Get(a.db.provider, p) {
      assert ProviderOk(a, p) && ProviderOk(b, p);
      TotalUpdate(ProviderActive(p), a.lim, a.callers, me, b.callers[me]);
    }
    forall j ensures Get(b.db.job, j) == Get(a.db.job, j) {
      assert JobOk(a, j) && JobOk(b, j);
      TotalUpdate(JobActive(j), a.lim, a.callers, me, b.callers[me]);
    }
  }
}
