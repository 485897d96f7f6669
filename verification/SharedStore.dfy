/**
 The shared Redis as one caller of the gateway sees it.  Before each of its
 commands the other callers, and the clock, do whatever `schedule` holds; every
 method below is then one atomic step of the protocol.
 */
module SharedStore {
  import opened LimiterProtocol
  import opened Options
  import opened LimiterCooldown
  import opened LimiterLedger
  import Breaker
  import BP = BreakerProtocol

  /** What somebody else does: a step of the limiter protocol, or one command on a circuit breaker. */
  datatype Action =
    | Limiter(e: Event)
    | ReadsCircuit(k: nat, key: string, signal: Breaker.Signal)
    | WritesCircuit(k: nat)

  /** What this caller does, in order. */
  datatype Op =
    | Checked(key: string, passed: bool)
    | Reserved(ok: bool)
    | CalledProvider
    | Succeeded(key: string)
    | Failed(key: string, force: bool)
    | GaveBack(actual: nat)
    | CooledDown(seconds: real)
    | Slept(seconds: real)

  predicate OnBreaker(op: Op) {
    op.Checked? || op.Succeeded? || op.Failed?
  }

  /** The breaker operations of a journal. */
  function OnBreakers(ops: seq<Op>): seq<Op> {
    if ops == [] then []
    else
      var n := |ops| - 1;
      OnBreakers(ops[..n]) + if OnBreaker(ops[n]) then [ops[n]] else []
  }

  /** How an operation of this caller on a breaker shows in its journal. */
  function OpOf(t: Breaker.Tuning, x: BP.Touch): Op {
    match x.event.signal
    case Check => Checked(x.key, Breaker.Passes(t, x.seen, x.event.time))
    case Success => Succeeded(x.key)
    case Failure(force) => Failed(x.key, force)
  }

  function OpsOf(t: Breaker.Tuning, touches: seq<BP.Touch>): (ops: seq<Op>)
    ensures |ops| == |touches| && forall i | 0 <= i < |ops| :: ops[i] == OpOf(t, touches[i])
  {
    if touches == [] then []
    else
      var n := |touches| - 1;
      OpsOf(t, touches[..n]) + [OpOf(t, touches[n])]
  }

  lemma OnBreakersOneMore(ops: seq<Op>, op: Op)
    ensures OnBreakers(ops + [op]) == OnBreakers(ops) + if OnBreaker(op) then [op] else []
  {
    assert (ops + [op])[..|ops|] == ops;
  }

  lemma OpsOfOneMore(t: Breaker.Tuning, touches: seq<BP.Touch>, x: BP.Touch)
    ensures OpsOf(t, touches + [x]) == OpsOf(t, touches) + [OpOf(t, x)]
  {
    assert (touches + [x])[..|touches|] == touches;
  }

  /** The commands `traffic` on the breakers `c0` leave `c`, and caller `me` did the operations `ops` among them. */
  ghost predicate Consistent(
    t: Breaker.Tuning, me: nat, c0: BP.Circuits, traffic: seq<BP.Move>, c: BP.Circuits, ops: seq<Op>)
  {
    && c == BP.Run(t, c0, traffic)
    && OnBreakers(ops) == OpsOf(t, BP.Touches(t, c0, traffic, me))
    && BP.InOrder(traffic)
  }

  /** No read of `traffic` is later than `m`, if that is one. */
  ghost predicate NotEarlier(traffic: seq<BP.Move>, m: BP.Move) {
    forall i | 0 <= i < |traffic| && traffic[i].Get? && m.Get? :: traffic[i].event.time <= m.event.time
  }

  lemma NothingHeard(t: Breaker.Tuning, me: nat, c: BP.Circuits)
    ensures Consistent(t, me, c, [], c, [])
  {
  }

  /** A command that is no read of this caller adds nothing to its operations. */
  lemma MoveHeard(
    t: Breaker.Tuning, me: nat, c0: BP.Circuits, traffic: seq<BP.Move>, c: BP.Circuits, ops: seq<Op>, m: BP.Move)
    requires Consistent(t, me, c0, traffic, c, ops) && NotEarlier(traffic, m) && (m.k != me || m.Put?)
    ensures Consistent(t, me, c0, traffic + [m], BP.Next(t, c, m), ops)
  {
    hide BP.Next, BP.Run, BP.Touches, OnBreakers, OpsOf;
    BP.RunGrows(t, c0, traffic, m);
    BP.TouchesGrow(t, c0, traffic, me, m);
    assert BP.Touches(t, c0, traffic, me) + [] == BP.Touches(t, c0, traffic, me);
  }

  lemma ReadHeard(
    t: Breaker.Tuning, me: nat, c0: BP.Circuits, traffic: seq<BP.Move>, c: BP.Circuits, ops: seq<Op>,
    key: string, e: Breaker.Event)
    requires Consistent(t, me, c0, traffic, c, ops) && NotEarlier(traffic, BP.Get(me, key, e)) && me !in c.pending
    ensures var m, op := BP.Get(me, key, e), OpOf(t, BP.Touch(key, BP.In(c, key), e));
            Consistent(t, me, c0, traffic + [m], BP.Next(t, c, m), ops + [op])
  {
    hide BP.Next, BP.Run, BP.Touches, OnBreakers, OpsOf;
    var m, x := BP.Get(me, key, e), BP.Touch(key, BP.In(c, key), e);
    BP.RunGrows(t, c0, traffic, m);
    BP.TouchesGrow(t, c0, traffic, me, m);
    OnBreakersOneMore(ops, OpOf(t, x));
    OpsOfOneMore(t, BP.Touches(t, c0, traffic, me), x);
  }

  lemma NoteHeard(
    t: Breaker.Tuning, me: nat, c0: BP.Circuits, traffic: seq<BP.Move>, c: BP.Circuits, ops: seq<Op>, op: Op)
    requires Consistent(t, me, c0, traffic, c, ops) && !OnBreaker(op)
    ensures Consistent(t, me, c0, traffic, c, ops + [op])
  {
    OnBreakersOneMore(ops, op);
    assert OnBreakers(ops) + [] == OnBreakers(ops);
  }

  // ---------------------------------------------------------------------------
  // The Lua scripts, command by command
  // ---------------------------------------------------------------------------

  /** The three increments, and the time to live of a fresh window. */
  method LuaCharge(lim: Limits, db0: Db, now: real, req: Req, rpm0: int, tpm: int, active: int) returns (db: Db)
    requires rpm0 == GetRpm(db0, req.cred, now) && tpm == Get(db0.tpm, req.cred) && active == Get(db0.active, req.cred)
    ensures db == Charge(lim, db0, now, req)
  {
    var rpm := rpm0 + 1;
    var expires := if rpm == 1 then now + lim.window as real else db0.rpm[req.cred].expires;
    db := db0.(rpm := db0.rpm[req.cred := RpmKey(rpm, expires)]);
    db := db.(tpm := db.tpm[req.cred := tpm + req.est]);
    db := db.(active := db.active[req.cred := active + 1]);
  }

  method LuaReserve(lim: Limits, db0: Db, now: real, req: Req, stamp: int) returns (reply: Reply, db: Db)
    ensures reply == Check(lim, db0, now, req, stamp)
    ensures db == if reply.Granted? then Charge(lim, db0, now, req) else db0
  {
    db := db0;
    var cooldown := GetCooldown(db, req.cred, now);
    if cooldown.Some? && cooldown.value > stamp {
      return Blocked("cooldown", cooldown.value), db;
    }
    var rpm := GetRpm(db, req.cred, now);
    if lim.maxRpm > 0 && rpm >= lim.maxRpm {
      return Blocked("rpm", rpm), db;
    }
    var tpm := Get(db.tpm, req.cred);
    if lim.maxTpm > 0 && tpm + req.est > lim.maxTpm {
      return Blocked("tpm", tpm), db;
    }
    var active := Get(db.active, req.cred);
    if lim.maxActive > 0 && active >= lim.maxActive {
      return Blocked("active", active), db;
    }
    db := LuaCharge(lim, db, now, req, rpm, tpm, active);
    reply := Granted;
  }

  function Bump(m: map<string, int>, k: string, d: int): map<string, int> {
    m[k := Get(m, k) + d]
  }

  /** DECR of the active counter, guarded. */
  method LuaDecrement(db0: Db, cred: string) returns (db: Db)
    ensures db == db0.(active := if Get(db0.active, cred) > 0 then Bump(db0.active, cred, -1) else db0.active)
  {
    db := db0;
    var cur := Get(db.active, cred);
    if cur > 0 {
      db := db.(active := db.active[cred := cur - 1]);
    }
  }

  method LuaRelease(db0: Db, cred: string, est: int, actual: int) returns (db: Db)
    ensures db == Refund(db0, cred, est, actual)
  {
    db := LuaDecrement(db0, cred);
    var delta := actual - est;
    if delta != 0 {
      var tpm := Get(db.tpm, cred) + delta;
      db := db.(tpm := db.tpm[cred := tpm]);
      if tpm < 0 {
        db := db.(tpm := db.tpm[cred := 0]);
      }
    }
  }

  // ---------------------------------------------------------------------------
  // The steps of one caller: each is one event of the protocol
  // ---------------------------------------------------------------------------

  /** Caller k took a step that charges `tokens` to `cred`. */
  ghost predicate Stepped(s: State, k: nat, r: State, cred: string, tokens: nat) {
    k < |s.callers| && Local(s, k, r) && r.spent == Credit(s.spent, cred, tokens) && Reachable(r)
  }

  method ReserveScript(s: State, k: nat, req: Req, stamp: int) returns (reply: Reply, r: State)
    requires Reachable(s) && k < |s.callers| && s.callers[k].pc.Idle? && stamp <= s.now.Floor
    ensures Stepped(s, k, r, req.cred, 0)
    ensures reply == Check(s.lim, s.db, s.now, req, stamp)
    ensures r.db == if reply.Granted? then Charge(s.lim, s.db, s.now, req) else s.db
    ensures r.callers[k].pc == if reply.Granted? then GotCred(req) else Idle
  {
    ReachableStep(s, Reserve(k, req, stamp));
    var db;
    reply, db := LuaReserve(s.lim, s.db, s.now, req, stamp);
    r := Next(s, Reserve(k, req, stamp)).(db := db);
  }

  /** Where the release script may run: at the end of a reservation, or to roll a denied one back. */
  predicate MayRefund(pc: Pc, lim: Limits, actual: nat) {
    || pc.Held?
    || (pc.SawProvider? && Full(ProviderCap(pc.req.provider), pc.seen) && actual == 0)
    || (pc.SawJob? && pc.req.HasJob() && Full(lim.maxJob, pc.seen) && actual == 0)
  }

  function AfterRefund(pc: Pc): Pc {
    match pc
    case Held(req) => GaveCred(req)
    case SawJob(req, _) => UndoProvider(req)
    case _ => Idle
  }

  lemma RefundIsStep(s: State, k: nat, actual: nat)
    requires Reachable(s) && k < |s.callers| && MayRefund(s.callers[k].pc, s.lim, actual)
    ensures Reachable(RefundStep(s, k, actual, AfterRefund(s.callers[k].pc)))
  {
    hide SeeJob, SeeProvider, MoveProvider, MoveJob, SetPc, ReserveStep, Total, Refund;
    var e := if s.callers[k].pc.Held? then Release(k, actual) else Proceed(k);
    ReachableStep(s, e);
    assert Next(s, e) == RefundStep(s, k, actual, AfterRefund(s.callers[k].pc));
  }

  method ReleaseScript(s: State, k: nat, req: Req, actual: nat) returns (r: State)
    requires Reachable(s) && k < |s.callers| && MayRefund(s.callers[k].pc, s.lim, actual) && s.callers[k].pc.req == req
    ensures Stepped(s, k, r, req.cred, actual)
    ensures r.db == Refund(s.db, req.cred, req.est, actual) && r.callers[k].pc == AfterRefund(s.callers[k].pc)
  {
    var db := LuaRelease(s.db, req.cred, req.est, actual);
    RefundIsStep(s, k, actual);
    r := RefundStep(s, k, actual, AfterRefund(s.callers[k].pc)).(db := db);
  }

  function AfterGetProvider(pc: Pc, cur: int): Pc {
    match pc
    case GotCred(req) => SawProvider(req, cur)
    case GaveCred(req) => SawProviderBack(req, cur)
    case _ => Idle
  }

  lemma ProviderReadIsStep(s: State, k: nat)
    requires Reachable(s) && k < |s.callers|
    ensures s.callers[k].pc.GotCred? ==> Reachable(SeeProvider(s, k, s.callers[k].pc.req))
    ensures s.callers[k].pc.GaveCred? ==>
              Reachable(SetPc(s, k, SawProviderBack(s.callers[k].pc.req,
                  Get(s.db.provider, s.callers[k].pc.req.provider))))
  {
    hide RefundStep, SeeJob, SeeProvider, MoveProvider, MoveJob, SetPc, ReserveStep, Total;
    ReachableStep(s, if s.callers[k].pc.GotCred? then Proceed(k) else Unwind(k));
  }

  method ReadProvider(s: State, k: nat) returns (cur: int, r: State)
    requires Reachable(s) && k < |s.callers| && (s.callers[k].pc.GotCred? || s.callers[k].pc.GaveCred?)
    ensures Stepped(s, k, r, "", 0) && cur == Get(s.db.provider, s.callers[k].pc.req.provider)
    ensures r.db == s.db && r.callers[k].pc == AfterGetProvider(s.callers[k].pc, cur)
  {
    cur := Get(s.db.provider, s.callers[k].pc.req.provider);
    ProviderReadIsStep(s, k);
    if s.callers[k].pc.GotCred? {
      r := SeeProvider(s, k, s.callers[k].pc.req);
    } else {
      r := SetPc(s, k, SawProviderBack(s.callers[k].pc.req, cur));
    }
  }

  /** INCR after a read below the cap; DECR after a rolled back job, or when a release saw the slot. */
  predicate MayMoveProvider(pc: Pc, d: int) {
    || (d == 1 && pc.SawProvider? && !Full(ProviderCap(pc.req.provider), pc.seen))
    || (d == -1 && (pc.UndoProvider? || (pc.SawProviderBack? && pc.seen > 0)))
  }

  function AfterMoveProvider(pc: Pc): Pc {
    match pc
    case SawProvider(req, _) => if req.HasJob() then GotProvider(req) else Held(req)
    case SawProviderBack(req, _) => if req.HasJob() then GaveProvider(req) else Idle
    case _ => Idle
  }

  lemma ProviderMoveIsStep(s: State, k: nat, d: int)
    requires Reachable(s) && k < |s.callers| && MayMoveProvider(s.callers[k].pc, d)
    ensures Reachable(MoveProvider(s, k, s.callers[k].pc.req.provider, d, AfterMoveProvider(s.callers[k].pc)))
  {
    hide RefundStep, SeeJob, SeeProvider, MoveProvider, MoveJob, SetPc, ReserveStep, Total;
    var e := if s.callers[k].pc.SawProviderBack? then Unwind(k) else Proceed(k);
    ReachableStep(s, e);
    assert Next(s, e) == MoveProvider(s, k, s.callers[k].pc.req.provider, d, AfterMoveProvider(s.callers[k].pc));
  }

  method BumpProvider(s: State, k: nat, d: int) returns (r: State)
    requires Reachable(s) && k < |s.callers| && MayMoveProvider(s.callers[k].pc, d)
    ensures Stepped(s, k, r, "", 0)
    ensures r.db == s.db.(provider := Bump(s.db.provider, s.callers[k].pc.req.provider, d))
    ensures r.callers[k].pc == AfterMoveProvider(s.callers[k].pc)
  {
    ProviderMoveIsStep(s, k, d);
    r := MoveProvider(s, k, s.callers[k].pc.req.provider, d, AfterMoveProvider(s.callers[k].pc));
  }

  function AfterGetJob(pc: Pc, cur: int): Pc {
    match pc
    case GotProvider(req) => SawJob(req, cur)
    case GaveProvider(req) => SawJobBack(req, cur)
    case _ => Idle
  }

  lemma JobReadIsStep(s: State, k: nat)
    requires Reachable(s) && k < |s.callers|
    ensures s.callers[k].pc.GotProvider? && s.callers[k].pc.req.HasJob() ==>
            Reachable(SeeJob(s, k, s.callers[k].pc.req))
    ensures s.callers[k].pc.GaveProvider? && s.callers[k].pc.req.HasJob() ==>
              Reachable(SetPc(s, k, SawJobBack(s.callers[k].pc.req, Get(s.db.job, s.callers[k].pc.req.job.value))))
  {
    hide RefundStep, SeeJob, SeeProvider, MoveProvider, MoveJob, SetPc, ReserveStep, Total, Reachable;
    ReachableStep(s, if s.callers[k].pc.GotProvider? then Proceed(k) else Unwind(k));
  }

  method ReadJob(s: State, k: nat) returns (cur: int, r: State)
    requires Reachable(s) && k < |s.callers|
    requires (s.callers[k].pc.GotProvider? || s.callers[k].pc.GaveProvider?) && s.callers[k].pc.req.HasJob()
    ensures Stepped(s, k, r, "", 0) && cur == Get(s.db.job, s.callers[k].pc.req.job.value)
    ensures r.db == s.db && r.callers[k].pc == AfterGetJob(s.callers[k].pc, cur)
  {
    hide Reachable, Total;
    cur := Get(s.db.job, s.callers[k].pc.req.job.value);
    JobReadIsStep(s, k);
    if s.callers[k].pc.GotProvider? {
      r := SeeJob(s, k, s.callers[k].pc.req);
    } else {
      r := SetPc(s, k, SawJobBack(s.callers[k].pc.req, cur));
    }
  }

  predicate MayMoveJob(pc: Pc, lim: Limits, d: int) {
    || (d == 1 && pc.SawJob? && pc.req.HasJob() && !Full(lim.maxJob, pc.seen))
    || (d == -1 && pc.SawJobBack? && pc.req.HasJob() && pc.seen > 0)
  }

  lemma JobMoveIsStep(s: State, k: nat, d: int)
    requires Reachable(s) && k < |s.callers| && MayMoveJob(s.callers[k].pc, s.lim, d)
    ensures var req := s.callers[k].pc.req;
            Reachable(MoveJob(s, k, req.job.value, d, if d == 1 then Held(req) else Idle))
  {
    hide RefundStep, SeeJob, SeeProvider, MoveProvider, MoveJob, SetPc, ReserveStep, Total;
    var e := if s.callers[k].pc.SawJobBack? then Unwind(k) else Proceed(k);
    ReachableStep(s, e);
    var req := s.callers[k].pc.req;
    assert Next(s, e) == MoveJob(s, k, req.job.value, d, if d == 1 then Held(req) else Idle);
  }

  method BumpJob(s: State, k: nat, d: int) returns (r: State)
    requires Reachable(s) && k < |s.callers| && MayMoveJob(s.callers[k].pc, s.lim, d)
    ensures Stepped(s, k, r, "", 0)
    ensures r.db == s.db.(job := Bump(s.db.job, s.callers[k].pc.req.job.value, d))
    ensures r.callers[k].pc == if d == 1 then Held(s.callers[k].pc.req) else Idle
  {
    JobMoveIsStep(s, k, d);
    r := MoveJob(s, k, s.callers[k].pc.req.job.value, d, if d == 1 then Held(s.callers[k].pc.req) else Idle);
  }

  /** SET with its time to live; false when Redis refuses it. */
  method PutCooldown(s: State, c: string, seconds: real) returns (ok: bool, r: State)
    requires Reachable(s)
    ensures Reachable(r) && ok == CooldownAccepted(seconds)
    ensures r == if ok then s.(db := s.db.(cooldown := s.db.cooldown[c := CooldownKey(s.now, seconds)])) else s
  {
    hide ReserveCommand, ReleaseCommand, ReserveStep, RefundStep, Total;
    ReachableStep(s, SetCooldown(c, seconds));
    var until := s.now.Floor + Trunc(seconds) + 2;
    var ex := Trunc(seconds) + 10;
    ok := ex > 0;
    r := s;
    if ok {
      r := s.(db := s.db.(cooldown := s.db.cooldown[c := Deadline(until, s.now + ex as real)]));
    }
  }

  class Store {
    const me: nat
    const tuning: Breaker.Tuning
    var s: State
    var circuits: BP.Circuits
    var schedule: seq<seq<Action>>
    var journal: seq<Op>

    // A mark to compare with later: the state, the breakers and the journal's length then,
    // whether anybody else is scheduled, the tokens this caller has charged to `account`
    // since, and every breaker command since, with the time of the latest read.
    ghost var markState: State
    ghost var markCircuits: BP.Circuits
    ghost var markJournal: nat
    ghost var alone: bool
    ghost var account: string
    ghost var charged: nat
    ghost var traffic: seq<BP.Move>
    ghost var latest: real

    // this caller has read a breaker record and not yet written it back
    ghost var awaiting: bool

    ghost predicate Valid()
      reads this
    {
      me < |s.callers| && (forall c :: Sound(c)) && forall n :: Heard(n)
    }

    /** The state is one an interleaving leads to, and if nobody else is scheduled, all that happened since the mark
        is this caller's work; at credential `c`. */
    ghost predicate Sound(c: string)
      reads this`s, this`schedule, this`markState, this`alone, this`account, this`charged, this`latest
    {
      && Reachable(s)
      && s.lim == markState.lim && markState.now <= latest <= s.now
      && (alone ==> schedule == [] && OnlyMineAt(markState, s, me, account, charged, c))
    }

    /** The breakers are what the commands since the mark make of them, command `n` came in time, and this caller's
        operations are those of its journal. */
    ghost predicate Heard(n: nat)
      reads this`circuits, this`journal, this`markCircuits, this`markJournal, this`alone, this`traffic, this`latest,
          this`awaiting
    {
      && markJournal <= |journal|
      && Consistent(tuning, me, markCircuits, traffic, circuits, journal[markJournal..])
      && (awaiting <==> me in circuits.pending)
      && (n < |traffic| ==> (traffic[n].Get? ==> traffic[n].event.time <= latest) && (alone ==> traffic[n].k == me))
    }

    lemma AtHand(c: string)
      requires Valid()
      ensures Sound(c)
    {
    }

    lemma Listened(n: nat)
      requires Valid()
      ensures Heard(n)
    {
    }

    function Pc(): Pc
      reads this
      requires me < |s.callers|
    {
      s.callers[me].pc
    }

    /** Others may have worked from `a` to `b`, but not as this caller. */
    ghost predicate Follows(a: State, b: State)
      reads this
    {
      && me < |a.callers| && me < |b.callers| && b.callers[me] == a.callers[me]
      && b.lim == a.lim && b.now >= a.now
      && (alone ==> b == a)
    }

    /** This caller went from `mid` to the present state. */
    ghost predicate Arrived(mid: State)
      reads this
    {
      me < |s.callers| && s.lim == mid.lim && s.now == mid.now
    }

    constructor (me: nat, tuning: Breaker.Tuning, s: State, circuits: BP.Circuits, schedule: seq<seq<Action>>)
      requires me < |s.callers| && Reachable(s) && me !in circuits.pending
      ensures Valid() && this.me == me && this.tuning == tuning && this.s == s
      ensures this.circuits == circuits && this.schedule == schedule && journal == [] && !awaiting
    {
      this.me, this.tuning, this.s, this.circuits, this.schedule, journal := me, tuning, s, circuits, schedule, [];
      markState, markCircuits, markJournal, alone, account, charged := s, circuits, 0, schedule == [], "", 0;
      traffic, latest, awaiting := [], s.now, false;
      new;
      NothingHeard(tuning, me, circuits);
      assert forall c :: Sound(c);
      assert forall n :: Heard(n);
    }

    ghost method Mark(account: string)
      requires Valid() && !awaiting
      modifies this`markState, this`markCircuits, this`markJournal, this`alone, this`account, this`charged
      modifies this`traffic, this`latest
      ensures Valid() && markState == s && markCircuits == circuits && markJournal == |journal| && charged == 0
      ensures alone == (schedule == []) && this.account == account && traffic == []
    {
      hide Reachable, Consistent;
      AtHand("");
      Listened(0);
      markState, markCircuits, markJournal, alone := s, circuits, |journal|, schedule == [];
      this.account, charged, traffic, latest := account, 0, [], s.now;
      NothingHeard(tuning, me, circuits);
      assert journal[markJournal..] == [];
      assert forall c :: Sound(c);
      assert forall n :: Heard(n);
    }

    lemma TimelyMove(m: BP.Move)
      requires Valid() && (m.Get? ==> m.event.time == s.now)
      ensures NotEarlier(traffic, m)
    {
      AtHand("");
      forall i | 0 <= i < |traffic| && traffic[i].Get? && m.Get? ensures traffic[i].event.time <= m.event.time {
        Listened(i);
      }
    }

    /** One command on a breaker by somebody else. */
    method OtherMoves(m: BP.Move)
      requires Valid() && !alone && m.k != me && (m.Get? ==> m.event.time == s.now)
      modifies this`circuits, this`traffic, this`latest
      ensures Valid() && KeepsMine(old(circuits))
    {
      hide Consistent, Reachable;
      AtHand("");
      Listened(0);
      TimelyMove(m);
      MoveHeard(tuning, me, markCircuits, traffic, circuits, journal[markJournal..], m);
      circuits := BP.Next(tuning, circuits, m);
      traffic, latest := traffic + [m], s.now;
      forall n ensures Heard(n) { assert old(Heard(n)); }
      forall c ensures Sound(c) { assert old(Sound(c)); }
    }

    /** What this caller is about to write is as it was in `before`. */
    ghost predicate KeepsMine(before: BP.Circuits)
      reads this`circuits
    {
      && (me in circuits.pending <==> me in before.pending)
      && (me in circuits.pending ==> circuits.pending[me] == before.pending[me])
    }

    method Apply(a: Action)
      requires Valid() && !alone
      modifies this`s, this`circuits, this`traffic, this`latest
      ensures Valid() && Follows(old(s), s) && KeepsMine(old(circuits))
    {
      AtHand("");
      match a {
        case Limiter(e) =>
          if Actor(e) != Some(me) {
            ReachableStep(s, e);
            StepFrame(s, e, me);
            s := Next(s, e);
            forall c ensures Sound(c) { assert old(Sound(c)); }
          }
        case ReadsCircuit(k, key, signal) =>
          if k != me {
            OtherMoves(BP.Get(k, key, Breaker.Event(signal, s.now)));
          }
        case WritesCircuit(k) =>
          if k != me {
            OtherMoves(BP.Put(k));
          }
      }
    }

    /** The others' turn. */
    method Interfere()
      requires Valid()
      modifies this`s, this`circuits, this`schedule, this`traffic, this`latest
      ensures Valid() && Follows(old(s), s) && KeepsMine(old(circuits))
      ensures alone ==> circuits == old(circuits)
    {
      AtHand("");
      if schedule != [] {
        var batch := schedule[0];
        schedule := schedule[1..];
        forall c ensures Sound(c) { assert old(Sound(c)); }
        for i := 0 to |batch|
          invariant Valid() && Follows(old(s), s) && KeepsMine(old(circuits))
        {
          Apply(batch[i]);
        }
      }
    }

    method Note(op: Op)
      requires Valid() && !OnBreaker(op)
      modifies this`journal
      ensures Valid() && journal == old(journal) + [op]
    {
      hide Consistent;
      Listened(0);
      ghost var since := journal[markJournal..];
      journal := journal + [op];
      assert journal[markJournal..] == since + [op];
      NoteHeard(tuning, me, markCircuits, traffic, circuits, since, op);
      forall n ensures Heard(n) { assert old(Heard(n)); }
    }

    /** This caller's own step to `r`. */
    method Become(r: State, tokens: nat)
      requires Valid() && Stepped(s, me, r, account, tokens) && (tokens > 0 ==> charged == 0)
      modifies this`s, this`charged
      ensures Valid() && s == r && charged == old(charged) + tokens
    {
      hide Reachable;
      AtHand("");
      s, charged := r, charged + tokens;
      forall c ensures Sound(c) { assert old(Sound(c)); }
    }

    // -------------------------------------------------------------------------
    // Breaker records
    // -------------------------------------------------------------------------

    /** GET of a breaker's record, for an operation that the journal shows from here on. */
    method ReadCircuit(key: string, signal: Breaker.Signal) returns (r: Breaker.Record)
      requires Valid() && !awaiting
      modifies this`s, this`circuits, this`schedule, this`traffic, this`latest, this`journal, this`awaiting
      ensures Valid() && Follows(old(s), s) && Read(key, signal, r)
      ensures journal == old(journal) + [OpOf(tuning, BP.Touch(key, r, Breaker.Event(signal, s.now)))]
    {
      Interfere();
      r := BP.In(circuits, key);
      Take(key, signal);
    }

    /** This caller has just read `r` and, if the operation writes, is about to write what it makes of it. */
    ghost predicate Read(key: string, signal: Breaker.Signal, r: Breaker.Record)
      reads this`circuits, this`awaiting, this`s
    {
      var e := Breaker.Event(signal, s.now);
      && awaiting == BP.WritesBack(tuning, r, e)
      && (awaiting ==> me in circuits.pending && circuits.pending[me] == BP.Pending(key, Breaker.After(tuning, r, e)))
    }

    method Take(key: string, signal: Breaker.Signal)
      requires Valid() && !awaiting
      modifies this`circuits, this`traffic, this`latest, this`journal, this`awaiting
      ensures Valid() && Read(key, signal, old(BP.In(circuits, key)))
      ensures var e := Breaker.Event(signal, s.now);
              journal == old(journal) + [OpOf(tuning, BP.Touch(key, old(BP.In(circuits, key)), e))]
    {
      hide Consistent, Reachable, Breaker.After;
      AtHand("");
      Listened(0);
      var r, e := BP.In(circuits, key), Breaker.Event(signal, s.now);
      var op := OpOf(tuning, BP.Touch(key, r, e));
      ghost var since := journal[markJournal..];
      TimelyMove(BP.Get(me, key, e));
      ReadHeard(tuning, me, markCircuits, traffic, circuits, since, key, e);
      circuits := BP.Next(tuning, circuits, BP.Get(me, key, e));
      journal := journal + [op];
      awaiting, traffic, latest := BP.WritesBack(tuning, r, e), traffic + [BP.Get(me, key, e)], s.now;
      assert journal[markJournal..] == since + [op];
      forall n ensures Heard(n) { assert old(Heard(n)); }
      forall c ensures Sound(c) { assert old(Sound(c)); }
    }

    /** SET of the record that was read and changed. */
    method WriteCircuit(key: string, r: Breaker.Record)
      requires Valid() && awaiting && me in circuits.pending && circuits.pending[me] == BP.Pending(key, r)
      modifies this`s, this`circuits, this`schedule, this`traffic, this`latest, this`awaiting
      ensures Valid() && Follows(old(s), s) && !awaiting
    {
      hide Consistent, Reachable;
      Interfere();
      Listened(0);
      TimelyMove(BP.Put(me));
      MoveHeard(tuning, me, markCircuits, traffic, circuits, journal[markJournal..], BP.Put(me));
      label L:
      circuits := BP.Circuits(circuits.records[key := r], circuits.pending - {me});
      awaiting, traffic := false, traffic + [BP.Put(me)];
      forall n ensures Heard(n) { assert old@L(Heard(n)); }
      forall c ensures Sound(c) { assert old@L(Sound(c)); }
    }

    // -------------------------------------------------------------------------
    // Scripts
    // -------------------------------------------------------------------------

    method RunReserve(req: Req, stamp: int) returns (reply: Reply, ghost mid: State)
      requires Valid() && Pc().Idle? && stamp <= s.now.Floor
      modifies this`s, this`circuits, this`schedule, this`traffic, this`latest, this`charged
      ensures Valid() && Follows(old(s), mid) && Arrived(mid) && charged == old(charged)
      ensures reply == Check(mid.lim, mid.db, mid.now, req, stamp)
      ensures s.db == if reply.Granted? then Charge(mid.lim, mid.db, mid.now, req) else mid.db
      ensures Pc() == if reply.Granted? then GotCred(req) else Idle
    {
      Interfere();
      mid := s;
      AtHand("");
      var r;
      reply, r := ReserveScript(s, me, req, stamp);
      Become(r, 0);
    }

    method RunRelease(req: Req, actual: nat) returns (ghost mid: State)
      requires Valid() && MayRefund(Pc(), s.lim, actual) && req == Pc().req && req.cred == account && charged == 0
      modifies this`s, this`circuits, this`schedule, this`traffic, this`latest, this`charged
      ensures Valid() && Follows(old(s), mid) && Arrived(mid) && charged == actual
      ensures s.db == Refund(mid.db, req.cred, req.est, actual) && Pc() == AfterRefund(old(Pc()))
    {
      Interfere();
      mid := s;
      AtHand("");
      var r := ReleaseScript(s, me, req, actual);
      Become(r, actual);
    }

    // -------------------------------------------------------------------------
    // Single commands
    // -------------------------------------------------------------------------

    method GetProvider(p: string) returns (cur: int, ghost mid: State)
      requires Valid() && (Pc().GotCred? || Pc().GaveCred?) && p == Pc().req.provider
      modifies this`s, this`circuits, this`schedule, this`traffic, this`latest, this`charged
      ensures Valid() && Follows(old(s), mid) && Arrived(mid) && charged == old(charged)
      ensures cur == Get(mid.db.provider, p) && s.db == mid.db && Pc() == AfterGetProvider(old(Pc()), cur)
    {
      Interfere();
      mid := s;
      AtHand("");
      var r;
      cur, r := ReadProvider(s, me);
      Become(r, 0);
    }

    method AddProvider(p: string, d: int) returns (ghost mid: State)
      requires Valid() && MayMoveProvider(Pc(), d) && p == Pc().req.provider
      modifies this`s, this`circuits, this`schedule, this`traffic, this`latest, this`charged
      ensures Valid() && Follows(old(s), mid) && Arrived(mid) && charged == old(charged)
      ensures s.db == mid.db.(provider := Bump(mid.db.provider, p, d)) && Pc() == AfterMoveProvider(old(Pc()))
    {
      Interfere();
      mid := s;
      AtHand("");
      var r := BumpProvider(s, me, d);
      Become(r, 0);
    }

    method GetJob(j: string) returns (cur: int, ghost mid: State)
      requires Valid() && (Pc().GotProvider? || Pc().GaveProvider?) && Pc().req.HasJob() && j == Pc().req.job.value
      modifies this`s, this`circuits, this`schedule, this`traffic, this`latest, this`charged
      ensures Valid() && Follows(old(s), mid) && Arrived(mid) && charged == old(charged)
      ensures cur == Get(mid.db.job, j) && s.db == mid.db && Pc() == AfterGetJob(old(Pc()), cur)
    {
      Interfere();
      mid := s;
      AtHand("");
      var r;
      cur, r := ReadJob(s, me);
      Become(r, 0);
    }

    method AddJob(j: string, d: int) returns (ghost mid: State)
      requires Valid() && MayMoveJob(Pc(), s.lim, d) && j == Pc().req.job.value
      modifies this`s, this`circuits, this`schedule, this`traffic, this`latest, this`charged
      ensures Valid() && Follows(old(s), mid) && Arrived(mid) && charged == old(charged)
      ensures s.db == mid.db.(job := Bump(mid.db.job, j, d)) && Pc() == if d == 1 then Held(old(Pc()).req) else Idle
    {
      Interfere();
      mid := s;
      AtHand("");
      var r := BumpJob(s, me, d);
      Become(r, 0);
    }

    // -------------------------------------------------------------------------
    // Cooldowns and time
    // -------------------------------------------------------------------------

    /** `set_cooldown`; false when Redis refuses the time to live. */
    method SetCooldownFor(c: string, seconds: real) returns (ok: bool, ghost mid: State)
      requires Valid()
      modifies this`s, this`circuits, this`schedule, this`traffic, this`latest, this`charged, this`journal
      ensures Valid() && Follows(old(s), mid) && Arrived(mid) && charged == old(charged)
      ensures Pc() == old(Pc()) && journal == old(journal) + [CooledDown(seconds)]
      ensures ok == CooldownAccepted(seconds)
      ensures s == if ok then mid.(db := mid.db.(cooldown := mid.db.cooldown[c := CooldownKey(mid.now, seconds)]))
              else mid
    {
      Interfere();
      mid := s;
      AtHand("");
      var r;
      ok, r := PutCooldown(s, c, seconds);
      Become(r, 0);
      Note(CooledDown(seconds));
    }

    /** `cooldown_remaining`, with the deadline it found. */
    method CooldownRemaining(c: string) returns (r: real, until: Option<int>)
      requires Valid()
      modifies this`s, this`circuits, this`schedule, this`traffic, this`latest
      ensures Valid() && Follows(old(s), s)
      ensures r == Remaining(s.db, c, s.now) && until == GetCooldown(s.db, c, s.now)
    {
      Interfere();
      until := GetCooldown(s.db, c, s.now);
      if until.None? {
        return 0.0, until;
      }
      var remaining := until.value as real - s.now;
      r := if remaining > 0.0 then remaining else 0.0;
    }

    /** Time passes for this caller; what the others do meanwhile comes with the next command. */
    method Elapse(seconds: real)
      requires Valid()
      modifies this`s
      ensures Valid() && Arrived(old(s).(now := s.now)) && s.now >= old(s).now + seconds && s.now >= old(s.now)
      ensures s == old(s).(now := s.now)
    {
      AtHand("");
      ReachableStep(s, Tick(seconds));
      s := Next(s, Tick(seconds));
      forall c ensures Sound(c) { assert old(Sound(c)); }
    }

    method Sleep(seconds: real)
      requires Valid()
      modifies this`s, this`journal
      ensures Valid() && s == old(s).(now := s.now) && s.now >= old(s).now + seconds && s.now >= old(s.now)
      ensures journal == old(journal) + [Slept(seconds)]
    {
      Elapse(seconds);
      Note(Slept(seconds));
    }
  }
}
