/**
 Which breaker hears of what: the outcomes of a call of `LLMGateway.complete`, told apart by whose fault they are,
 and what they make of the provider's and of the credential's record.
 */
module GatewayOutcomes {
  import opened Options
  import opened SharedStore
  import opened GatewayTrace
  import opened GatewayBreakers
  import opened Breaker
  import BP = BreakerProtocol
  import LimiterCooldown
  import opened Text

  // ---------------------------------------------------------------------------
  // Whose fault it was
  // ---------------------------------------------------------------------------

  /** The provider is down. */
  predicate Outage(a: Attempt) {
    a.Called? && a.outcome == Unavailable
  }

  /** The credential is in trouble: any other error that may go away, a permanent one, or a rate limit, but for one
      whose cooldown Redis refuses. */
  predicate Mishap(a: Attempt) {
    && a.Called?
    && match a.outcome
       case Transient => true
       case Permanent(invalidKey) => !invalidKey
       case RateLimited(None) => true
       case RateLimited(Some(seconds)) => seconds > -10.0
       case _ => false
  }

  predicate BadKey(a: Attempt) {
    a.Called? && a.outcome == Permanent(true)
  }

  predicate Answer(a: Attempt) {
    a.Called? && a.outcome.Ok?
  }

  /** What the provider's breaker hears of an attempt. */
  function ForProvider(a: Attempt): seq<Signal> {
    [Check] + if Outage(a) then [Failure(false)] else if Answer(a) then [Success] else []
  }

  /** What the credential's breaker hears of an attempt; it is not asked when the provider's turned the call away. */
  function ForCredential(a: Attempt): seq<Signal> {
    if a == Rejected(true) then []
    else
      [Check] +
      if BadKey(a) then [Failure(true)]
      else if Mishap(a) then [Failure(false)]
      else if Answer(a) then [Success]
      else []
  }

  function OverTrace(of: Attempt -> seq<Signal>, trace: seq<Attempt>): seq<Signal> {
    if trace == [] then [] else OverTrace(of, trace[..|trace| - 1]) + of(trace[|trace| - 1])
  }

  // ---------------------------------------------------------------------------
  // From the journal to the breakers
  // ---------------------------------------------------------------------------

  function SignalOf(op: Op): Signal
    requires OnBreaker(op)
  {
    match op
    case Checked(_, _) => Check
    case Succeeded(_) => Success
    case Failed(_, force) => Failure(force)
  }

  /** What a journal tells one breaker. */
  function Heard(key: string, ops: seq<Op>): seq<Signal> {
    if ops == [] then []
    else
      var n := |ops| - 1;
      Heard(key, ops[..n]) + if OnBreaker(ops[n]) && ops[n].key == key then [SignalOf(ops[n])] else []
  }

  function Signals(history: seq<Event>): seq<Signal> {
    seq(|history|, i requires 0 <= i < |history| => history[i].signal)
  }

  lemma {:induction false} HeardOfBoth(key: string, a: seq<Op>, b: seq<Op>)
    ensures Heard(key, a + b) == Heard(key, a) + Heard(key, b)
  {
    if b == [] {
      assert a + b == a && Heard(key, a) + [] == Heard(key, a);
    } else {
      var n := |b| - 1;
      assert (a + b)[..|a + b| - 1] == a + b[..n];
      HeardOfBoth(key, a, b[..n]);
    }
  }

  function HeardOnce(key: string, op: Op): seq<Signal> {
    if OnBreaker(op) && op.key == key then [SignalOf(op)] else []
  }

  lemma {:induction false} HeardOfFew(key: string, ops: seq<Op>)
    ensures |ops| == 1 ==> Heard(key, ops) == HeardOnce(key, ops[0])
    ensures |ops| == 2 ==> Heard(key, ops) == HeardOnce(key, ops[0]) + HeardOnce(key, ops[1])
    ensures |ops| == 3 ==>
              Heard(key, ops) == HeardOnce(key, ops[0]) + HeardOnce(key, ops[1]) + HeardOnce(key, ops[2])
  {
    if |ops| == 1 {
      assert ops[..0] == [];
    } else if |ops| == 2 || |ops| == 3 {
      HeardOfFew(key, ops[..|ops| - 1]);
    }
  }

  lemma {:induction false} BreakersHearAll(key: string, ops: seq<Op>)
    ensures Heard(key, OnBreakers(ops)) == Heard(key, ops)
  {
    if ops != [] {
      var n := |ops| - 1;
      BreakersHearAll(key, ops[..n]);
      if OnBreaker(ops[n]) {
        HeardOfBoth(key, OnBreakers(ops[..n]), [ops[n]]);
        HeardOfFew(key, [ops[n]]);
      } else {
        assert OnBreakers(ops[..n]) + [] == OnBreakers(ops[..n]);
      }
    }
  }

  lemma SignalsGrow(history: seq<Event>, e: Event)
    ensures Signals(history + [e]) == Signals(history) + [e.signal]
  {
  }

  lemma OneOperationHeard(t: Tuning, key: string, x: BP.Touch)
    ensures Heard(key, [OpOf(t, x)]) == if x.key == key then [x.event.signal] else []
  {
    HeardOfFew(key, [OpOf(t, x)]);
  }

  lemma {:induction false} HeardIsRecorded(t: Tuning, key: string, touches: seq<BP.Touch>)
    ensures Heard(key, OpsOf(t, touches)) == Signals(BP.EventsFor(key, touches))
  {
    if touches != [] {
      hide Heard, Signals, OpOf;
      var n := |touches| - 1;
      HeardIsRecorded(t, key, touches[..n]);
      HeardOfBoth(key, OpsOf(t, touches[..n]), [OpOf(t, touches[n])]);
      OneOperationHeard(t, key, touches[n]);
      var before := BP.EventsFor(key, touches[..n]);
      SignalsGrow(before, touches[n].event);
      assert before + [] == before && Signals(before) + [] == Signals(before);
    }
  }

  /** Settling a call tells each breaker what is its own. */
  lemma SettlementHeard(c: Call, outcome: Outcome, key: string)
    requires c.providerKey != c.credKey
    ensures var a, heard := Called(outcome, 0.0), Heard(key, Settlement(c, outcome));
            && (key == c.providerKey ==> [Check] + heard == ForProvider(a))
            && (key == c.credKey ==> [Check] + heard == ForCredential(a))
            && (key != c.providerKey && key != c.credKey ==> heard == [])
  {
    hide Heard;
    HeardOfFew(key, Settlement(c, outcome));
  }

  lemma ChecksHeard(c: Call, key: string)
    requires c.providerKey != c.credKey
    ensures Heard(key, Checks(c)) == if key == c.providerKey || key == c.credKey then [Check] else []
  {
    HeardOfFew(key, Checks(c));
  }

  lemma {:induction false} CallHeard(c: Call, outcome: Outcome, key: string) returns (heard: seq<Signal>)
    requires c.providerKey != c.credKey
    ensures heard == Heard(key, Settlement(c, outcome))
    ensures Heard(key, Checks(c) + [Reserved(true), CalledProvider] + Settlement(c, outcome))
         == if key == c.providerKey || key == c.credKey then [Check] + heard else heard
  {
    hide Heard, Checks, Settlement;
    heard := Heard(key, Settlement(c, outcome));
    ChecksHeard(c, key);
    HeardOfFew(key, [Reserved(true), CalledProvider]);
    HeardOfBoth(key, Checks(c), [Reserved(true), CalledProvider]);
    HeardOfBoth(key, Checks(c) + [Reserved(true), CalledProvider], Settlement(c, outcome));
  }

  lemma {:induction false} AttemptHeard(c: Call, a: Attempt, key: string)
    requires c.providerKey != c.credKey
    ensures key == c.providerKey ==> Heard(key, Acts(c, a)) == ForProvider(a)
    ensures key == c.credKey ==> Heard(key, Acts(c, a)) == ForCredential(a)
    ensures key != c.providerKey && key != c.credKey ==> Heard(key, Acts(c, a)) == []
  {
    hide Heard, Checks, Settlement;
    match a
    case Rejected(_) => HeardOfFew(key, Acts(c, a));
    case Denied(_, _, _, _, _) =>
      ChecksHeard(c, key);
      HeardOfFew(key, [Reserved(false)]);
      HeardOfBoth(key, Checks(c), [Reserved(false)]);
    case Called(outcome, _) =>
      var heard := CallHeard(c, outcome, key);
      SettlementHeard(c, outcome, key);
  }

  lemma {:induction false} ScriptHeard(c: Call, trace: seq<Attempt>, key: string)
    requires c.providerKey != c.credKey
    ensures key == c.providerKey ==> Heard(key, Script(c, trace)) == OverTrace(ForProvider, trace)
    ensures key == c.credKey ==> Heard(key, Script(c, trace)) == OverTrace(ForCredential, trace)
    ensures key != c.providerKey && key != c.credKey ==> Heard(key, Script(c, trace)) == []
  {
    if trace != [] {
      hide Heard, Acts, ForProvider, ForCredential;
      var n := |trace| - 1;
      var before, acts, pause := Script(c, trace[..n]), Acts(c, trace[n]), Pause(c, trace[n], n);
      ScriptHeard(c, trace[..n], key);
      AttemptHeard(c, trace[n], key);
      PauseUnheard(c, trace[n], n, key);
      HeardOfBoth(key, before, acts);
      HeardOfBoth(key, before + acts, pause);
    } else {
      HeardNothing(key);
    }
  }

  lemma HeardNothing(key: string)
    ensures Heard(key, []) == []
  {
  }

  lemma PauseUnheard(c: Call, a: Attempt, n: nat, key: string)
    ensures Heard(key, Pause(c, a, n)) == []
  {
    HeardOfFew(key, Pause(c, a, n));
  }

  /** A call's own operations on a breaker are those of its attempts, in order, and none on any other breaker; this
      holds whoever else is at work. */
  lemma OwnHistory(
    t: Tuning, c0: BP.Circuits, traffic: seq<BP.Move>, me: nat, c: Call, trace: seq<Attempt>, to: real, key: string)
    requires Accounted(t, c0, traffic, me, c, trace, to) && c.providerKey != c.credKey
    ensures var own := Signals(BP.EventsFor(key, BP.Touches(t, c0, traffic, me)));
            && (key == c.providerKey ==> own == OverTrace(ForProvider, trace))
            && (key == c.credKey ==> own == OverTrace(ForCredential, trace))
            && (key != c.providerKey && key != c.credKey ==> own == [])
  {
    hide *;
    AsTheScript(t, c0, traffic, me, c, trace, to);
    BreakersHearAll(key, Script(c, trace));
    ScriptHeard(c, trace, key);
    HeardIsRecorded(t, key, BP.Touches(t, c0, traffic, me));
  }

  lemma AsTheScript(
    t: Tuning, c0: BP.Circuits, traffic: seq<BP.Move>, me: nat, c: Call, trace: seq<Attempt>, to: real)
    requires Accounted(t, c0, traffic, me, c, trace, to)
    ensures OnBreakers(Script(c, trace)) == OpsOf(t, BP.Touches(t, c0, traffic, me))
  {
  }

  // ---------------------------------------------------------------------------
  // How often
  // ---------------------------------------------------------------------------

  function HowMany(p: Attempt -> bool, trace: seq<Attempt>): nat {
    if trace == [] then 0 else HowMany(p, trace[..|trace| - 1]) + if p(trace[|trace| - 1]) then 1 else 0
  }

  /** A record of an outcome is one signal to one breaker. */
  lemma {:induction false} HeardAsOften(ops: seq<Op>, op: Op)
    requires op.Succeeded? || op.Failed?
    ensures multiset(ops)[op] == multiset(Heard(op.key, ops))[SignalOf(op)]
  {
    if ops != [] {
      hide Heard;
      var n := |ops| - 1;
      HeardAsOften(ops[..n], op);
      assert ops == ops[..n] + [ops[n]];
      HeardOfBoth(op.key, ops[..n], [ops[n]]);
      OneAsOften(ops[n], op);
    } else {
      HeardNothing(op.key);
    }
  }

  lemma OneAsOften(x: Op, op: Op)
    requires op.Succeeded? || op.Failed?
    ensures multiset([x])[op] == multiset(Heard(op.key, [x]))[SignalOf(op)]
  {
    HeardOfFew(op.key, [x]);
  }

  lemma {:induction false} Telling(trace: seq<Attempt>)
    ensures var heard := multiset(OverTrace(ForProvider, trace));
            && heard[Failure(false)] == HowMany(Outage, trace) && heard[Failure(true)] == 0
            && heard[Success] == HowMany(Answer, trace)
    ensures var heard := multiset(OverTrace(ForCredential, trace));
            && heard[Failure(false)] == HowMany(Mishap, trace) && heard[Failure(true)] == HowMany(BadKey, trace)
            && heard[Success] == HowMany(Answer, trace)
  {
    if trace != [] {
      hide Outage, Mishap, BadKey, Answer;
      Telling(trace[..|trace| - 1]);
      Excluding(trace[|trace| - 1]);
    }
  }

  lemma Excluding(a: Attempt)
    ensures !(Outage(a) && Answer(a)) && !(Mishap(a) && Answer(a)) && !(BadKey(a) && (Mishap(a) || Answer(a)))
    ensures Outage(a) || Mishap(a) || BadKey(a) || Answer(a) ==> a != Rejected(true)
  {
  }

  /** The provider's breaker is told of the outages and never forced; the credential's of everything that is its own
      fault, and forced exactly for an invalid key; each answer counts as a success for both; and nothing is recorded
      on any other breaker. */
  lemma RecordedOnce(c: Call, trace: seq<Attempt>)
    requires c.providerKey != c.credKey
    ensures var ops := multiset(Script(c, trace));
            && ops[Failed(c.providerKey, false)] == HowMany(Outage, trace)
            && ops[Failed(c.providerKey, true)] == 0
            && ops[Failed(c.credKey, false)] == HowMany(Mishap, trace)
            && ops[Failed(c.credKey, true)] == HowMany(BadKey, trace)
            && ops[Succeeded(c.providerKey)] == ops[Succeeded(c.credKey)] == HowMany(Answer, trace)
    ensures forall op | op in Script(c, trace) && OnBreaker(op) :: op.key == c.providerKey || op.key == c.credKey
  {
    hide Script, Heard, OverTrace, HowMany;
    var ops := Script(c, trace);
    ScriptHeard(c, trace, c.providerKey);
    ScriptHeard(c, trace, c.credKey);
    Telling(trace);
    HeardAsOften(ops, Failed(c.providerKey, false));
    HeardAsOften(ops, Failed(c.providerKey, true));
    HeardAsOften(ops, Failed(c.credKey, false));
    HeardAsOften(ops, Failed(c.credKey, true));
    HeardAsOften(ops, Succeeded(c.providerKey));
    HeardAsOften(ops, Succeeded(c.credKey));
    forall op | op in ops && OnBreaker(op) ensures op.key == c.providerKey || op.key == c.credKey {
      ScriptHeard(c, trace, op.key);
      HeardIf(ops, op);
    }
  }

  lemma {:induction false} HeardIf(ops: seq<Op>, op: Op)
    requires op in ops && OnBreaker(op)
    ensures Heard(op.key, ops) != []
  {
    var n := |ops| - 1;
    if ops[n] != op {
      assert ops == ops[..n] + [ops[n]];
      HeardIf(ops[..n], op);
    }
  }

  // ---------------------------------------------------------------------------
  // What it makes of the records
  // ---------------------------------------------------------------------------

  /** The record after these signals, at whatever times. */
  lemma {:induction false} OutagesOpen(t: Tuning, r: Record, history: seq<Event>, trace: seq<Attempt>)
    requires r.state == Closed && (forall i | 0 <= i < |trace| :: Outage(trace[i]))
    requires Signals(history) == OverTrace(ForProvider, trace)
    ensures var after := Replay(t, r, history);
            && after.failures == r.failures + |trace|
            && (trace != [] && after.failures >= t.threshold ==> after.state == Open)
            && (after.failures < t.threshold || trace == [] ==> after.state == Closed)
  {
    if trace == [] {
      assert Signals(history) == [];
    } else {
      var n := |trace| - 1;
      assert |history| == |OverTrace(ForProvider, trace[..n])| + 2;
      var k := |history| - 2;
      assert Signals(history[..k]) == Signals(history)[..k];
      OutagesOpen(t, r, history[..k], trace[..n]);
      assert Signals(history)[k] == Check && Signals(history)[k + 1] == Failure(false);
      assert history[..k + 1][..k] == history[..k];
    }
  }

  /** Checks alone leave a breaker that is not OPEN as it is. */
  lemma {:induction false} ChecksAlone(t: Tuning, r: Record, history: seq<Event>)
    requires r.state != Open && (forall i | 0 <= i < |history| :: history[i].signal == Check)
    ensures Replay(t, r, history) == r
  {
    if history != [] {
      ChecksAlone(t, r, history[..|history| - 1]);
    }
  }

  lemma {:induction false} OnlyChecked(of: Attempt -> seq<Signal>, trace: seq<Attempt>, i: nat)
    requires forall k | 0 <= k < |trace| :: of(trace[k]) == [Check] || of(trace[k]) == []
    requires i < |OverTrace(of, trace)|
    ensures OverTrace(of, trace)[i] == Check
  {
    if i < |OverTrace(of, trace[..|trace| - 1])| {
      OnlyChecked(of, trace[..|trace| - 1], i);
    }
  }

  /** A breaker that hears nothing of the attempts but checks stays as it is. */
  lemma Unaffected(t: Tuning, r: Record, history: seq<Event>, of: Attempt -> seq<Signal>, trace: seq<Attempt>)
    requires r.state != Open && Signals(history) == OverTrace(of, trace)
    requires forall k | 0 <= k < |trace| :: of(trace[k]) == [Check] || of(trace[k]) == []
    ensures Replay(t, r, history) == r
  {
    hide OverTrace, Replay;
    forall i | 0 <= i < |history| ensures history[i].signal == Check {
      OnlyChecked(of, trace, i);
      assert Signals(history)[i] == history[i].signal;
    }
    ChecksAlone(t, r, history);
  }

  /** An outage condemns the provider and not the credential: with nobody else at work, a call all of whose attempts
      find the provider down leaves the provider's breaker OPEN exactly if its failures have reached the threshold,
      and the credential's record as it was. */
  lemma OutageOpensTheProvider(
    t: Tuning, c0: BP.Circuits, traffic: seq<BP.Move>, me: nat, c: Call, trace: seq<Attempt>, to: real)
    requires Accounted(t, c0, traffic, me, c, trace, to) && c.providerKey != c.credKey
    requires OnlyBy(traffic, me) && me !in c0.pending && me !in BP.Run(t, c0, traffic).pending
    requires trace != [] && forall i | 0 <= i < |trace| :: Outage(trace[i])
    requires BP.In(c0, c.providerKey).state == Closed && BP.In(c0, c.credKey).state == Closed
    ensures var after := BP.Run(t, c0, traffic);
            && (BP.In(after, c.providerKey).state == Open <==>
                  BP.In(c0, c.providerKey).failures + |trace| >= t.threshold)
            && BP.In(after, c.providerKey).state != HalfOpen
            && BP.In(after, c.credKey) == BP.In(c0, c.credKey)
  {
    hide *;
    var touches := BP.Touches(t, c0, traffic, me);
    Alone(t, c0, traffic, me, c.providerKey);
    Alone(t, c0, traffic, me, c.credKey);
    OwnHistory(t, c0, traffic, me, c, trace, to, c.providerKey);
    OwnHistory(t, c0, traffic, me, c, trace, to, c.credKey);
    OutagesOpen(t, BP.In(c0, c.providerKey), BP.EventsFor(c.providerKey, touches), trace);
    forall k | 0 <= k < |trace| ensures ForCredential(trace[k]) == [Check] {
      OutageForCredential(trace[k]);
    }
    Unaffected(t, BP.In(c0, c.credKey), BP.EventsFor(c.credKey, touches), ForCredential, trace);
  }

  lemma OutageForCredential(a: Attempt)
    requires Outage(a)
    ensures ForCredential(a) == [Check]
  {
  }

  lemma Alone(t: Tuning, c0: BP.Circuits, traffic: seq<BP.Move>, me: nat, key: string)
    requires OnlyBy(traffic, me) && me !in c0.pending && me !in BP.Run(t, c0, traffic).pending
    ensures BP.In(BP.Run(t, c0, traffic), key)
         == Replay(t, BP.In(c0, key), BP.EventsFor(key, BP.Touches(t, c0, traffic, me)))
  {
    hide BP.Run, Replay, BP.Touches, BP.EventsFor, BP.In;
    BP.AloneReplays(t, c0, traffic, me, key);
  }

  lemma {:induction false} ForcedOpen(t: Tuning, r: Record, history: seq<Event>, trace: seq<Attempt>)
    requires trace != [] && BadKey(trace[|trace| - 1]) && Signals(history) == OverTrace(ForCredential, trace)
    ensures Replay(t, r, history).state == Open
  {
    var k := |history| - 1;
    assert OverTrace(ForCredential, trace) == OverTrace(ForCredential, trace[..|trace| - 1]) + [Check, Failure(true)];
    assert Signals(history)[k] == Failure(true);
  }

  lemma InnocentProvider(a: Attempt)
    requires !Outage(a) && !Answer(a)
    ensures ForProvider(a) == [Check]
  {
  }

  /** A bad key condemns the credential and not the provider: with nobody else at work, a call that ends with an
      invalid key leaves the credential's breaker OPEN whatever it was before, and a provider's record that was not
      OPEN as it was, unless some attempt found the provider down. */
  lemma BadKeyOpensTheCredential(
    t: Tuning, c0: BP.Circuits, traffic: seq<BP.Move>, me: nat, c: Call, trace: seq<Attempt>, to: real)
    requires Accounted(t, c0, traffic, me, c, trace, to) && c.providerKey != c.credKey && Stopped(c, trace)
    requires OnlyBy(traffic, me) && me !in c0.pending && me !in BP.Run(t, c0, traffic).pending
    requires trace != [] && BadKey(trace[|trace| - 1])
    ensures var after := BP.Run(t, c0, traffic);
            && BP.In(after, c.credKey).state == Open
            && (BP.In(c0, c.providerKey).state != Open && (forall i | 0 <= i < |trace| :: !Outage(trace[i])) ==>
                  BP.In(after, c.providerKey) == BP.In(c0, c.providerKey))
  {
    hide *;
    var touches := BP.Touches(t, c0, traffic, me);
    Alone(t, c0, traffic, me, c.providerKey);
    Alone(t, c0, traffic, me, c.credKey);
    OwnHistory(t, c0, traffic, me, c, trace, to, c.providerKey);
    OwnHistory(t, c0, traffic, me, c, trace, to, c.credKey);
    ForcedOpen(t, BP.In(c0, c.credKey), BP.EventsFor(c.credKey, touches), trace);
    if BP.In(c0, c.providerKey).state != Open && forall i | 0 <= i < |trace| :: !Outage(trace[i]) {
      forall k | 0 <= k < |trace| ensures ForProvider(trace[k]) == [Check] {
        NoAnswerBefore(c, trace, k);
        InnocentProvider(trace[k]);
      }
      Unaffected(t, BP.In(c0, c.providerKey), BP.EventsFor(c.providerKey, touches), ForProvider, trace);
    }
  }

  lemma NoAnswerBefore(c: Call, trace: seq<Attempt>, k: nat)
    requires Stopped(c, trace) && k < |trace| && BadKey(trace[|trace| - 1])
    ensures !Answer(trace[k])
  {
    assert k < |trace| - 1 ==> Retries(trace[k]);
  }

  // ---------------------------------------------------------------------------
  // How long a call goes on, and how it ends
  // ---------------------------------------------------------------------------

  /** Worth another attempt: no room, the provider down, or a trouble of the credential that is not permanent. */
  predicate Passing(a: Attempt) {
    a.Denied? || Outage(a) || (Mishap(a) && !a.outcome.Permanent?)
  }

  /** Another attempt follows exactly if this one is worth it and the limit is not reached. */
  lemma GoesRoundIff(c: Call, trace: seq<Attempt>, result: Result, i: nat)
    requires GatewayTrace.Complete(c, trace, result) && i < |trace|
    ensures i + 1 < |trace| <==> i < c.maxRetries && Passing(trace[i])
  {
    assert i + 1 < |trace| ==> Retries(trace[i]);
    WorthAnother(trace[i]);
  }

  lemma WorthAnother(a: Attempt)
    ensures Retries(a) <==> Passing(a)
  {
    if a.Called? && a.outcome.RateLimited? && a.outcome.retryAfter.Some? {
      LimiterCooldown.AcceptedIff(a.outcome.retryAfter.value);
    }
  }

  /** Which jitter an attempt may have. */
  lemma JitterIff(a: Attempt)
    requires !a.Rejected?
    ensures JitterOk(a) <==>
              0.5 <= a.jitter <= if a.Called? && a.outcome.RateLimited? && a.outcome.retryAfter.Some? then 2.0 else 1.5
  {
  }

  /** The cooldowns that a journal sets, in order. */
  function Rests(ops: seq<Op>): seq<real> {
    if ops == [] then []
    else
      var n := |ops| - 1;
      Rests(ops[..n]) + if ops[n].CooledDown? then [ops[n].seconds] else []
  }

  /** The rest that an attempt was told to take. */
  function RestAsked(a: Attempt): seq<real> {
    match a
    case Called(RateLimited(Some(seconds)), _) => if seconds != 0.0 then [seconds] else []
    case _ => []
  }

  function RestsAsked(trace: seq<Attempt>): seq<real> {
    if trace == [] then [] else RestsAsked(trace[..|trace| - 1]) + RestAsked(trace[|trace| - 1])
  }

  lemma {:induction false} RestsOfBoth(a: seq<Op>, b: seq<Op>)
    ensures Rests(a + b) == Rests(a) + Rests(b)
  {
    if b == [] {
      assert a + b == a && Rests(a) + [] == Rests(a);
    } else {
      var n := |b| - 1;
      assert (a + b)[..|a + b| - 1] == a + b[..n];
      RestsOfBoth(a, b[..n]);
    }
  }

  lemma {:induction false} NoRest(ops: seq<Op>)
    requires forall i | 0 <= i < |ops| :: !ops[i].CooledDown?
    ensures Rests(ops) == []
  {
    if ops != [] {
      NoRest(ops[..|ops| - 1]);
    }
  }

  lemma SettlementRests(c: Call, outcome: Outcome)
    ensures Rests(Settlement(c, outcome)) == RestAsked(Called(outcome, 0.0))
  {
    var ops := Settlement(c, outcome);
    if outcome.RateLimited? && Truthy(outcome.retryAfter) {
      var cooled := [CooledDown(outcome.retryAfter.value)];
      NoRest([GaveBack(0)]);
      NoRest([Failed(c.credKey, false)]);
      RestsOfBoth([GaveBack(0)], cooled);
      RestsOfBoth([GaveBack(0)] + cooled, [Failed(c.credKey, false)]);
      assert cooled[..0] == [] && Rests(cooled) == [outcome.retryAfter.value];
      assert ops == [GaveBack(0)] + cooled || ops == [GaveBack(0)] + cooled + [Failed(c.credKey, false)];
    } else {
      NoRest(ops);
    }
  }

  lemma {:induction false} AttemptRests(c: Call, a: Attempt)
    ensures Rests(Acts(c, a)) == RestAsked(a)
  {
    hide Settlement, Rests;
    if a.Called? {
      NoRest(Checks(c) + [Reserved(true), CalledProvider]);
      SettlementRests(c, a.outcome);
      RestsOfBoth(Checks(c) + [Reserved(true), CalledProvider], Settlement(c, a.outcome));
    } else {
      NoRest(Acts(c, a));
    }
  }

  /** The cooldowns a call sets are the retry-afters it got, in order and but for those of zero seconds. */
  lemma {:induction false} CooledDownAsAsked(c: Call, trace: seq<Attempt>)
    ensures Rests(Script(c, trace)) == RestsAsked(trace)
  {
    if trace != [] {
      hide Acts, Rests, RestAsked;
      var n := |trace| - 1;
      CooledDownAsAsked(c, trace[..n]);
      AttemptRests(c, trace[n]);
      NoRest(Pause(c, trace[n], n));
      RestsOfBoth(Script(c, trace[..n]), Acts(c, trace[n]));
      RestsOfBoth(Script(c, trace[..n]) + Acts(c, trace[n]), Pause(c, trace[n], n));
    } else {
      NoRest([]);
    }
  }

  /** What becomes of a bare `RuntimeError` by its message; the first of these that fits. */
  lemma ClassifiedIff(message: string)
    ensures var e, m := Classify(message), Lower(message);
            var limited :=
              || Occurs("rate-limited", m) || Occurs("rate limit", m) || Occurs("429", m)
              || Occurs("resource_exhausted", m);
            var denied :=
              Occurs("rejected api key", m) || Occurs("access denied", m) || Occurs("401", m) || Occurs("403", m);
            var missing := Occurs("404", m) || Occurs("model or endpoint not found", m);
            var large :=
              Occurs("context", m) && (Occurs("too large", m) || Occurs("length", m) || Occurs("maximum", m));
            && (e == RateLimitError <==> limited)
            && (e == PermanentError(true) <==> denied && !limited)
            && (e == ModelNotAvailable <==> missing && !denied && !limited)
            && (e == ContextError <==> large && !missing && !denied && !limited)
            && (e == ProviderUnavailable <==>
                  (Occurs("outage", m) || Occurs("50", m)) && !large && !missing && !denied && !limited)
            && (e == PlainLLMError <==>
                  !Occurs("outage", m) && !Occurs("50", m) && !large && !missing && !denied && !limited)
  {
    hide Occurs, Lower;
  }

  /** Which call gets its answer, which is told that a breaker is open, and which that there was no room. */
  lemma HowItEnds(c: Call, trace: seq<Attempt>, result: Result)
    requires GatewayTrace.Complete(c, trace, result) && trace != []
    ensures var last := trace[|trace| - 1];
            && (result.Returned? <==> Answer(last))
            && (Answer(last) ==> result == Returned(last.outcome.tokensIn, last.outcome.tokensOut))
            && (result == Raised(CircuitOpenError(c.providerKey)) <==>
                  last == Rejected(true) || (c.providerKey == c.credKey && last.Rejected?))
            && (result == Raised(CircuitOpenError(c.credKey)) <==>
                  last == Rejected(false) || (c.providerKey == c.credKey && last.Rejected?))
            && (forall reason :: result == Raised(NoCapacity(reason)) <==> last.Denied? && last.reason == reason)
    ensures var last := trace[|trace| - 1];
            && (Outage(last) ==> result == Raised(ProviderUnavailable))
            && (Mishap(last) && last.outcome.Transient? ==> result == Raised(TransientError))
            && (Mishap(last) && last.outcome.RateLimited? ==> result == Raised(RateLimitError))
            && (last.Called? && last.outcome.Permanent? ==> result == Raised(PermanentError(last.outcome.invalidKey)))
            && (last.Called? && last.outcome.ContextTooLarge? ==> result == Raised(ContextError))
    ensures forall i | 0 <= i < |trace| - 1 :: Passing(trace[i])
  {
    hide Occurs, Lower;
    WorthAnother(trace[|trace| - 1]);
    forall i | 0 <= i < |trace| - 1 ensures Passing(trace[i]) {
      WorthAnother(trace[i]);
    }
  }
}
