/**
 The retry loop of `LLMGateway.complete` against the shared breakers: no attempt
 gets past a check inside a running OPEN period, whoever opened the breaker.
 */
module GatewayBreakers {
  import opened SharedStore
  import opened GatewayTrace
  import opened Breaker
  import opened BreakerProtocol

  /** What a call's breaker operations were among all commands since it began: reads in order of time, none after
      `to`, and this caller's those of its script. */
  ghost predicate Accounted(
    t: Tuning, c0: Circuits, traffic: seq<Move>, me: nat, c: Call, trace: seq<Attempt>, to: real)
  {
    && OnBreakers(Script(c, trace)) == OpsOf(t, Touches(t, c0, traffic, me))
    && InOrder(traffic)
    && forall i | 0 <= i < |traffic| && traffic[i].Get? :: traffic[i].event.time <= to
  }

  /** Command n is this caller's check of `key`, and the record it read let it pass. */
  ghost predicate PassedCheck(t: Tuning, c0: Circuits, traffic: seq<Move>, me: nat, n: nat, key: string) {
    && n < |traffic| && traffic[n].Get? && traffic[n].k == me && traffic[n].key == key && traffic[n].event.signal.Check?
    && Passes(t, In(Run(t, c0, traffic[..n]), key), traffic[n].event.time)
  }

  lemma {:induction false} OnBreakersOfBoth(a: seq<Op>, b: seq<Op>)
    ensures OnBreakers(a + b) == OnBreakers(a) + OnBreakers(b)
  {
    if b == [] {
      assert a + b == a && OnBreakers(a) + [] == OnBreakers(a);
    } else {
      var n := |b| - 1;
      assert (a + b)[..|a + b| - 1] == a + b[..n];
      OnBreakersOfBoth(a, b[..n]);
    }
  }

  /** The breaker operations that come before attempt i. */
  function Before(c: Call, trace: seq<Attempt>, i: nat): nat
    requires i <= |trace|
  {
    |OnBreakers(Script(c, trace[..i]))|
  }

  lemma {:induction false} ScriptOfPrefix(c: Call, trace: seq<Attempt>, i: nat) returns (rest: seq<Op>)
    requires i < |trace|
    ensures Script(c, trace) == Script(c, trace[..i]) + Acts(c, trace[i]) + rest
  {
    hide Acts, Pause;
    var n := |trace| - 1;
    if i == n {
      rest := Pause(c, trace[n], n);
    } else {
      assert trace[..n][..i] == trace[..i];
      var more := ScriptOfPrefix(c, trace[..n], i);
      rest := more + Acts(c, trace[n]) + Pause(c, trace[n], n);
      var a, b := Script(c, trace[..i]), Acts(c, trace[i]);
      assert a + b + more + Acts(c, trace[n]) + Pause(c, trace[n], n) == a + b + rest;
    }
  }

  lemma OnlyChecks(c: Call)
    ensures OnBreakers(Checks(c)) == Checks(c)
  {
    var first, second := Checked(c.providerKey, true), Checked(c.credKey, true);
    OnBreakersOneMore([], first);
    OnBreakersOneMore([first], second);
    assert [] + [first] == [first] && [first] + [second] == Checks(c);
  }

  lemma ActsAfterChecks(c: Call, a: Attempt) returns (rest: seq<Op>)
    requires !a.Rejected?
    ensures Acts(c, a) == Checks(c) + rest
  {
    rest := if a.Denied? then [Reserved(false)] else [Reserved(true), CalledProvider] + Settlement(c, a.outcome);
    if a.Called? {
      Regroup(Checks(c), [Reserved(true), CalledProvider], Settlement(c, a.outcome), []);
    }
  }

  lemma {:induction false} ActsBeginWithChecks(c: Call, a: Attempt)
    requires !a.Rejected?
    ensures |OnBreakers(Acts(c, a))| >= 2 && OnBreakers(Acts(c, a))[..2] == Checks(c)
  {
    hide OnBreakers, Acts;
    var rest := ActsAfterChecks(c, a);
    OnBreakersOfBoth(Checks(c), rest);
    OnlyChecks(c);
  }

  /** An attempt that was not turned away begins with two passed checks. */
  lemma {:induction false} AttemptChecks(c: Call, trace: seq<Attempt>, i: nat)
    requires i < |trace| && !trace[i].Rejected?
    ensures var ops, j := OnBreakers(Script(c, trace)), Before(c, trace, i);
            j + 2 <= |ops| && ops[j] == Checked(c.providerKey, true) && ops[j + 1] == Checked(c.credKey, true)
  {
    hide Script, Acts, OnBreakers;
    var rest := ScriptOfPrefix(c, trace, i);
    var first, acts := Script(c, trace[..i]), Acts(c, trace[i]);
    OnBreakersOfBoth(first + acts, rest);
    OnBreakersOfBoth(first, acts);
    ActsBeginWithChecks(c, trace[i]);
    var ops := OnBreakers(Script(c, trace));
    assert OnBreakers(acts)[..2][0] == OnBreakers(acts)[0] && OnBreakers(acts)[..2][1] == OnBreakers(acts)[1];
  }

  /** Where among all commands this caller's operation j is. */
  lemma {:induction false} Place(t: Tuning, c0: Circuits, traffic: seq<Move>, me: nat, j: nat) returns (n: nat)
    requires j < |Touches(t, c0, traffic, me)|
    ensures n < |traffic| && traffic[n].Get? && traffic[n].k == me
    ensures |Touches(t, c0, traffic[..n], me)| == j && |Touches(t, c0, traffic[..n + 1], me)| == j + 1
    ensures Touches(t, c0, traffic, me)[j] == Touch(traffic[n].key, In(Run(t, c0, traffic[..n]), traffic[n].key),
            traffic[n].event)
  {
    hide Run, In;
    var last := |traffic| - 1;
    if j < |Touches(t, c0, traffic[..last], me)| {
      n := Place(t, c0, traffic[..last], me, j);
      assert traffic[..last][..n] == traffic[..n] && traffic[..last][..n + 1] == traffic[..n + 1];
    } else {
      n := last;
      assert traffic[..n + 1] == traffic;
    }
  }

  /** Every attempt that was not turned away has passed, in this order, a check of each breaker: command p and
      command q, this caller's next operations after those of the attempts before. */
  lemma ChecksOfAttempt(
    t: Tuning, c0: Circuits, traffic: seq<Move>, me: nat, c: Call, trace: seq<Attempt>, to: real, i: nat)
    returns (p: nat, q: nat)
    requires Accounted(t, c0, traffic, me, c, trace, to) && i < |trace| && !trace[i].Rejected?
    ensures PassedCheck(t, c0, traffic, me, p, c.providerKey) && PassedCheck(t, c0, traffic, me, q, c.credKey)
    ensures |Touches(t, c0, traffic[..p + 1], me)| == Before(c, trace, i) + 1
    ensures |Touches(t, c0, traffic[..q + 1], me)| == Before(c, trace, i) + 2
  {
    hide Script, Run, In, Passes, Touches, OnBreakers;
    var j := Before(c, trace, i);
    AttemptChecks(c, trace, i);
    p := Place(t, c0, traffic, me, j);
    q := Place(t, c0, traffic, me, j + 1);
  }

  /** No attempt gets to its reservation inside a running OPEN period: if a breaker of the call was OPEN since `o` at
      any moment m of the call before the attempt checked it, and no write outstanding then would end that, the
      attempt checked it after the period was over.  It does not matter who opened it, this call included. */
  lemma NoAttemptInsideOpenPeriod(
    t: Tuning, c0: Circuits, traffic: seq<Move>, me: nat, c: Call, trace: seq<Attempt>, to: real, i: nat,
    key: string, m: nat, o: real, idle: set<nat>)
    returns (n: nat)
    requires Accounted(t, c0, traffic, me, c, trace, to) && i < |trace| && !trace[i].Rejected?
    requires key == c.providerKey || key == c.credKey
    requires m <= |traffic| && |Touches(t, c0, traffic[..m], me)| <= Before(c, trace, i)
    requires Holds(Run(t, c0, traffic[..m]), key, o) && Undisturbed(Run(t, c0, traffic[..m]), key, o, idle)
    requires NotBy(traffic, idle)
    ensures PassedCheck(t, c0, traffic, me, n, key)
    ensures m <= n && traffic[n].event.time >= o + t.halfOpenAfter
  {
    hide Run, In, Holds, Undisturbed, Passes, Touches, Before, Script;
    var p, q := ChecksOfAttempt(t, c0, traffic, me, c, trace, to, i);
    n := if key == c.providerKey then p else q;
    if n < m {
      TouchesCount(t, c0, traffic, me, n + 1, m);
    }
    forall k | 0 <= k < |traffic[m..n]| ensures traffic[m..n][k].k !in idle {
      assert traffic[m..n][k] == traffic[m + k];
    }
    PassedCheckIsAfter(t, c0, traffic, key, m, n, o, idle);
  }

  /** A call that begins and ends inside a running OPEN period of one of its breakers, with no write outstanding that
      would end it, makes one check, or two, and nothing else. */
  lemma TurnedAway(
    t: Tuning, c0: Circuits, traffic: seq<Move>, me: nat, c: Call, trace: seq<Attempt>, to: real,
    key: string, o: real, idle: set<nat>)
    requires Accounted(t, c0, traffic, me, c, trace, to) && Stopped(c, trace)
    requires key == c.providerKey || key == c.credKey
    requires Holds(c0, key, o) && to < o + t.halfOpenAfter
    requires Undisturbed(c0, key, o, idle) && NotBy(traffic, idle)
    ensures trace == [] || (|trace| == 1 && trace[0].Rejected?)
  {
    hide In, Holds, Undisturbed, Passes, OnBreakers;
    assert |trace| > 1 ==> Retries(trace[0]);
    if trace != [] && !trace[0].Rejected? {
      assert traffic[..0] == [] && Run(t, c0, []) == c0 && Touches(t, c0, [], me) == [];
      var n := NoAttemptInsideOpenPeriod(t, c0, traffic, me, c, trace, to, 0, key, 0, o, idle);
    }
  }

  /** A later prefix holds more of this caller's operations. */
  lemma {:induction false} TouchesCount(t: Tuning, c0: Circuits, traffic: seq<Move>, me: nat, n: nat, m: nat)
    requires n <= m <= |traffic|
    ensures |Touches(t, c0, traffic[..n], me)| <= |Touches(t, c0, traffic[..m], me)|
  {
    hide Run, In;
    if n < m {
      assert traffic[..m][..m - 1] == traffic[..m - 1];
      TouchesCount(t, c0, traffic, me, n, m - 1);
    }
  }

  // ---------------------------------------------------------------------------
  // With nobody else at work
  // ---------------------------------------------------------------------------

  ghost predicate OnlyBy(traffic: seq<Move>, me: nat) {
    forall i | 0 <= i < |traffic| :: traffic[i].k == me
  }

  /** Writes that others left outstanding at the beginning. */
  function Others(c0: Circuits, me: nat): set<nat> {
    c0.pending.Keys - {me}
  }

  lemma {:induction false} OnlyMinePending(t: Tuning, c0: Circuits, traffic: seq<Move>, me: nat)
    requires OnlyBy(traffic, me)
    ensures Run(t, c0, traffic).pending.Keys <= c0.pending.Keys + {me}
  {
    if traffic != [] {
      OnlyMinePending(t, c0, traffic[..|traffic| - 1], me);
    }
  }

  /** With nobody else at work no stale write can come in between, so an attempt never gets past a breaker that any
      earlier attempt, or anybody before the call, opened less than its period ago. */
  lemma AloneNoAttemptInsideOpenPeriod(
    t: Tuning, c0: Circuits, traffic: seq<Move>, me: nat, c: Call, trace: seq<Attempt>, to: real, i: nat,
    key: string, m: nat)
    returns (n: nat)
    requires Accounted(t, c0, traffic, me, c, trace, to) && i < |trace| && !trace[i].Rejected?
    requires key == c.providerKey || key == c.credKey
    requires m <= |traffic| && |Touches(t, c0, traffic[..m], me)| <= Before(c, trace, i)
    requires OnlyBy(traffic, me) && me !in Run(t, c0, traffic[..m]).pending
    requires In(Run(t, c0, traffic[..m]), key).state == Open
    ensures PassedCheck(t, c0, traffic, me, n, key) && m <= n
    ensures traffic[n].event.time >= In(Run(t, c0, traffic[..m]), key).openedAt + t.halfOpenAfter
  {
    hide In, Passes, Touches, Run, Before, Script;
    OnlyMinePending(t, c0, traffic[..m], me);
    n := NoAttemptInsideOpenPeriod(
      t, c0, traffic, me, c, trace, to, i, key, m, In(Run(t, c0, traffic[..m]), key).openedAt, Others(c0, me));
  }

  // ---------------------------------------------------------------------------
  // With a stale write in between
  // ---------------------------------------------------------------------------

  /** The commands so far, all at one time, leave `c`, and this caller did `ops` among them. */
  ghost predicate SoFar(t: Tuning, me: nat, c0: Circuits, traffic: seq<Move>, c: Circuits, ops: seq<Op>, now: real) {
    && Consistent(t, me, c0, traffic, c, ops)
    && forall i | 0 <= i < |traffic| && traffic[i].Get? :: traffic[i].event.time == now
  }

  lemma OneCommand(t: Tuning, me: nat, c0: Circuits, traffic: seq<Move>, c: Circuits, ops: seq<Op>, now: real, m: Move)
    requires SoFar(t, me, c0, traffic, c, ops, now) && (m.k != me || m.Put?) && (m.Get? ==> m.event.time == now)
    ensures SoFar(t, me, c0, traffic + [m], Next(t, c, m), ops, now)
  {
    hide Consistent, Next;
    MoveHeard(t, me, c0, traffic, c, ops, m);
  }

  lemma OwnRead(
    t: Tuning, me: nat, c0: Circuits, traffic: seq<Move>, c: Circuits, ops: seq<Op>, now: real, key: string, e: Event)
    requires SoFar(t, me, c0, traffic, c, ops, now) && me !in c.pending && e.time == now
    ensures var m := Get(me, key, e);
            SoFar(t, me, c0, traffic + [m], Next(t, c, m), ops + [OpOf(t, Touch(key, In(c, key), e))], now)
  {
    hide Consistent, Next, In, OpOf;
    ReadHeard(t, me, c0, traffic, c, ops, key, e);
  }

  lemma OwnNote(t: Tuning, me: nat, c0: Circuits, traffic: seq<Move>, c: Circuits, ops: seq<Op>, now: real, op: Op)
    requires SoFar(t, me, c0, traffic, c, ops, now) && !OnBreaker(op)
    ensures SoFar(t, me, c0, traffic, c, ops + [op], now)
  {
    hide Consistent;
    NoteHeard(t, me, c0, traffic, c, ops, op);
  }

  /** A check of a closed breaker passes and leaves everything as it is. */
  lemma ClosedCheck(
    t: Tuning, me: nat, c0: Circuits, traffic: seq<Move>, c: Circuits, ops: seq<Op>, now: real, key: string)
    requires SoFar(t, me, c0, traffic, c, ops, now) && me !in c.pending && In(c, key).state == Closed
    ensures SoFar(t, me, c0, traffic + [Get(me, key, Event(Check, now))], c, ops + [Checked(key, true)], now)
  {
    hide SoFar;
    OwnRead(t, me, c0, traffic, c, ops, now, key, Event(Check, now));
  }

  /** A success of this caller, read and written back at once. */
  lemma OwnSuccess(
    t: Tuning, me: nat, c0: Circuits, traffic: seq<Move>, c: Circuits, ops: seq<Op>, now: real, key: string)
    returns (after: Circuits)
    requires SoFar(t, me, c0, traffic, c, ops, now) && me !in c.pending
    ensures var more := traffic + [Get(me, key, Event(Success, now))] + [Put(me)];
            SoFar(t, me, c0, more, after, ops + [Succeeded(key)], now)
    ensures me !in after.pending
  {
    hide SoFar;
    var m := Get(me, key, Event(Success, now));
    OwnRead(t, me, c0, traffic, c, ops, now, key, Event(Success, now));
    OneCommand(t, me, c0, traffic + [m], Next(t, c, m), ops + [Succeeded(key)], now, Put(me));
    after := Next(t, Next(t, c, m), Put(me));
  }

  /** A call that gets through: both checks pass, the provider answers, both successes are recorded. */
  lemma {:induction false} CallsThrough(
    t: Tuning, me: nat, c0: Circuits, before: seq<Move>, c1: Circuits, now: real, c: Call, tokensIn: nat,
    tokensOut: nat)
    returns (traffic: seq<Move>, after: Circuits)
    requires SoFar(t, me, c0, before, c1, [], now) && me !in c1.pending
    requires In(c1, c.providerKey).state == Closed && In(c1, c.credKey).state == Closed
    ensures before <= traffic
    ensures SoFar(t, me, c0, traffic, after, Acts(c, Called(Ok(tokensIn, tokensOut), 1.0)), now)
  {
    hide SoFar, In;
    var pk, ck := c.providerKey, c.credKey;
    var ops := [Checked(pk, true)];
    ClosedCheck(t, me, c0, before, c1, [], now, pk);
    assert [] + ops == ops;
    traffic := before + [Get(me, pk, Event(Check, now))];
    ClosedCheck(t, me, c0, traffic, c1, ops, now, ck);
    traffic, ops := traffic + [Get(me, ck, Event(Check, now))], ops + [Checked(ck, true)];
    OwnNote(t, me, c0, traffic, c1, ops, now, Reserved(true));
    OwnNote(t, me, c0, traffic, c1, ops + [Reserved(true)], now, CalledProvider);
    ops := ops + [Reserved(true)] + [CalledProvider];
    after := OwnSuccess(t, me, c0, traffic, c1, ops, now, pk);
    traffic, ops := traffic + [Get(me, pk, Event(Success, now))] + [Put(me)], ops + [Succeeded(pk)];
    after := OwnSuccess(t, me, c0, traffic, after, ops, now, ck);
    traffic, ops := traffic + [Get(me, ck, Event(Success, now))] + [Put(me)], ops + [Succeeded(ck)];
    OwnNote(t, me, c0, traffic, after, ops, now, GaveBack(tokensIn + tokensOut));
    assert ops + [GaveBack(tokensIn + tokensOut)] == Acts(c, Called(Ok(tokensIn, tokensOut), 1.0));
  }

  /** The reads of b's success and of a's failure, and a's write, all before this caller's first command. */
  function Opening(a: nat, b: nat, key: string, now: real): seq<Move> {
    [Get(b, key, Event(Success, now)), Get(a, key, Event(Failure(false), now)), Put(a)]
  }

  /** What the opening and b's write do to the records. */
  lemma OpeningSteps(t: Tuning, a: nat, b: nat, me: nat, c0: Circuits, key: string, other: string, now: real)
    returns (d0: Circuits, d1: Circuits, d2: Circuits, c1: Circuits)
    requires a != b && me != a && me != b && key != other
    requires a !in c0.pending && b !in c0.pending && me !in c0.pending
    requires In(c0, key).state == Closed && In(c0, key).failures + 1 >= t.threshold && In(c0, other).state == Closed
    ensures d0 == Next(t, c0, Get(b, key, Event(Success, now)))
    ensures d1 == Next(t, d0, Get(a, key, Event(Failure(false), now)))
    ensures d2 == Next(t, d1, Put(a)) && c1 == Next(t, d2, Put(b))
    ensures In(d2, key).state == Open && In(d2, key).openedAt == now && !Undisturbed(d2, key, now, {})
    ensures me !in c1.pending && In(c1, key).state == Closed && In(c1, other).state == Closed
  {
    d0 := Next(t, c0, Get(b, key, Event(Success, now)));
    d1 := Next(t, d0, Get(a, key, Event(Failure(false), now)));
    d2 := Next(t, d1, Put(a));
    c1 := Next(t, d2, Put(b));
    assert b in d2.pending && d2.pending[b].key == key && d2.pending[b].write.state == Closed;
  }

  lemma {:induction false} OpenedAndLost(
    t: Tuning, me: nat, a: nat, b: nat, c0: Circuits, key: string, other: string, now: real)
    returns (c1: Circuits)
    requires a != b && me != a && me != b && key != other
    requires a !in c0.pending && b !in c0.pending && me !in c0.pending
    requires In(c0, key).state == Closed && In(c0, key).failures + 1 >= t.threshold && In(c0, other).state == Closed
    ensures SoFar(t, me, c0, Opening(a, b, key, now) + [Put(b)], c1, [], now) && me !in c1.pending
    ensures In(c1, key).state == Closed && In(c1, other).state == Closed
    ensures var open := Run(t, c0, Opening(a, b, key, now));
            && In(open, key).state == Open && In(open, key).openedAt == now
            && !Undisturbed(open, key, now, {}) && Touches(t, c0, Opening(a, b, key, now), me) == []
  {
    NothingHeard(t, me, c0);
    assert SoFar(t, me, c0, [], c0, [], now);
    hide SoFar, Run, Touches, Next, In, Undisturbed;
    var m0, m1 := Get(b, key, Event(Success, now)), Get(a, key, Event(Failure(false), now));
    var d0, d1, d2: Circuits;
    d0, d1, d2, c1 := OpeningSteps(t, a, b, me, c0, key, other, now);
    OneCommand(t, me, c0, [], c0, [], now, m0);
    OneCommand(t, me, c0, [] + [m0], d0, [], now, m1);
    OneCommand(t, me, c0, [] + [m0] + [m1], d1, [], now, Put(a));
    assert [] + [m0] + [m1] + [Put(a)] == Opening(a, b, key, now);
    OneCommand(t, me, c0, Opening(a, b, key, now), d2, [], now, Put(b));
    WhatWasHeard(t, me, c0, Opening(a, b, key, now), d2, now);
  }

  lemma WhatWasHeard(t: Tuning, me: nat, c0: Circuits, traffic: seq<Move>, c: Circuits, now: real)
    requires SoFar(t, me, c0, traffic, c, [], now)
    ensures Run(t, c0, traffic) == c && Touches(t, c0, traffic, me) == []
  {
  }

  lemma ScriptOfOne(c: Call, a: Attempt)
    requires !Retries(a)
    ensures Script(c, [a]) == Acts(c, a)
  {
    hide Acts;
    assert [a][..0] == [] && [] + Acts(c, a) + [] == Acts(c, a);
  }

  /** A provider call inside a running OPEN period is real: b reads the closed record, a's failure opens the breaker,
      b writes the closed record back, and the next call goes through at once, although the breaker was open at a
      moment of that call before its check.  Of what `NoAttemptInsideOpenPeriod` asks only the absence of a stale
      write is missing. */
  lemma {:induction false} CalledInsideOpenPeriod(
    t: Tuning, me: nat, a: nat, b: nat, c0: Circuits, c: Call, now: real, tokensIn: nat, tokensOut: nat)
    returns (traffic: seq<Move>, trace: seq<Attempt>)
    requires a != b && me != a && me != b && c.providerKey != c.credKey && c.maxRetries >= 0
    requires a !in c0.pending && b !in c0.pending && me !in c0.pending && t.halfOpenAfter > 0.0
    requires In(c0, c.providerKey).state == Closed && In(c0, c.providerKey).failures + 1 >= t.threshold
    requires In(c0, c.credKey).state == Closed
    ensures trace == [Called(Ok(tokensIn, tokensOut), 1.0)] && Stopped(c, trace)
    ensures Accounted(t, c0, traffic, me, c, trace, now)
    ensures |traffic| > 3 && |Touches(t, c0, traffic[..3], me)| <= Before(c, trace, 0)
    ensures var o := In(Run(t, c0, traffic[..3]), c.providerKey).openedAt;
            && Holds(Run(t, c0, traffic[..3]), c.providerKey, o) && now < o + t.halfOpenAfter
            && !Undisturbed(Run(t, c0, traffic[..3]), c.providerKey, o, {})
  {
    hide Run, In, Undisturbed, Touches, Script, Consistent, Acts;
    trace := [Called(Ok(tokensIn, tokensOut), 1.0)];
    var first := Opening(a, b, c.providerKey, now);
    var c1 := OpenedAndLost(t, me, a, b, c0, c.providerKey, c.credKey, now);
    var after: Circuits;
    traffic, after := CallsThrough(t, me, c0, first + [Put(b)], c1, now, c, tokensIn, tokensOut);
    assert traffic[..3] == (first + [Put(b)])[..3] == first;
    ScriptOfOne(c, trace[0]);
    AllHeard(t, me, c0, traffic, after, c, trace, now);
  }

  lemma AllHeard(
    t: Tuning, me: nat, c0: Circuits, traffic: seq<Move>, c1: Circuits, c: Call, trace: seq<Attempt>, now: real)
    requires SoFar(t, me, c0, traffic, c1, Script(c, trace), now)
    ensures Accounted(t, c0, traffic, me, c, trace, now)
  {
    hide Run, Touches, Script, OnBreakers, OpsOf;
  }
}
