/**
 The circuit breakers as they are shared (core/llm/circuit_breaker.py): a caller
 reads a record, changes its copy and writes the whole copy back.  The read and
 the write are two commands, others work in between, and the last write wins.
 */
module BreakerProtocol {
  import opened Breaker

  /** What a caller has read and changed, and is about to write. */
  datatype Pending = Pending(key: string, write: Record)

  datatype Circuits = Circuits(records: map<string, Record>, pending: map<nat, Pending>)

  datatype Move =
    | Get(k: nat, key: string, event: Event)  // caller k reads for this signal and changes its copy
    | Put(k: nat)                             // caller k writes its copy back

  function In(c: Circuits, key: string): Record {
    if key in c.records then c.records[key] else FRESH
  }

  /** A check writes only when it moves the breaker to HALF_OPEN; the other operations always write. */
  predicate WritesBack(t: Tuning, r: Record, e: Event) {
    e.signal.Check? ==> r.state == Open && Passes(t, r, e.time)
  }

  /** One command; a caller that has a write outstanding reads nothing else before it. */
  function Next(t: Tuning, c: Circuits, m: Move): Circuits {
    match m
    case Get(k, key, e) =>
      if k !in c.pending && WritesBack(t, In(c, key), e)
      then c.(pending := c.pending[k := Pending(key, After(t, In(c, key), e))]) else c
    case Put(k) =>
      if k in c.pending
      then Circuits(c.records[c.pending[k].key := c.pending[k].write], c.pending - {k}) else c
  }

  function Run(t: Tuning, c: Circuits, moves: seq<Move>): Circuits {
    if moves == [] then c else Next(t, Run(t, c, moves[..|moves| - 1]), moves[|moves| - 1])
  }

  lemma RunGrows(t: Tuning, c: Circuits, moves: seq<Move>, m: Move)
    ensures Run(t, c, moves + [m]) == Next(t, Run(t, c, moves), m)
  {
    assert (moves + [m])[..|moves|] == moves;
  }

  lemma RunOne(t: Tuning, c: Circuits, m: Move)
    ensures Run(t, c, [m]) == Next(t, c, m)
  {
    assert [m][..0] == [];
  }

  lemma {:induction false} RunSplit(t: Tuning, c: Circuits, a: seq<Move>, b: seq<Move>)
    ensures Run(t, c, a + b) == Run(t, Run(t, c, a), b)
  {
    if b == [] {
      assert a + b == a;
    } else {
      var n := |b| - 1;
      assert (a + b)[..|a + b| - 1] == a + b[..n];
      RunSplit(t, c, a, b[..n]);
    }
  }

  // ---------------------------------------------------------------------------
  // What no interleaving breaks
  // ---------------------------------------------------------------------------

  /** A closed record is below the threshold, a half-open one below its quota. */
  predicate InRange(t: Tuning, r: Record) {
    && r.failures >= 0
    && (r.state == Closed ==> r.failures < Max(t.threshold, 1))
    && (r.state == HalfOpen ==> 0 <= r.probes < Max(t.successes, 1))
  }

  ghost predicate AllInRange(t: Tuning, c: Circuits) {
    && (forall key | key in c.records :: InRange(t, c.records[key]))
    && (forall k | k in c.pending :: InRange(t, c.pending[k].write))
  }

  lemma AfterInRange(t: Tuning, r: Record, e: Event)
    requires InRange(t, r)
    ensures InRange(t, After(t, r, e))
  {
  }

  /** However the reads and writes of any number of callers interleave, no breaker is closed at its threshold. */
  lemma {:induction false} RunKeepsRange(t: Tuning, c: Circuits, moves: seq<Move>)
    requires AllInRange(t, c)
    ensures AllInRange(t, Run(t, c, moves))
  {
    if moves != [] {
      var n := |moves| - 1;
      RunKeepsRange(t, c, moves[..n]);
      if moves[n].Get? {
        AfterInRange(t, In(Run(t, c, moves[..n]), moves[n].key), moves[n].event);
      }
    }
  }

  // ---------------------------------------------------------------------------
  // An OPEN period, and the write that can end it
  // ---------------------------------------------------------------------------

  /** The breaker is OPEN, since `o` or later. */
  predicate Holds(c: Circuits, key: string, o: real) {
    In(c, key).state == Open && In(c, key).openedAt >= o
  }

  /** No write outstanding, but for the callers in `idle`, would end that. */
  ghost predicate Undisturbed(c: Circuits, key: string, o: real, idle: set<nat>) {
    forall k | k in c.pending && k !in idle && c.pending[k].key == key ::
      c.pending[k].write.state == Open && c.pending[k].write.openedAt >= o
  }

  /** Whoever reads `key` reads it before the period of `o` is over. */
  ghost predicate Within(t: Tuning, key: string, o: real, moves: seq<Move>) {
    forall i | 0 <= i < |moves| && moves[i].Get? && moves[i].key == key :: moves[i].event.time < o + t.halfOpenAfter
  }

  ghost predicate NotBy(moves: seq<Move>, idle: set<nat>) {
    forall i | 0 <= i < |moves| :: moves[i].k !in idle
  }

  lemma StepSurvives(t: Tuning, c: Circuits, key: string, o: real, m: Move, idle: set<nat>)
    requires Holds(c, key, o) && Undisturbed(c, key, o, idle) && m.k !in idle
    requires m.Get? && m.key == key ==> m.event.time < o + t.halfOpenAfter
    ensures Holds(Next(t, c, m), key, o) && Undisturbed(Next(t, c, m), key, o, idle)
  {
  }

  /** Reads made inside an OPEN period leave nothing to write that would end it. */
  lemma {:induction false} PeriodSurvives(t: Tuning, c: Circuits, key: string, o: real, moves: seq<Move>,
      idle: set<nat>)
    requires Holds(c, key, o) && Undisturbed(c, key, o, idle)
    requires NotBy(moves, idle) && Within(t, key, o, moves)
    ensures Holds(Run(t, c, moves), key, o) && Undisturbed(Run(t, c, moves), key, o, idle)
  {
    if moves != [] {
      var n := |moves| - 1;
      PeriodSurvives(t, c, key, o, moves[..n], idle);
      StepSurvives(t, Run(t, c, moves[..n]), key, o, moves[n], idle);
    }
  }

  /** A running OPEN period lasts in every interleaving exactly if no write is outstanding that was read before the
      breaker opened and says otherwise. */
  lemma SurvivesIffUndisturbed(t: Tuning, c: Circuits, key: string)
    requires In(c, key).state == Open
    ensures Undisturbed(c, key, In(c, key).openedAt, {})
       <==> forall moves | Within(t, key, In(c, key).openedAt, moves) ::
           Holds(Run(t, c, moves), key, In(c, key).openedAt)
  {
    var o := In(c, key).openedAt;
    if Undisturbed(c, key, o, {}) {
      forall moves | Within(t, key, o, moves) ensures Holds(Run(t, c, moves), key, o) {
        PeriodSurvives(t, c, key, o, moves, {});
      }
    } else {
      var k :| k in c.pending && c.pending[k].key == key
            && !(c.pending[k].write.state == Open && c.pending[k].write.openedAt >= o);
      assert Run(t, c, []) == c && [Put(k)][..0] == [];
      assert Run(t, c, [Put(k)]) == Next(t, c, Put(k));
      assert Within(t, key, o, [Put(k)]);
    }
  }

  /** Two callers are enough to lose an opening: b reads the closed record, a's failure opens the breaker, and b's
      success writes the closed record back. */
  lemma LostOpening(t: Tuning, c: Circuits, key: string, a: nat, b: nat, success: real, failure: real)
    requires a != b && a !in c.pending && b !in c.pending
    requires In(c, key).state == Closed && In(c, key).failures + 1 >= t.threshold
    ensures var looks := [Get(b, key, Event(Success, success)), Get(a, key, Event(Failure(false), failure))];
            var open := Run(t, c, looks + [Put(a)]);
            var lost := Next(t, open, Put(b));
            && In(open, key).state == Open && In(open, key).openedAt == failure
            && In(lost, key).state == Closed && In(lost, key).failures == 0
            && forall now :: Passes(t, In(lost, key), now)
  {
    var m0, m1 := Get(b, key, Event(Success, success)), Get(a, key, Event(Failure(false), failure));
    hide Run;
    RunOne(t, c, m0);
    RunGrows(t, c, [m0], m1);
    RunGrows(t, c, [m0, m1], Put(a));
    assert [m0] + [m1] == [m0, m1];
  }

  // ---------------------------------------------------------------------------
  // One caller's part
  // ---------------------------------------------------------------------------

  /** One operation of a caller: the record it read, and what for. */
  datatype Touch = Touch(key: string, seen: Record, event: Event)

  /** The operations of caller `me` in a run. */
  function Touches(t: Tuning, c: Circuits, moves: seq<Move>, me: nat): seq<Touch> {
    if moves == [] then []
    else
      var n := |moves| - 1;
      var m, before := moves[n], Run(t, c, moves[..n]);
      Touches(t, c, moves[..n], me) +
      if m.Get? && m.k == me && me !in before.pending then [Touch(m.key, In(before, m.key), m.event)] else []
  }

  lemma TouchesGrow(t: Tuning, c: Circuits, moves: seq<Move>, me: nat, m: Move)
    ensures var before := Run(t, c, moves);
            Touches(t, c, moves + [m], me) == Touches(t, c, moves, me) +
              if m.Get? && m.k == me && me !in before.pending then [Touch(m.key, In(before, m.key), m.event)] else []
  {
    assert (moves + [m])[..|moves|] == moves;
  }

  /** Reads happen in the order of their times. */
  ghost predicate InOrder(moves: seq<Move>) {
    forall i, j | 0 <= i < j < |moves| && moves[i].Get? && moves[j].Get? :: moves[i].event.time <= moves[j].event.time
  }

  /** Whoever passes a check of a breaker that was OPEN since `o` at any earlier moment, with no write outstanding
      that would end that, checks after its period. */
  lemma PassedCheckIsAfter(t: Tuning, c: Circuits, moves: seq<Move>, key: string, m: nat, n: nat, o: real,
      idle: set<nat>)
    requires m <= n < |moves| && InOrder(moves)
    requires moves[n].Get? && moves[n].key == key && Passes(t, In(Run(t, c, moves[..n]), key), moves[n].event.time)
    requires Holds(Run(t, c, moves[..m]), key, o) && Undisturbed(Run(t, c, moves[..m]), key, o, idle)
    requires NotBy(moves[m..n], idle)
    ensures moves[n].event.time >= o + t.halfOpenAfter
  {
    hide Run, Holds, Undisturbed;
    if moves[n].event.time < o + t.halfOpenAfter {
      var part := moves[m..n];
      assert moves[..n] == moves[..m] + part;
      RunSplit(t, c, moves[..m], part);
      forall i | 0 <= i < |part| && part[i].Get? && part[i].key == key
        ensures part[i].event.time < o + t.halfOpenAfter {
        assert part[i] == moves[m + i];
      }
      PeriodSurvives(t, Run(t, c, moves[..m]), key, o, part, idle);
    }
  }

  // ---------------------------------------------------------------------------
  // One operation after the other
  // ---------------------------------------------------------------------------

  function EventsFor(key: string, touches: seq<Touch>): seq<Event> {
    if touches == [] then []
    else
      var n := |touches| - 1;
      EventsFor(key, touches[..n]) + if touches[n].key == key then [touches[n].event] else []
  }

  /** The record with this caller's outstanding write applied. */
  function Settled(c: Circuits, me: nat, key: string): Record {
    if me in c.pending && c.pending[me].key == key then c.pending[me].write else In(c, key)
  }

  lemma ReplayOneMore(t: Tuning, r: Record, history: seq<Event>, e: Event)
    ensures Replay(t, r, history + [e]) == After(t, Replay(t, r, history), e)
  {
    assert (history + [e])[..|history|] == history;
  }

  lemma EventsForOneMore(key: string, touches: seq<Touch>, x: Touch)
    ensures EventsFor(key, touches + [x]) == EventsFor(key, touches) + if x.key == key then [x.event] else []
  {
    assert (touches + [x])[..|touches|] == touches;
  }

  lemma NoWriteNoChange(t: Tuning, r: Record, e: Event)
    requires !WritesBack(t, r, e)
    ensures After(t, r, e) == r
  {
  }

  /** With nobody else at work a record is what the history of this caller's operations makes of it. */
  lemma {:induction false} AloneReplays(t: Tuning, c: Circuits, moves: seq<Move>, me: nat, key: string)
    requires me !in c.pending && forall i | 0 <= i < |moves| :: moves[i].k == me
    ensures Settled(Run(t, c, moves), me, key) == Replay(t, In(c, key), EventsFor(key, Touches(t, c, moves, me)))
  {
    hide After, WritesBack, Replay, EventsFor;
    if moves == [] {
      assert Replay(t, In(c, key), EventsFor(key, [])) == In(c, key) by { NothingReplayed(t, In(c, key), key); }
    } else {
      var n := |moves| - 1;
      var m, before := moves[n], Run(t, c, moves[..n]);
      AloneReplays(t, c, moves[..n], me, key);
      var touches := Touches(t, c, moves[..n], me);
      if m.Get? && me !in before.pending {
        var x := Touch(m.key, In(before, m.key), m.event);
        EventsForOneMore(key, touches, x);
        assert EventsFor(key, touches) + [] == EventsFor(key, touches);
        ReplayOneMore(t, In(c, key), EventsFor(key, touches), m.event);
        if !WritesBack(t, In(before, m.key), m.event) {
          NoWriteNoChange(t, In(before, m.key), m.event);
        }
      } else {
        assert touches + [] == touches;
      }
    }
  }

  lemma NothingReplayed(t: Tuning, r: Record, key: string)
    ensures Replay(t, r, EventsFor(key, [])) == r
  {
  }

  /** Each operation's read directly followed by its write. */
  function OneByOne(k: nat, key: string, history: seq<Event>): seq<Move> {
    if history == [] then []
    else
      var n := |history| - 1;
      OneByOne(k, key, history[..n]) + [Get(k, key, history[n]), Put(k)]
  }

  /** Operations that do not overlap are a history: what is proved of histories holds of them. */
  lemma {:induction false} OneByOneReplays(t: Tuning, c: Circuits, k: nat, key: string, history: seq<Event>)
    requires k !in c.pending
    ensures var r := Run(t, c, OneByOne(k, key, history));
            k !in r.pending && In(r, key) == Replay(t, In(c, key), history)
  {
    hide After, WritesBack;
    if history != [] {
      var n := |history| - 1;
      var before := OneByOne(k, key, history[..n]);
      OneByOneReplays(t, c, k, key, history[..n]);
      var r, get := Run(t, c, before), Get(k, key, history[n]);
      RunGrows(t, c, before, get);
      RunGrows(t, c, before + [get], Put(k));
      assert before + [get, Put(k)] == before + [get] + [Put(k)];
      if !WritesBack(t, In(r, key), history[n]) {
        NoWriteNoChange(t, In(r, key), history[n]);
      }
    }
  }
}
