/**
 The circuit breaker (core/llm/circuit_breaker.py) as a function of its event
 history: checks, successes and failures, each with its time.
 */
module Breaker {

  datatype Circuit = Closed | Open | HalfOpen

  /** The stored record. */
  datatype Record = Record(state: Circuit, failures: int, openedAt: real, probes: int)

  /** The constructor's parameters. */
  datatype Tuning = Tuning(threshold: int, halfOpenAfter: real, successes: int)

  const FRESH := Record(Closed, 0, 0.0, 0)

  datatype Signal = Check | Success | Failure(force: bool)
  datatype Event = Event(signal: Signal, time: real)

  /** True when the breaker lets a request through at `now`. */
  predicate Passes(t: Tuning, r: Record, now: real) {
    r.state != Open || now - r.openedAt >= t.halfOpenAfter
  }

  function OnCheck(t: Tuning, r: Record, now: real): Record {
    if r.state == Open && now - r.openedAt >= t.halfOpenAfter then r.(state := HalfOpen, probes := 0) else r
  }

  function OnSuccess(t: Tuning, r: Record): Record {
    match r.state
    case HalfOpen => if r.probes + 1 >= t.successes then FRESH else r.(probes := r.probes + 1)
    case Closed => r.(failures := 0)
    case Open => r
  }

  function OnFailure(t: Tuning, r: Record, force: bool, now: real): Record {
    var r' := r.(failures := r.failures + 1);
    if (force || r'.failures >= t.threshold) && r.state != Open then r'.(state := Open, openedAt := now)
    else if r.state == HalfOpen then r'.(state := Open, openedAt := now)
    else r'
  }

  function After(t: Tuning, r: Record, e: Event): Record {
    match e.signal
    case Check => OnCheck(t, r, e.time)
    case Success => OnSuccess(t, r)
    case Failure(force) => OnFailure(t, r, force, e.time)
  }

  /** The record after a history that began with `r`. */
  function Replay(t: Tuning, r: Record, history: seq<Event>): Record {
    if history == [] then r
    else After(t, Replay(t, r, history[..|history| - 1]), history[|history| - 1])
  }

  /** Failures since the last success, or since the beginning. */
  function FailureRun(history: seq<Event>): nat {
    if history == [] || history[|history| - 1].signal.Success? then 0
    else FailureRun(history[..|history| - 1]) + if history[|history| - 1].signal.Failure? then 1 else 0
  }

  /** Successes in a stretch of history. */
  function Successes(history: seq<Event>): nat {
    if history == [] then 0
    else Successes(history[..|history| - 1]) + if history[|history| - 1].signal.Success? then 1 else 0
  }

  function Max(a: int, b: int): int {
    if a > b then a else b
  }

  /** While CLOSED the failure count is the run of failures since the last success, and below the threshold. */
  lemma {:induction false} ClosedCountsTheRun(t: Tuning, history: seq<Event>)
    ensures var r := Replay(t, FRESH, history);
            r.state == Closed ==> r.failures == FailureRun(history) < Max(t.threshold, 1)
  {
    if history != [] {
      ClosedCountsTheRun(t, history[..|history| - 1]);
    }
  }

  /** A closed breaker opens exactly on a forced failure or on the failure that completes the run. */
  lemma OpensExactlyAtThreshold(t: Tuning, history: seq<Event>, e: Event)
    requires Replay(t, FRESH, history).state == Closed
    ensures Replay(t, FRESH, history + [e]).state == Open
       <==> e.signal.Failure? && (e.signal.force || FailureRun(history) + 1 >= t.threshold)
    ensures Replay(t, FRESH, history + [e]).state != HalfOpen
    ensures Replay(t, FRESH, history + [e]).state == Open ==> Replay(t, FRESH, history + [e]).openedAt == e.time
  {
    assert (history + [e])[..|history|] == history;
    ClosedCountsTheRun(t, history);
  }

  /** An OPEN period lasts at least `halfOpenAfter`, whatever is recorded meanwhile. */
  lemma {:induction false} OpenPeriod(t: Tuning, r: Record, history: seq<Event>)
    requires r.state == Open
    requires forall i | 0 <= i < |history| :: history[i].time < r.openedAt + t.halfOpenAfter
    ensures Replay(t, r, history).state == Open && Replay(t, r, history).openedAt == r.openedAt
  {
    if history != [] {
      OpenPeriod(t, r, history[..|history| - 1]);
    }
  }

  /** The way back: a stretch of history that starts right after a probe and has stayed HALF_OPEN ever since. */
  ghost predicate Probing(t: Tuning, r: Record, history: seq<Event>, from: nat) {
    && from < |history|
    && history[from].signal.Check?
    && Replay(t, r, history[..from]).state == Open
    && (forall i | from < i <= |history| :: Replay(t, r, history[..i]).state == HalfOpen)
    && (forall i | from < i < |history| :: !history[i].signal.Failure?)
    && Replay(t, r, history).probes == Successes(history[from..])
  }

  lemma SuccessesGrow(history: seq<Event>, last: Event, from: nat)
    requires from <= |history|
    ensures Successes((history + [last])[from..]) == Successes(history[from..]) + if last.signal.Success? then 1 else 0
  {
    var tail := (history + [last])[from..];
    assert tail[..|tail| - 1] == history[from..] && tail[|tail| - 1] == last;
  }

  lemma ProbingGoesOn(t: Tuning, r: Record, history: seq<Event>, last: Event, from: nat)
    requires Probing(t, r, history, from)
    requires Replay(t, r, history + [last]).state == HalfOpen
    ensures Probing(t, r, history + [last], from)
  {
    var longer := history + [last];
    assert history == longer[..|history|] == history[..|history|] && longer[..|longer|] == longer;
    SuccessesGrow(history, last, from);
    forall i | from < i <= |longer| ensures Replay(t, r, longer[..i]).state == HalfOpen {
      if i <= |history| {
        assert longer[..i] == history[..i];
      }
    }
    assert longer[..from] == history[..from];
  }

  lemma ProbingBegins(t: Tuning, r: Record, history: seq<Event>, last: Event)
    requires Replay(t, r, history).state != HalfOpen && Replay(t, r, history + [last]).state == HalfOpen
    ensures Probing(t, r, history + [last], |history|)
  {
    var longer := history + [last];
    assert longer[..|history|] == history && longer[..|longer|] == longer;
    SuccessesGrow(history, last, |history|);
    assert history[|history|..] == [];
  }

  lemma {:induction false} HalfOpenMeansProbing(t: Tuning, r: Record, history: seq<Event>) returns (from: nat)
    requires r.state == Open
    requires Replay(t, r, history).state == HalfOpen
    ensures Probing(t, r, history, from)
  {
    hide Probing, After;
    var init, last := history[..|history| - 1], history[|history| - 1];
    assert history == init + [last];
    if Replay(t, r, init).state == HalfOpen {
      from := HalfOpenMeansProbing(t, r, init);
      ProbingGoesOn(t, r, init, last, from);
    } else {
      from := |init|;
      ProbingBegins(t, r, init, last);
    }
  }

  /** From OPEN a breaker is CLOSED again only by a success, after a probe with `successes` successes since
      and no failure between. */
  lemma {:induction false} RecoveryNeedsSuccesses(t: Tuning, r: Record, history: seq<Event>,
      last: Event) returns (from: nat)
    requires r.state == Open
    requires Replay(t, r, history).state != Closed && Replay(t, r, history + [last]).state == Closed
    ensures last.signal.Success?
    ensures Probing(t, r, history, from)
    ensures Successes(history[from..] + [last]) >= t.successes
  {
    assert (history + [last])[..|history|] == history;
    from := HalfOpenMeansProbing(t, r, history);
    assert (history[from..] + [last])[..|history[from..]|] == history[from..];
  }

  /** And those successes are enough. */
  lemma RecoveryHappens(t: Tuning, r: Record, history: seq<Event>, last: Event)
    requires Replay(t, r, history).state == HalfOpen && last.signal.Success?
    ensures Replay(t, r, history).probes + 1 >= t.successes <==> Replay(t, r, history + [last]).state == Closed
    ensures Replay(t, r, history + [last]).state == Closed ==> Replay(t, r, history + [last]) == FRESH
  {
    assert (history + [last])[..|history|] == history;
  }

  lemma {:induction false} ReplaySplit(t: Tuning, r: Record, a: seq<Event>, b: seq<Event>)
    ensures Replay(t, r, a + b) == Replay(t, Replay(t, r, a), b)
  {
    if b == [] {
      assert a + b == a;
    } else {
      var n := |b| - 1;
      assert (a + b)[..|a + b| - 1] == a + b[..n];
      ReplaySplit(t, r, a, b[..n]);
    }
  }

  /** A failed probe costs a whole new OPEN period: whatever is recorded within `halfOpenAfter` of it, the breaker
      stays OPEN and lets nobody pass. */
  lemma FailedProbeStartsAPeriod(t: Tuning, r: Record, history: seq<Event>, probe: Event, later: seq<Event>, now: real)
    requires Replay(t, r, history).state == HalfOpen && probe.signal.Failure?
    requires forall i | 0 <= i < |later| :: later[i].time < probe.time + t.halfOpenAfter
    requires now < probe.time + t.halfOpenAfter
    ensures Replay(t, r, history + [probe] + later).state == Open
    ensures !Passes(t, Replay(t, r, history + [probe] + later), now)
  {
    assert (history + [probe])[..|history|] == history;
    var reopened := Replay(t, r, history + [probe]);
    ReplaySplit(t, r, history + [probe], later);
    OpenPeriod(t, reopened, later);
  }

  // ---------------------------------------------------------------------------
  // Who is let through
  // ---------------------------------------------------------------------------

  /** Event i of the history, a failure, opened the breaker, and it has been OPEN ever since. */
  ghost predicate OpenSince(t: Tuning, history: seq<Event>, i: nat) {
    && i < |history| && history[i].signal.Failure?
    && Replay(t, FRESH, history[..i]).state != Open
    && forall j | i < j <= |history| :: Replay(t, FRESH, history[..j]).state == Open
  }

  lemma OpenSinceGrows(t: Tuning, history: seq<Event>, last: Event, i: nat)
    requires OpenSince(t, history, i) && Replay(t, FRESH, history + [last]).state == Open
    ensures OpenSince(t, history + [last], i) && i < |history|
    ensures Replay(t, FRESH, history + [last]).openedAt == Replay(t, FRESH, history).openedAt
  {
    var longer := history + [last];
    assert history[..|history|] == longer[..|history|] == history;
    assert longer[..i] == history[..i] && longer[..|longer|] == longer;
    forall j | i < j <= |longer| ensures Replay(t, FRESH, longer[..j]).state == Open {
      if j <= |history| {
        assert longer[..j] == history[..j];
      }
    }
  }

  lemma OpenSinceNow(t: Tuning, history: seq<Event>, last: Event)
    requires Replay(t, FRESH, history).state != Open && Replay(t, FRESH, history + [last]).state == Open
    ensures OpenSince(t, history + [last], |history|)
    ensures Replay(t, FRESH, history + [last]).openedAt == last.time
  {
    var longer := history + [last];
    assert longer[..|history|] == history && longer[..|longer|] == longer;
  }

  /** What is OPEN was opened by a failure, at the time it says. */
  lemma {:induction false} OpenedByAFailure(t: Tuning, history: seq<Event>) returns (i: nat)
    requires Replay(t, FRESH, history).state == Open
    ensures OpenSince(t, history, i) && Replay(t, FRESH, history).openedAt == history[i].time
  {
    hide OpenSince;
    var init, last := history[..|history| - 1], history[|history| - 1];
    assert history == init + [last];
    if Replay(t, FRESH, init).state == Open {
      i := OpenedByAFailure(t, init);
      OpenSinceGrows(t, init, last, i);
    } else {
      i := |init|;
      OpenSinceNow(t, init, last);
    }
  }

  lemma OpenAfter(t: Tuning, history: seq<Event>, i: nat, j: nat)
    requires OpenSince(t, history, i) && i < j <= |history|
    ensures Replay(t, FRESH, history[..j]).state == Open
  {
  }

  lemma NotOpenBefore(t: Tuning, history: seq<Event>, i: nat)
    requires OpenSince(t, history, i)
    ensures i < |history| && Replay(t, FRESH, history[..i]).state != Open
  {
  }

  lemma OpenSinceIsOne(t: Tuning, history: seq<Event>, i: nat, j: nat)
    requires OpenSince(t, history, i) && OpenSince(t, history, j)
    ensures i == j
  {
    hide OpenSince, Replay;
    NotOpenBefore(t, history, i);
    NotOpenBefore(t, history, j);
    if i < j {
      OpenAfter(t, history, i, j);
    } else if j < i {
      OpenAfter(t, history, j, i);
    }
  }

  /** Nobody is let through exactly if a failure less than `halfOpenAfter` ago opened the breaker and it has been OPEN
      ever since. */
  lemma {:induction false} TurnedAwayIff(t: Tuning, history: seq<Event>, now: real)
    ensures !Passes(t, Replay(t, FRESH, history), now)
       <==> exists i: nat :: OpenSince(t, history, i) && now < history[i].time + t.halfOpenAfter
  {
    hide After, OpenSince;
    if Replay(t, FRESH, history).state == Open {
      var i := OpenedByAFailure(t, history);
      forall j: nat | OpenSince(t, history, j) ensures j == i {
        OpenSinceIsOne(t, history, i, j);
      }
    } else {
      forall j: nat | OpenSince(t, history, j) ensures false {
        OpenAtLast(t, history, j);
      }
    }
  }

  lemma OpenAtLast(t: Tuning, history: seq<Event>, i: nat)
    requires OpenSince(t, history, i)
    ensures Replay(t, FRESH, history).state == Open
  {
    assert history[..|history|] == history;
  }

  /** The first check at the end of the period or later is let through and leaves the breaker HALF_OPEN with no
      success counted yet. */
  lemma CheckAfterPeriod(t: Tuning, history: seq<Event>, i: nat, now: real)
    requires OpenSince(t, history, i) && now >= history[i].time + t.halfOpenAfter
    ensures Passes(t, Replay(t, FRESH, history), now)
    ensures Replay(t, FRESH, history + [Event(Check, now)]).state == HalfOpen
    ensures Replay(t, FRESH, history + [Event(Check, now)]).probes == 0
  {
    hide OpenSince;
    OpenAtLast(t, history, i);
    var j := OpenedByAFailure(t, history);
    OpenSinceIsOne(t, history, i, j);
    assert (history + [Event(Check, now)])[..|history|] == history;
  }

  /** From then on, and while CLOSED, everybody is let through at any time until a failure is recorded. */
  lemma {:induction false} AdmitsUntilAFailure(t: Tuning, r: Record, history: seq<Event>)
    requires r.state != Open && forall i | 0 <= i < |history| :: !history[i].signal.Failure?
    ensures Replay(t, r, history).state != Open
    ensures forall now :: Passes(t, Replay(t, r, history), now)
  {
    if history != [] {
      AdmitsUntilAFailure(t, r, history[..|history| - 1]);
    }
  }

  /** The successes still to be recorded before a HALF_OPEN breaker closes. */
  function Missing(t: Tuning, r: Record): int {
    Max(t.successes - r.probes, 1)
  }

  /** Until a failure is recorded a HALF_OPEN breaker is HALF_OPEN or CLOSED, and CLOSED exactly if the missing
      successes have been recorded. */
  lemma {:induction false} ClosesIffEnoughSuccesses(t: Tuning, r: Record, history: seq<Event>)
    requires r.state == HalfOpen && forall i | 0 <= i < |history| :: !history[i].signal.Failure?
    ensures var after := Replay(t, r, history);
            && (after.state == Closed <==> Successes(history) >= Missing(t, r))
            && (after.state == Closed ==> after == FRESH)
            && (after.state != Closed ==> after.state == HalfOpen && after.probes == r.probes + Successes(history))
  {
    if history != [] {
      ClosesIffEnoughSuccesses(t, r, history[..|history| - 1]);
    }
  }

  /** A check and a success, n times over; `time` gives the times in order. */
  function Probes(n: nat, time: nat -> real): seq<Event> {
    if n == 0 then []
    else Probes(n - 1, time) + [Event(Check, time(2 * n - 2)), Event(Success, time(2 * n - 1))]
  }

  lemma NoSuccess()
    ensures Successes([]) == 0
  {
  }

  lemma OneMoreCounted(history: seq<Event>, e: Event)
    ensures Successes(history + [e]) == Successes(history) + if e.signal.Success? then 1 else 0
  {
    assert (history + [e])[..|history|] == history;
  }

  lemma {:induction false} ProbesCount(n: nat, time: nat -> real)
    ensures |Probes(n, time)| == 2 * n && Successes(Probes(n, time)) == n
    ensures forall i | 0 <= i < 2 * n :: !Probes(n, time)[i].signal.Failure?
    ensures n > 0 ==> Probes(n, time)[0] == Event(Check, time(0))
  {
    hide Successes;
    if n == 0 {
      NoSuccess();
    } else {
      ProbesCount(n - 1, time);
      var before, check, success := Probes(n - 1, time), Event(Check, time(2 * n - 2)), Event(Success, time(2 * n - 1));
      assert Probes(n, time) == before + [check] + [success];
      OneMoreCounted(before, check);
      OneMoreCounted(before + [check], success);
    }
  }

  /** Recovery is there to be had: once the period is over, as many checks as successes are asked for, each followed by
      its success, are all let through, and after the last the breaker is as good as new. */
  lemma {:induction false} RecoveryIsAttainable(t: Tuning, r: Record, time: nat -> real)
    requires r.state == Open && time(0) >= r.openedAt + t.halfOpenAfter
    ensures var n := Max(t.successes, 1);
            && Replay(t, r, Probes(n, time)) == FRESH
            && forall i | 0 <= i < |Probes(n, time)| && Probes(n, time)[i].signal.Check? ::
                 Passes(t, Replay(t, r, Probes(n, time)[..i]), Probes(n, time)[i].time)
  {
    hide After, Replay, Probes, Successes;
    var n := Max(t.successes, 1);
    var history := Probes(n, time);
    ProbesCount(n, time);
    FirstProbe(t, r, history[0]);
    var probing := Replay(t, r, [history[0]]);
    assert history == [history[0]] + history[1..];
    ReplaySplit(t, r, [history[0]], history[1..]);
    ClosesIffEnoughSuccesses(t, probing, history[1..]);
    CheckIsNoSuccess(history[0], history[1..]);
    forall i | 0 <= i < 2 * n && history[i].signal.Check?
      ensures Passes(t, Replay(t, r, history[..i]), history[i].time) {
      if i == 0 {
        NoHistory(t, r, history[..i]);
      } else {
        var between := history[1..i];
        assert history[..i] == [history[0]] + between;
        ReplaySplit(t, r, [history[0]], between);
        AdmitsUntilAFailure(t, probing, between);
      }
    }
  }

  lemma NoHistory(t: Tuning, r: Record, history: seq<Event>)
    requires history == []
    ensures Replay(t, r, history) == r
  {
  }

  lemma FirstProbe(t: Tuning, r: Record, e: Event)
    requires r.state == Open && e.signal.Check? && e.time >= r.openedAt + t.halfOpenAfter
    ensures Replay(t, r, [e]) == r.(state := HalfOpen, probes := 0) && Passes(t, r, e.time)
  {
    assert [e][..0] == [];
  }

  lemma {:induction false} CheckIsNoSuccess(e: Event, history: seq<Event>)
    requires !e.signal.Success?
    ensures Successes([e] + history) == Successes(history)
  {
    if history == [] {
      assert ([e] + history)[..0] == [];
    } else {
      assert ([e] + history)[..|history|] == [e] + history[..|history| - 1];
      CheckIsNoSuccess(e, history[..|history| - 1]);
    }
  }
}
