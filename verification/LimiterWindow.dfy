/**
 The rpm window: a window opens with its first grant and nothing is ever taken
 back, so every fixed window holds at most `maxRpm` grants and every interval of
 a window's length at most twice as many.
 */
module LimiterWindow {
  import opened LimiterProtocol
  import opened Options

  function InWindow(log: seq<Grant>, start: real): nat {
    if log == [] then 0
    else InWindow(log[..|log| - 1], start) + if log[|log| - 1].start == start then 1 else 0
  }

  function Between(log: seq<Grant>, lo: real, hi: real): nat {
    if log == [] then 0
    else Between(log[..|log| - 1], lo, hi) + if lo <= log[|log| - 1].time < hi then 1 else 0
  }

  /** Windows follow each other at least a window apart, and grants lie inside their window. */
  ghost predicate Windows(log: seq<Grant>, w: real) {
    && (forall i | 0 <= i < |log| :: log[i].start <= log[i].time < log[i].start + w)
    && (forall i, j | 0 <= i < j < |log| ::
          log[i].time <= log[j].time && (log[i].start == log[j].start || log[i].start + w <= log[j].start))
  }

  ghost predicate Bounded(log: seq<Grant>, max: int) {
    forall start :: InWindow(log, start) <= max
  }

  /** A log of grants and the key it left behind; `max` is 0 for no limit. */
  ghost predicate LogOk(log: seq<Grant>, w: real, max: int, now: real, key: Option<RpmKey>) {
    && Windows(log, w)
    && (max > 0 ==> Bounded(log, max))
    && (log == [] ==> key == None)
    && (log != [] ==>
          var last := log[|log| - 1];
          last.time <= now && key == Some(RpmKey(InWindow(log, last.start), last.start + w)))
  }

  function KeyOf(db: Db, c: string): Option<RpmKey> {
    if c in db.rpm then Some(db.rpm[c]) else None
  }

  ghost predicate WindowOk(s: State, c: string) {
    LogOk(GrantsOf(s, c), s.lim.window as real, s.lim.maxRpm, s.now, KeyOf(s.db, c))
  }

  lemma {:induction false} NoneInWindow(log: seq<Grant>, start: real)
    requires forall i | 0 <= i < |log| :: log[i].start != start
    ensures InWindow(log, start) == 0
  {
    if log != [] {
      NoneInWindow(log[..|log| - 1], start);
    }
  }

  /** A grant joins the open window, or opens one once the last has ended. */
  lemma WindowsGrow(log: seq<Grant>, g: Grant, w: real)
    requires Windows(log, w) && w > 0.0 && g.start <= g.time < g.start + w
    requires log != [] ==> log[|log| - 1].time <= g.time
    requires log != [] ==> g.start == log[|log| - 1].start || log[|log| - 1].start + w <= g.start
    ensures Windows(log + [g], w)
  {
    assert forall i | 0 <= i < |log| :: log[i].start <= log[|log| - 1].start;
  }

  lemma CountsGrow(log: seq<Grant>, g: Grant, max: int)
    requires Bounded(log, max) && InWindow(log, g.start) < max
    ensures Bounded(log + [g], max)
  {
    assert (log + [g])[..|log|] == log;
  }

  lemma OneMoreInWindow(log: seq<Grant>, g: Grant)
    ensures InWindow(log + [g], g.start) == InWindow(log, g.start) + 1
  {
    assert (log + [g])[..|log|] == log;
  }

  function Live(key: Option<RpmKey>, now: real): int {
    if key.Some? && now < key.value.expires then key.value.count else 0
  }

  lemma GrantLogged(log: seq<Grant>, w: real, max: int, now: real, key: Option<RpmKey>, g: Grant)
    requires LogOk(log, w, max, now, key) && w > 0.0 && g.time == now && g.start <= now < g.start + w
    requires log != [] ==> g.start == log[|log| - 1].start || log[|log| - 1].start + w <= g.start
    requires max > 0 ==> InWindow(log, g.start) < max
    ensures LogOk(log + [g], w, max, now, Some(RpmKey(InWindow(log, g.start) + 1, g.start + w)))
  {
    hide Windows, InWindow, Bounded;
    WindowsGrow(log, g, w);
    if max > 0 {
      CountsGrow(log, g, max);
    }
    OneMoreInWindow(log, g);
  }

  lemma LastCounted(log: seq<Grant>)
    requires log != []
    ensures InWindow(log, log[|log| - 1].start) >= 1
  {
  }

  /** The last window has ended. */
  lemma NoneStartsNow(log: seq<Grant>, w: real, now: real)
    requires Windows(log, w) && w > 0.0 && (log != [] ==> log[|log| - 1].start + w <= now)
    ensures InWindow(log, now) == 0
  {
    assert forall i | 0 <= i < |log| :: log[i].start <= log[|log| - 1].start;
    NoneInWindow(log, now);
  }

  /** A grant joins the open window, or is the first of a new one. */
  lemma LogGrows(log: seq<Grant>, w: real, max: int, now: real, key: Option<RpmKey>, key': RpmKey)
    requires LogOk(log, w, max, now, key) && w > 0.0 && !Full(max, Live(key, now))
    requires key' == RpmKey(Live(key, now) + 1, if Live(key, now) == 0 then now + w else key.value.expires)
    ensures LogOk(log + [Grant(now, key'.expires - w)], w, max, now, Some(key'))
  {
    hide Windows, InWindow;
    var g := Grant(now, key'.expires - w);
    if log == [] || now >= key.value.expires {
      NoneStartsNow(log, w, now);
    } else {
      LastCounted(log);
      LastStarted(log, w);
    }
    GrantLogged(log, w, max, now, key, g);
  }

  lemma LastStarted(log: seq<Grant>, w: real)
    requires log != [] && Windows(log, w)
    ensures log[|log| - 1].start <= log[|log| - 1].time
  {
  }

  lemma GrantKeeps(s: State, k: nat, req: Req, stamp: int)
    requires s.lim.window > 0 && k < |s.callers| && WindowOk(s, req.cred)
    requires Check(s.lim, s.db, s.now, req, stamp).Granted?
    ensures WindowOk(ReserveStep(s, k, req, stamp), req.cred)
  {
    hide LogOk;
    var c := req.cred;
    var key := BumpRpm(s.lim, s.db, s.now, c);
    var r := ReserveStep(s, k, req, stamp);
    assert GetRpm(s.db, c, s.now) == Live(KeyOf(s.db, c), s.now);
    assert Live(KeyOf(s.db, c), s.now) >= 0 by {
      CountIsNat(GrantsOf(s, c), s, c);
    }
    LogGrows(GrantsOf(s, c), s.lim.window as real, s.lim.maxRpm, s.now, KeyOf(s.db, c), key);
    assert KeyOf(r.db, c) == Some(key);
    assert GrantsOf(r, c) == GrantsOf(s, c) + [Grant(s.now, key.expires - s.lim.window as real)];
  }

  lemma CountIsNat(log: seq<Grant>, s: State, c: string)
    requires WindowOk(s, c)
    ensures Live(KeyOf(s.db, c), s.now) >= 0
  {
  }

  lemma {:induction false} StepKeepsWindow(s: State, e: Event, c: string)
    requires s.lim.window > 0 && WindowOk(s, c)
    ensures WindowOk(Next(s, e), c)
  {
    if e.Reserve? && e.req.cred == c && Next(s, e) != s {
      GrantKeeps(s, e.k, e.req, e.stamp);
    } else {
      OtherStepsKeepGrants(s, e, c);
    }
  }

  /** Only a reserve script of the same credential touches its rpm key or its grants. */
  lemma OtherStepsKeepGrants(s: State, e: Event, c: string)
    requires !(e.Reserve? && e.req.cred == c && Next(s, e) != s)
    ensures GrantsOf(Next(s, e), c) == GrantsOf(s, c)
    ensures (c in Next(s, e).db.rpm) == (c in s.db.rpm)
    ensures c in s.db.rpm ==> Next(s, e).db.rpm[c] == s.db.rpm[c]
  {
  }

  lemma {:induction false} RunKeepsWindow(lim: Limits, now: real, events: seq<Event>, c: string)
    requires lim.window > 0
    ensures WindowOk(Run(Start(lim, now), events), c)
    decreases |events|
  {
    if events != [] {
      RunKeepsWindow(lim, now, events[..|events| - 1], c);
      StepKeepsWindow(Run(Start(lim, now), events[..|events| - 1]), events[|events| - 1], c);
    }
  }

  lemma {:induction false} TwoWindowsCover(log: seq<Grant>, lo: real, hi: real, a: real, b: real)
    requires forall i | 0 <= i < |log| && lo <= log[i].time < hi :: log[i].start == a || log[i].start == b
    ensures Between(log, lo, hi) <= InWindow(log, a) + InWindow(log, b)
  {
    if log != [] {
      TwoWindowsCover(log[..|log| - 1], lo, hi, a, b);
    }
  }

  lemma FirstOrLast(log: seq<Grant>, w: real, lo: real, first: nat, i: nat, last: nat)
    requires Windows(log, w) && first <= i <= last < |log| && lo <= log[first].time && log[last].time < lo + w
    ensures log[i].start == log[first].start || log[i].start == log[last].start
  {
  }

  /** An interval of a window's length meets at most two windows. */
  lemma AtMostTwoWindows(log: seq<Grant>, w: real, lo: real) returns (a: real, b: real)
    requires Windows(log, w)
    ensures forall i | 0 <= i < |log| && lo <= log[i].time < lo + w :: log[i].start == a || log[i].start == b
  {
    hide Windows;
    var first, last := 0, |log|;
    while first < |log| && log[first].time < lo
      invariant 0 <= first <= |log|
      invariant forall i | 0 <= i < first :: log[i].time < lo
    {
      first := first + 1;
    }
    while last > 0 && log[last - 1].time >= lo + w
      invariant 0 <= last <= |log|
      invariant forall i | last <= i < |log| :: log[i].time >= lo + w
    {
      last := last - 1;
    }
    if first < last {
      a, b := log[first].start, log[last - 1].start;
      forall i | first <= i < last ensures log[i].start == a || log[i].start == b {
        FirstOrLast(log, w, lo, first, i, last - 1);
      }
    } else {
      a, b := lo, lo;
    }
  }

  /** Every fixed window holds at most `maxRpm` grants, every interval as long as a window at most twice that. */
  lemma SlidingWindow(s: State, c: string, lo: real)
    requires Reachable(s) && s.lim.window > 0 && s.lim.maxRpm > 0
    ensures forall start :: InWindow(GrantsOf(s, c), start) <= s.lim.maxRpm
    ensures Between(GrantsOf(s, c), lo, lo + s.lim.window as real) <= 2 * s.lim.maxRpm
  {
    hide Windows, InWindow, Between, Run;
    var now: real, events: seq<Event> :| s == Run(Start(s.lim, now), events);
    RunKeepsWindow(s.lim, now, events, c);
    var log := GrantsOf(s, c);
    var w := s.lim.window as real;
    var a, b := AtMostTwoWindows(log, w, lo);
    TwoWindowsCover(log, lo, lo + w, a, b);
  }
}
