/**
 Cancelling a running job: the API writes a status (api/routes/research.py), the
 worker notices it in its progress callback (core/queue/tasks.py) and leaves the
 search loop (core/research/engine.py).  Reading a row and committing it are
 separate steps, and the API may act between any two.
 */
module Cancel {

  datatype Status = Pending | Running | Cancelled | Failed | Completed | CompletedWithWarnings

  /** The job's row and how many source rows it has. */
  datatype Job = Job(status: Status, progress: int, sources: nat, finished: bool)

  /** Where the worker stands. */
  datatype Pc =
    | NotStarted
    | Loaded        // read the row, "running" not committed yet
    | LoopTop
    | Searching     // inside a round
    | Reporting     // the callback has read the row and goes on to write
    | Finishing     // out of the loop
    | Ended

  /** `cancelSet` is the worker's event; `asked` counts the API calls that have read the row and will cancel it;
      `rounds` and `commits` count search rounds begun and callbacks committed. */
  datatype State = State(job: Job, cancelSet: bool, pc: Pc, asked: nat, rounds: nat, commits: nat)

  datatype Event =
    | AskCancel                        // the API's look at the status
    | CommitCancel                     // the API writes
    | Load
    | CommitRunning(hasBackend: bool)
    | StartRound
    | LeaveLoop                        // cancelled, out of rounds, out of budget, satisfied, ...
    | RoundDry                         // too many empty rounds: out without a callback
    | ReadRow                          // the callback's look at the status
    | CommitRows(found: nat, progress: int)
    | Finish(warnings: bool)
    | Crash                            // an exception anywhere in the worker, its first look at the row included

  /** The statuses the API refuses to cancel. */
  predicate Refused(s: Status) {
    s.Completed? || s.Failed? || s.Cancelled?
  }

  function Cancelling(job: Job): Job {
    job.(status := Cancelled, finished := true)
  }

  function Next(s: State, e: Event): State {
    match e
    case AskCancel => if Refused(s.job.status) then s else s.(asked := s.asked + 1)
    case CommitCancel => if s.asked == 0 then s else s.(job := Cancelling(s.job), asked := s.asked - 1)
    case Load =>
      if s.pc != NotStarted then s else s.(pc := if s.job.status.Cancelled? then Ended else Loaded)
    case CommitRunning(hasBackend) =>
      if s.pc != Loaded then s
      else if hasBackend then s.(job := s.job.(status := Running), pc := LoopTop)
      else s.(job := s.job.(status := Failed, finished := true), pc := Ended)
    case StartRound =>
      if s.pc == LoopTop && !s.cancelSet then s.(pc := Searching, rounds := s.rounds + 1) else s
    case LeaveLoop => if s.pc == LoopTop then s.(pc := Finishing) else s
    case RoundDry => if s.pc == Searching then s.(pc := Finishing) else s
    case ReadRow =>
      if s.pc != Searching then s
      else if s.job.status.Cancelled? then s.(cancelSet := true, pc := LoopTop)
      else s.(pc := Reporting)
    case CommitRows(found, progress) =>
      if s.pc != Reporting then s
      else s.(
        job := s.job.(sources := s.job.sources + found, progress := progress),
        pc := LoopTop,
        commits := s.commits + 1)
    case Finish(warnings) =>
      if s.pc != Finishing then s
      else
        var status := if warnings then CompletedWithWarnings else Completed;
        s.(job := s.job.(status := status, progress := 100, finished := true), pc := Ended)
    case Crash =>
      if s.pc.Ended? then s else s.(job := s.job.(status := Failed, finished := true), pc := Ended)
  }

  function Run(s: State, events: seq<Event>): State {
    if events == [] then s else Next(Run(s, events[..|events| - 1]), events[|events| - 1])
  }

  lemma RunOne(s: State, e: Event)
    ensures Run(s, [e]) == Next(s, e)
  {
    assert [e][..0] == [];
  }

  lemma TwoSteps(s: State, a: Event, b: Event)
    ensures Run(s, [a, b]) == Next(Next(s, a), b)
  {
    assert [a, b][..1] == [a] && [a][..0] == [];
    assert Run(s, [a]) == Next(s, a);
  }

  /** What can have happened since a cancel that was committed in `s`. */
  ghost predicate Since(s: State, t: State) {
    && (t.pc != Ended && s.pc != Ended ==> t.job.status.Cancelled?)
    && (t.pc.Reporting? ==> s.pc.Reporting? && t.rounds == s.rounds && t.commits == s.commits)
    && (t.pc.LoopTop? && !t.cancelSet ==> t.rounds == s.rounds)
    && (t.pc.NotStarted? ==> s.pc.NotStarted?) && !t.pc.Loaded?
    && (s.pc.Ended? ==> t.pc.Ended?) && (s.pc.NotStarted? ==> t.pc.NotStarted? || t.pc.Ended?)
    && (s.pc.Ended? ==> t.job.status.Cancelled?)
    && (s.pc.NotStarted? ==> t.job.status in {Cancelled, Failed} && t.rounds == s.rounds && t.commits == s.commits)
    && s.rounds <= t.rounds <= s.rounds + 1
    && s.commits <= t.commits <= s.commits + (if s.pc.Reporting? then 1 else 0)
    && (t.commits == s.commits ==> t.job.sources == s.job.sources)
    && (t.commits == s.commits && !t.pc.Ended? ==> t.job.progress == s.job.progress)
  }

  /** After a cancel, whatever comes: at most one more search round begins, and no callback that had not read the
      row by then writes anything, so with callbacks that are atomic none does. */
  lemma {:induction false} AfterCancel(s: State, events: seq<Event>)
    requires s.asked > 0 && !s.pc.Loaded?
    ensures Since(s, Run(Next(s, CommitCancel), events))
  {
    if events != [] {
      AfterCancel(s, events[..|events| - 1]);
      SinceGoesOn(s, Run(Next(s, CommitCancel), events[..|events| - 1]), events[|events| - 1]);
    }
  }

  lemma SinceGoesOn(s: State, t: State, e: Event)
    requires Since(s, t)
    ensures Since(s, Next(t, e))
  {
  }

  lemma RowsStayAfterCancel(s: State, events: seq<Event>)
    requires s.asked > 0 && !s.pc.Loaded? && !s.pc.Reporting?
    ensures var t := Run(Next(s, CommitCancel), events);
            && t.job.sources == s.job.sources && t.commits == s.commits
            && t.rounds <= s.rounds + 1
            && (t.pc != Ended ==> t.job.progress == s.job.progress)
  {
    AfterCancel(s, events);
  }

  /** A cancel stands in every run until the worker ends: exactly if it does not fall between the worker's first read
      and its commit. */
  lemma {:induction false} CancelStandsIff(s: State)
    requires s.asked > 0
    ensures (forall events ::
              var t := Run(Next(s, CommitCancel), events); t.pc != Ended ==> t.job.status.Cancelled?)
       <==> !s.pc.Loaded?
  {
    if s.pc.Loaded? {
      var t := Next(s, CommitCancel);
      RunOne(t, CommitRunning(true));
      assert Run(t, [CommitRunning(true)]).pc != Ended;
    } else {
      forall events
        ensures var t := Run(Next(s, CommitCancel), events); t.pc != Ended ==> t.job.status.Cancelled? {
        AfterCancel(s, events);
      }
    }
  }

  ghost predicate NoCrash(events: seq<Event>) {
    forall i | 0 <= i < |events| :: !events[i].Crash?
  }

  /** A worker that has not started when the cancel is written leaves the status alone, short of an exception. */
  lemma {:induction false} NeverStarted(s: State, events: seq<Event>)
    requires (s.pc.NotStarted? || s.pc.Ended?) && s.job.status.Cancelled? && NoCrash(events)
    ensures var t := Run(s, events); (t.pc.NotStarted? || t.pc.Ended?) && t.job.status.Cancelled?
  {
    if events != [] {
      NeverStarted(s, events[..|events| - 1]);
    }
  }

  /** What the worker does next on its way to the end. */
  function WayOut(pc: Pc): seq<Event> {
    match pc
    case Loaded => [CommitRunning(false)]
    case LoopTop => [LeaveLoop, Finish(false)]
    case Searching => [RoundDry, Finish(false)]
    case Reporting => [CommitRows(0, 0), LeaveLoop, Finish(false)]
    case Finishing => [Finish(false)]
    case _ => []
  }

  lemma ThreeSteps(s: State, a: Event, b: Event, c: Event)
    ensures Run(s, [a, b, c]) == Next(Next(Next(s, a), b), c)
  {
    TwoSteps(s, a, b);
    assert [a, b, c][..2] == [a, b];
  }

  lemma {:induction false} WayOutOverwrites(s: State)
    requires !s.pc.NotStarted? && !s.pc.Ended?
    ensures NoCrash(WayOut(s.pc)) && !Run(s, WayOut(s.pc)).job.status.Cancelled?
  {
    match s.pc
    case Loaded => RunOne(s, CommitRunning(false));
    case LoopTop => TwoSteps(s, LeaveLoop, Finish(false));
    case Searching => TwoSteps(s, RoundDry, Finish(false));
    case Reporting => ThreeSteps(s, CommitRows(0, 0), LeaveLoop, Finish(false));
    case Finishing => RunOne(s, Finish(false));
  }

  /** `cancelled` is the last word exactly if the worker has ended; in runs without an exception, exactly if it has not
      started yet or has ended: in between, its last write overwrites it. */
  lemma {:induction false} CancelIsFinalIff(s: State)
    requires s.asked > 0
    ensures (forall events :: Run(Next(s, CommitCancel), events).job.status.Cancelled?) <==> s.pc.Ended?
    ensures (forall events | NoCrash(events) :: Run(Next(s, CommitCancel), events).job.status.Cancelled?)
       <==> s.pc.NotStarted? || s.pc.Ended?
  {
    var t := Next(s, CommitCancel);
    if s.pc.Ended? {
      forall events ensures Run(t, events).job.status.Cancelled? {
        AfterCancel(s, events);
      }
    } else {
      RunOne(t, Crash);
      assert !Run(t, [Crash]).job.status.Cancelled?;
    }
    if s.pc.NotStarted? || s.pc.Ended? {
      forall events | NoCrash(events) ensures Run(t, events).job.status.Cancelled? {
        NeverStarted(t, events);
      }
    } else {
      WayOutOverwrites(t);
      assert NoCrash(WayOut(t.pc));
    }
  }

  /** A lost cancel stops nothing: rounds and writes go on as if it had not been made. */
  lemma {:induction false} LostCancel(s: State, events: seq<Event>)
    requires s.asked > 0 && s.pc.Loaded?
    ensures var lost := Run(Next(Next(s, CommitCancel), CommitRunning(true)), events);
            var never := Run(Next(s.(asked := s.asked - 1), CommitRunning(true)), events);
            lost == never.(job := never.job.(finished := lost.job.finished))
  {
    if events != [] {
      LostCancel(s, events[..|events| - 1]);
      SameButFinished(
        Run(Next(Next(s, CommitCancel), CommitRunning(true)), events[..|events| - 1]),
        Run(Next(s.(asked := s.asked - 1), CommitRunning(true)), events[..|events| - 1]), events[|events| - 1]);
    }
  }

  lemma SameButFinished(a: State, b: State, e: Event)
    requires a == b.(job := b.job.(finished := a.job.finished))
    ensures Next(a, e) == Next(b, e).(job := Next(b, e).job.(finished := Next(a, e).job.finished))
  {
  }

  lemma {:induction false} EndedStatus(s: State, events: seq<Event>)
    requires s.pc.Ended?
    ensures Run(s, events).pc.Ended?
    ensures s.job.status.Cancelled? ==> Run(s, events).job.status.Cancelled?
    ensures Refused(s.job.status) && s.asked == 0 ==> Run(s, events).job == s.job && Run(s, events).asked == 0
  {
    if events != [] {
      EndedStatus(s, events[..|events| - 1]);
    }
  }

  /** Once the worker has ended a status is final in every run exactly if it is `cancelled`, or it is `completed` or
      `failed` and no API call has yet to write.  `completed_with_warnings` is not: it can still be cancelled. */
  lemma {:induction false} EndedStatusIsFinalIff(s: State)
    requires s.pc.Ended?
    ensures (forall events :: Run(s, events).job.status == s.job.status)
       <==> s.job.status == Cancelled || (s.job.status in {Completed, Failed} && s.asked == 0)
  {
    if s.job.status.Cancelled? || (Refused(s.job.status) && s.asked == 0) {
      forall events ensures Run(s, events).job.status == s.job.status {
        EndedStatus(s, events);
      }
    } else if s.asked > 0 {
      RunOne(s, CommitCancel);
      assert Run(s, [CommitCancel]).job.status != s.job.status;
    } else {
      TwoSteps(s, AskCancel, CommitCancel);
      assert Run(s, [AskCancel, CommitCancel]).job.status != s.job.status;
    }
  }

  /** What holds of a job and its worker from the beginning on. */
  ghost predicate Sensible(s: State) {
    && (s.job.status in {Cancelled, Failed, Completed, CompletedWithWarnings} ==>
          s.job.finished || (s.pc != Ended && s.pc != NotStarted))
    && (s.pc.Ended? ==> s.job.finished && s.job.status !in {Pending, Running})
    && (s.job.status in {Completed, CompletedWithWarnings} ==> s.pc.Ended? && s.job.progress == 100)
    && (s.pc.NotStarted? ==> s.job.status in {Pending, Cancelled} && s.job.sources == 0)
    && s.commits <= s.rounds
    && (s.commits == 0 ==> s.job.sources == 0)
    && (s.pc.Searching? || s.pc.Reporting? ==> s.commits < s.rounds)
  }

  lemma StepIsSensible(s: State, e: Event)
    requires Sensible(s)
    ensures Sensible(Next(s, e))
  {
  }

  /** However a job goes, once its worker has ended it is marked finished with a final status, and a completed one is at
      a hundred per cent; rows are only ever written by callbacks, at most one for each round. */
  lemma {:induction false} HowJobsEnd(events: seq<Event>)
    ensures Sensible(Run(State(Job(Pending, 0, 0, false), false, NotStarted, 0, 0, 0), events))
  {
    if events != [] {
      HowJobsEnd(events[..|events| - 1]);
      StepIsSensible(
        Run(State(Job(Pending, 0, 0, false), false, NotStarted, 0, 0, 0), events[..|events| - 1]),
        events[|events| - 1]);
    }
  }

  // ---------------------------------------------------------------------------
  // The two programs
  // ---------------------------------------------------------------------------

  class JobRow {
    var status: Status
    var progress: int
    var sources: nat
    var finished: bool

    constructor ()
      ensures Value() == Job(Pending, 0, 0, false)
    {
      status, progress, sources, finished := Pending, 0, 0, false;
    }

    function Value(): Job
      reads this
    {
      Job(status, progress, sources, finished)
    }
  }

  /** `cancel_research_job`: 404, 409 or 204. */
  method CancelResearchJob(job: JobRow?) returns (code: int)
    modifies job
    ensures code == 404 <==> job == null
    ensures code == 409 <==> job != null && old(job.status) in {Completed, Failed, Cancelled}
    ensures code == 204 <==> job != null && old(job.status) in {Pending, Running, CompletedWithWarnings}
    ensures code == 204 ==> job.Value() == Job(Cancelled, old(job.progress), old(job.sources), true)
    ensures code == 409 ==> job.Value() == old(job.Value())
    // two steps of the protocol
    ensures job != null ==> forall s: State | s.job == old(job.Value()) && s.asked == 0 ::
                Run(s, [AskCancel, CommitCancel]) == s.(job := job.Value())
  {
    if job == null {
      return 404;
    }
    forall s: State ensures Run(s, [AskCancel, CommitCancel]) == Next(Next(s, AskCancel), CommitCancel) {
      TwoSteps(s, AskCancel, CommitCancel);
    }
    if job.status == Completed || job.status == Failed || job.status == Cancelled {
      return 409;
    }
    job.status := Cancelled;
    job.finished := true;
    return 204;
  }

  class Worker {
    const job: JobRow
    var cancelSet: bool

    constructor (job: JobRow)
      ensures this.job == job && !cancelSet
    {
      this.job, cancelSet := job, false;
    }

    /** The worker and its job as a protocol state. */
    ghost function At(pc: Pc, asked: nat, rounds: nat, commits: nat): State
      reads this, job
    {
      State(job.Value(), cancelSet, pc, asked, rounds, commits)
    }

    /** `on_progress`, with nothing between its read and its commit: two steps of the protocol. */
    method OnProgress(found: nat, progress: int, ghost asked: nat, ghost rounds: nat, ghost commits: nat)
      returns (ghost after: State)
      modifies this, job
      ensures after == Run(old(At(Searching, asked, rounds, commits)), [ReadRow, CommitRows(found, progress)])
      ensures after == At(LoopTop, asked, rounds, after.commits)
    {
      ghost var s := At(Searching, asked, rounds, commits);
      TwoSteps(s, ReadRow, CommitRows(found, progress));
      after := Run(s, [ReadRow, CommitRows(found, progress)]);
      if job.status == Cancelled {
        cancelSet := true;
        return;
      }
      var added := 0;
      while added < found
        invariant 0 <= added <= found && job.sources == old(job.sources) + added
        invariant job.status == old(job.status) && job.progress == old(job.progress)
                  && job.finished == old(job.finished)
        invariant cancelSet == old(cancelSet)
      {
        job.sources := job.sources + 1;
        added := added + 1;
      }
      job.progress := progress;
    }
  }
}
