/** One background task and its slice of the module's maps: the queue entries, the executor and the wake-up timer. Each
    handler runs as one step in a process whose writes succeed; the steps come in any order. */
module Suspension {
  import opened Basics

  datatype Status = Running | Suspended | Done | Error | Cancelled

  predicate Terminal(status: Status) { status == Done || status == Error || status == Cancelled }

  /** The part of a task record that matters here. `wakeAt` is the parsed time, if it could be parsed, and `stage` the
      stage of the progress report. */
  datatype Record = Record(status: Status, wakeAt: Option<int>, revision: int, ledger: Option<int>, stage: string)

  /** What an armed timer has captured. */
  datatype Timer = Timer(revision: int, ledger: int)

  datatype Wake = Ignored | Claimed | Woken

  /** A suspended record that a timer can be set for. */
  predicate Timed(r: Record) {
    r.status == Suspended && r.revision > 0 && r.ledger.Some? && r.ledger.value >= 0 && r.wakeAt.Some?
  }

  predicate Rising(s: seq<int>) {
    forall i, j | 0 <= i < j < |s| :: s[i] < s[j]
  }

  predicate Matches(r: Record, revision: int, ledger: int) {
    r.status == Suspended && r.revision == revision && r.ledger == Some(ledger)
  }

  /** What can happen to a task. An event of a queue entry or a run happens only while there is one. */
  datatype Event =
    | Starts
    | Reports(stage: string)
    | TimesOut
    | Ends(status: Status)
    | Suspends(wakeAt: Option<int>, ledger: int)
    | Wakes(revision: int, ledger: int, free: bool)
    | Fires(now: int, free: bool)
    | Cancels
    | Recovers(resumes: bool)

  class BackgroundTask {
    var record: Record
    var timer: Option<Timer>
    var hasExecutor: bool
    /** Entries of this task that wait in the queue, and runs that have begun and not ended. */
    var queued: int
    var runs: int
    /** The revisions that were woken, the revisions that were suspended, and all entries that were ever put in the queue. */
    ghost var woken: seq<int>
    ghost var suspensions: seq<int>
    ghost var enqueued: nat
    ghost const first: nat

    ghost predicate Valid()
      reads this
    {
      && record.revision >= 0 && queued >= 0 && runs >= 0
      // One queue entry for the admission, if it started at once, and one for every wake.
      && enqueued == first + |woken| && first <= 1
      // Suspensions are numbered upwards, and no number is woken twice.
      && Rising(suspensions) && (forall i | 0 <= i < |suspensions| :: suspensions[i] <= record.revision)
      && Rising(woken) && (forall i | 0 <= i < |woken| :: woken[i] <= record.revision)
      && (record.status == Suspended ==> forall i | 0 <= i < |woken| :: woken[i] < record.revision)
      // The task never waits and runs at once, and a suspended task does neither.
      && queued + runs <= 1 && (record.status == Suspended ==> queued + runs == 0)
      && (record.status == Running ==> hasExecutor) && (Terminal(record.status) ==> !hasExecutor)
      // An armed timer belongs to the present suspension, or to a task that was cancelled after it had lost its executor.
      && (timer.Some? ==> queued + runs == 0 && (TimerIsCurrent() || (Terminal(record.status) && !hasExecutor)))
    }

    predicate TimerIsCurrent()
      requires timer.Some?
      reads this
    {
      Timed(record) && Matches(record, timer.value.revision, timer.value.ledger)
    }

    /** A task that is admitted and put in the queue. */
    constructor Admitted()
      ensures Valid() && record == Record(Running, None, 0, None, "queued") && queued == 1 && runs == 0 && enqueued == 1
      ensures hasExecutor && timer.None? && woken == [] && suspensions == []
    {
      record := Record(Running, None, 0, None, "queued");
      timer, hasExecutor, queued, runs := None, true, 1, 0;
      woken, suspensions, enqueued, first := [], [], 1, 1;
    }

    /** A suspended task that a process has read from its file. */
    constructor Reloaded(wakeAt: Option<int>, revision: int, ledger: Option<int>, stage: string)
      requires revision >= 0
      ensures Valid() && record == Record(Suspended, wakeAt, revision, ledger, stage)
      ensures queued == 0 && runs == 0 && enqueued == 0 && !hasExecutor && timer.None? && woken == [] && suspensions == []
    {
      record := Record(Suspended, wakeAt, revision, ledger, stage);
      timer, hasExecutor, queued, runs := None, false, 0, 0;
      woken, suspensions, enqueued, first := [], [], 0, 0;
    }

    /** `scheduleSuspensionTimer`. */
    method ScheduleTimer()
      modifies this`timer
      ensures timer == if Timed(record) then Some(Timer(record.revision, record.ledger.value)) else old(timer)
    {
      if !Timed(record) { return; }
      timer := Some(Timer(record.revision, record.ledger.value));
    }

    /** `discardBackgroundTaskExecution`, which does nothing, not even to the timer, when there is no executor. */
    method Discard()
      modifies this`hasExecutor, this`timer
      ensures !hasExecutor && timer == if old(hasExecutor) then None else old(timer)
    {
      if !hasExecutor { return; }
      hasExecutor := false;
      timer := None;
    }

    /** The queue starts an entry. A task that is no longer running ends at once. */
    method Begin() returns (goes: bool)
      requires Valid() && queued > 0
      modifies this`queued, this`runs, this`record
      ensures Valid() && goes == (old(record).status == Running)
      ensures queued == old(queued) - 1 && runs == old(runs) + if goes then 1 else 0
      ensures record == if goes then old(record).(stage := "running") else old(record)
    {
      queued := queued - 1;
      goes := record.status == Running;
      if goes {
        runs := runs + 1;
        UpdateProgress("running");
      }
    }

    /** `updateProgress`: only a running task takes a report. */
    method UpdateProgress(stage: string)
      requires Valid()
      modifies this`record
      ensures Valid()
      ensures record == if old(record).status == Running then old(record).(stage := stage) else old(record)
    {
      if record.status != Running { return; }
      record := record.(stage := stage);
    }

    /** `settle`, from the run or from its timeout: only a running task takes a terminal status. */
    method Settle(status: Status)
      requires Valid() && Terminal(status)
      modifies this`record, this`hasExecutor, this`timer
      ensures Valid() && record == if old(record).status == Running then old(record).(status := status) else old(record)
      ensures old(record).status == Running ==> !hasExecutor && timer.None?
      ensures old(record).status != Running ==> hasExecutor == old(hasExecutor) && timer == old(timer)
    {
      if record.status != Running { return; }
      record := record.(status := status);
      Discard();
    }

    /** A run returns, or fails with an error other than a suspension. */
    method RunEnds(status: Status)
      requires Valid() && Terminal(status) && runs > 0
      modifies this`record, this`hasExecutor, this`timer, this`runs
      ensures Valid() && runs == old(runs) - 1
      ensures record == if old(record).status == Running then old(record).(status := status) else old(record)
      ensures old(!hasExecutor) ==> !hasExecutor
    {
      Settle(status);
      runs := runs - 1;
    }

    /** A run throws the suspension signal: `suspendBackgroundTaskExecution`, which does not look at the status. A terminal
        task is left suspended, without an executor. */
    method RunSuspends(wakeAt: Option<int>, ledger: int)
      requires Valid() && runs > 0
      modifies this`record, this`timer, this`runs, this`suspensions
      ensures Valid() && record == Record(Suspended, wakeAt, old(record).revision + 1, Some(ledger), "suspended")
      ensures runs == old(runs) - 1
      ensures suspensions == old(suspensions) + [record.revision]
      ensures timer.Some? <==> wakeAt.Some? && ledger >= 0
      ensures hasExecutor <==> old(record).status == Running
    {
      record := Record(Suspended, wakeAt, record.revision + 1, Some(ledger), "suspended");
      suspensions := suspensions + [record.revision];
      runs := runs - 1;
      ScheduleTimer();
    }

    /** `wakeBackgroundTask`; `free` says that no other process holds the claim. */
    method WakeUp(revision: int, ledger: int, free: bool) returns (outcome: Wake)
      requires Valid()
      modifies this`record, this`timer, this`queued, this`woken, this`enqueued
      ensures Valid()
      ensures outcome == if !Matches(old(record), revision, ledger) || !hasExecutor then Ignored
                         else if !free then Claimed else Woken
      ensures outcome == Woken ==>
                && record == Record(Running, None, revision, None, "queued") && timer.None?
                && queued == old(queued) + 1 && enqueued == old(enqueued) + 1
                && woken == old(woken) + [revision] && revision !in old(woken)
      ensures outcome != Woken ==>
                record == old(record) && timer == old(timer) && queued == old(queued) && enqueued == old(enqueued) && woken == old(woken)
    {
      if !Matches(record, revision, ledger) { return Ignored; }
      if !hasExecutor { return Ignored; }
      if !free { return Claimed; }
      record := Record(Running, None, record.revision, None, "queued");
      timer := None;
      woken, enqueued := woken + [revision], enqueued + 1;
      queued := queued + 1;
      outcome := Woken;
    }

    /** The armed timer fires. A stale one changes nothing. One of the present suspension is armed again before its time,
        as after the longest delay; else the task is woken, unless another process holds the claim or there is no executor. */
    method TimerFires(now: int, free: bool) returns (outcome: Wake)
      requires Valid() && timer.Some?
      modifies this`record, this`timer, this`queued, this`woken, this`enqueued
      ensures Valid()
      ensures outcome == if old(TimerIsCurrent()) && old(record).wakeAt.value <= now && hasExecutor
                         then (if free then Woken else Claimed) else Ignored
      ensures outcome == Woken ==>
                && record == Record(Running, None, old(record).revision, None, "queued") && timer.None?
                && queued == 1 && enqueued == old(enqueued) + 1
                && woken == old(woken) + [record.revision] && record.revision !in old(woken)
      ensures outcome != Woken ==>
                && record == old(record) && queued == old(queued) && enqueued == old(enqueued) && woken == old(woken)
                && timer == if old(TimerIsCurrent()) && record.wakeAt.value > now then old(timer) else None
    {
      var captured := timer.value;
      timer := None;
      if !Matches(record, captured.revision, captured.ledger) { return Ignored; }
      if record.wakeAt.Some? && record.wakeAt.value > now {
        ScheduleTimer();
        return Ignored;
      }
      outcome := WakeUp(captured.revision, captured.ledger, free);
    }

    /** `cancelBackgroundTask`, for a task that is not a scheduler's. A suspended task without an executor keeps its timer. */
    method Cancel()
      requires Valid()
      modifies this`record, this`hasExecutor, this`timer
      ensures Valid()
      ensures record == if Terminal(old(record).status) then old(record) else old(record).(status := Cancelled)
      ensures !hasExecutor && timer == if old(hasExecutor) then None else old(timer)
    {
      if record.status != Running && record.status != Suspended { return; }
      record := record.(status := Cancelled);
      Discard();
    }

    /** `recoverSuspendedBackgroundTask`; `resumes` says that the claim is free, the record has a reason for its waiting and
        passes its checks, and the handler of its kind offers to resume it. */
    method Recover(resumes: bool)
      requires Valid()
      modifies this`hasExecutor, this`timer
      ensures Valid()
      ensures hasExecutor == (old(hasExecutor) || (Timed(record) && resumes))
      ensures timer == if Timed(record) && resumes then Some(Timer(record.revision, record.ledger.value)) else old(timer)
    {
      if record.status != Suspended { return; }
      if !Timed(record) || !resumes { return; }
      timer := None;
      hasExecutor := true;
      ScheduleTimer();
    }

    /** One event. A terminal record changes exactly when a suspension signal arrives from a run that is still on its way,
        and a lost executor comes back by a recovery only. */
    method Step(event: Event)
      requires Valid() && (event.Ends? ==> Terminal(event.status))
      modifies this
      ensures Valid() && old(woken) <= woken && old(suspensions) <= suspensions
      ensures Terminal(old(record).status) ==> (record != old(record) <==> event.Suspends? && old(runs) > 0)
      ensures Terminal(old(record).status) && record != old(record) ==> record.status == Suspended && !hasExecutor
      ensures !old(hasExecutor) && hasExecutor ==> event == Recovers(true) && Timed(old(record))
      ensures !old(hasExecutor) ==> woken == old(woken) && enqueued == old(enqueued)
    {
      hide BackgroundTask.Valid;
      ExecutorsFollowStatus();
      match event
      case Starts => if queued > 0 { var _ := Begin(); }
      case Reports(stage) => if runs > 0 { UpdateProgress(stage); }
      case TimesOut => if runs > 0 { Settle(Error); }
      case Ends(status) => if runs > 0 { RunEnds(status); }
      case Suspends(wakeAt, ledger) => if runs > 0 { RunSuspends(wakeAt, ledger); }
      case Wakes(revision, ledger, free) => var _ := WakeUp(revision, ledger, free);
      case Fires(now, free) => if timer.Some? { var _ := TimerFires(now, free); }
      case Cancels => Cancel();
      case Recovers(resumes) => Recover(resumes);
    }

    lemma ExecutorsFollowStatus()
      requires Valid()
      ensures record.status == Running ==> hasExecutor
      ensures Terminal(record.status) ==> !hasExecutor
    {
    }

    /** Any events in any order. Revisions rise and none is woken twice (`Valid`); without a late signal a terminal record
        is final; and once the executor is lost, nothing but a recovery leads to another wake or run. */
    method Steps(events: seq<Event>)
      requires Valid() && forall e | e in events :: e.Ends? ==> Terminal(e.status)
      modifies this
      ensures Valid() && old(woken) <= woken && old(suspensions) <= suspensions
      ensures Terminal(old(record).status) && (forall e | e in events :: !e.Suspends?) ==> record == old(record)
      ensures !old(hasExecutor) && (forall e | e in events :: !e.Recovers?) ==>
                !hasExecutor && record.status != Running && woken == old(woken) && enqueued == old(enqueued)
    {
      hide BackgroundTask.Valid;
      for i := 0 to |events|
        invariant Valid() && old(woken) <= woken && old(suspensions) <= suspensions
        invariant Terminal(old(record).status) && (forall e | e in events :: !e.Suspends?) ==> record == old(record)
        invariant !old(hasExecutor) && (forall e | e in events :: !e.Recovers?) ==>
                    !hasExecutor && woken == old(woken) && enqueued == old(enqueued)
      {
        assert events[i] in events;
        Step(events[i]);
      }
      ExecutorsFollowStatus();
    }
  }

  /** A run that times out and then asks to be suspended: the task is suspended with a timer but without an executor, and
      whatever happens then, short of a recovery, it never runs again. */
  method LateSignal(wakeAt: Option<int>, ledger: int, events: seq<Event>) returns (task: BackgroundTask)
    requires forall e | e in events :: !e.Recovers? && (e.Ends? ==> Terminal(e.status))
    ensures fresh(task) && task.Valid() && task.woken == [] && task.enqueued == 1 && task.record.status != Running
    ensures events == [] ==>
              && task.record == Record(Suspended, wakeAt, 1, Some(ledger), "suspended") && !task.hasExecutor
              && (task.timer.Some? <==> wakeAt.Some? && ledger >= 0)
  {
    hide BackgroundTask.Valid;
    task := new BackgroundTask.Admitted();
    var _ := task.Begin();
    task.Settle(Error);
    task.RunSuspends(wakeAt, ledger);
    if events != [] { task.Steps(events); }
  }

  /** Cancelling that task leaves its timer armed; when it fires, nothing happens. */
  method StaleTimer(wakeAt: int, ledger: nat, now: int, free: bool) returns (task: BackgroundTask, outcome: Wake)
    ensures fresh(task) && outcome == Ignored && task.timer.None?
    ensures task.record == Record(Cancelled, Some(wakeAt), 1, Some(ledger), "suspended") && task.woken == [] && task.queued == 0
  {
    hide BackgroundTask.Valid;
    task := LateSignal(Some(wakeAt), ledger, []);
    task.Cancel();
    outcome := task.TimerFires(now, free);
  }
}
