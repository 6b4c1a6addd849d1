/** The multi-lane background queue. A run may enqueue more work while it starts, so `drain` is entered again from inside
    itself; the invariants hold at every such entry and over every order of enqueuing and completion. */
module TaskQueue {

  datatype Lane = Default | RecordUpdate | RecordBatchUpdate

  /** A queued run: its lane, and what it enqueues before it first waits. */
  datatype Job = Job(id: nat, lane: Lane, spawns: Jobs)

  datatype Jobs = Done | Next(job: Job, more: Jobs)

  function Size(job: Job): nat { 1 + SizeAll(job.spawns) }

  function SizeAll(jobs: Jobs): nat {
    match jobs
    case Done => 0
    case Next(job, more) => Size(job) + SizeAll(more)
  }

  function Weight(jobs: seq<Job>): nat {
    if jobs == [] then 0 else Size(jobs[0]) + Weight(jobs[1..])
  }

  /** The jobs of one lane, in order. */
  function Of(lane: Lane, jobs: seq<Job>): seq<Job> {
    if jobs == [] then [] else (if jobs[0].lane == lane then [jobs[0]] else []) + Of(lane, jobs[1..])
  }

  /** `normalizeConcurrencyLimit`, for finite values. */
  function NormalizedLimit(value: real, fallback: nat): (limit: nat)
    ensures value > 0.0 ==> limit as real <= value < limit as real + 1.0
    ensures value <= 0.0 ==> limit == fallback
  {
    if value > 0.0 then value.Floor else fallback
  }

  lemma {:induction false} OfAppend(lane: Lane, a: seq<Job>, b: seq<Job>)
    ensures Of(lane, a + b) == Of(lane, a) + Of(lane, b)
  {
    if a == [] {
      assert a + b == b;
    } else {
      assert (a + b)[1..] == a[1..] + b;
      OfAppend(lane, a[1..], b);
    }
  }

  lemma {:induction false} WeightAppend(a: seq<Job>, b: seq<Job>)
    ensures Weight(a + b) == Weight(a) + Weight(b)
  {
    if a == [] {
      assert a + b == b;
    } else {
      assert (a + b)[1..] == a[1..] + b;
      WeightAppend(a[1..], b);
    }
  }

  lemma OfOne(lane: Lane, job: Job)
    ensures Of(lane, [job]) == if job.lane == lane then [job] else []
    ensures Weight([job]) == Size(job)
  {
    assert Of(lane, []) == [] && Weight([]) == 0;
    assert [job][1..] == [];
  }

  lemma {:induction false} NoneOf(lane: Lane, jobs: seq<Job>)
    requires forall j | j in jobs :: j.lane != lane
    ensures Of(lane, jobs) == []
  {
    if jobs != [] {
      NoneOf(lane, jobs[1..]);
    }
  }

  function Without(jobs: seq<Job>, i: nat): seq<Job>
    requires i < |jobs|
  {
    jobs[..i] + jobs[i + 1..]
  }

  /** Taking one job out of a list takes it out of its lane and leaves the others alone. */
  lemma TakenFromLane(jobs: seq<Job>, i: nat, lane: Lane)
    requires i < |jobs|
    ensures Of(lane, jobs) == Of(lane, jobs[..i]) + Of(lane, [jobs[i]]) + Of(lane, jobs[i + 1..])
    ensures Of(lane, Without(jobs, i)) == Of(lane, jobs[..i]) + Of(lane, jobs[i + 1..])
    ensures Weight(Without(jobs, i)) == Weight(jobs) - Size(jobs[i])
    ensures |Of(lane, Without(jobs, i))| == |Of(lane, jobs)| - if jobs[i].lane == lane then 1 else 0
  {
    hide Of, Weight;
    assert jobs == jobs[..i] + [jobs[i]] + jobs[i + 1..];
    OfAppend(lane, jobs[..i] + [jobs[i]], jobs[i + 1..]);
    OfAppend(lane, jobs[..i], [jobs[i]]);
    OfAppend(lane, jobs[..i], jobs[i + 1..]);
    WeightAppend(jobs[..i] + [jobs[i]], jobs[i + 1..]);
    WeightAppend(jobs[..i], [jobs[i]]);
    WeightAppend(jobs[..i], jobs[i + 1..]);
    OfOne(lane, jobs[i]);
  }

  /** The first job that can run is the first of its lane. */
  lemma FirstOfItsLane(jobs: seq<Job>, i: nat)
    requires i < |jobs| && forall j | j in jobs[..i] :: j.lane != jobs[i].lane
    ensures Of(jobs[i].lane, jobs) == [jobs[i]] + Of(jobs[i].lane, Without(jobs, i))
  {
    hide Of;
    TakenFromLane(jobs, i, jobs[i].lane);
    NoneOf(jobs[i].lane, jobs[..i]);
    OfOne(jobs[i].lane, jobs[i]);
    assert [] + [jobs[i]] == [jobs[i]];
    assert [] + Of(jobs[i].lane, jobs[i + 1..]) == Of(jobs[i].lane, jobs[i + 1..]);
  }

  /** The fields of the queue and its history: what was enqueued and started, in order, and what runs now. */
  datatype State = State(active: int, pending: seq<Job>, activeByLane: map<Lane, int>, pendingByLane: map<Lane, int>,
                         enqueued: seq<Job>, started: seq<Job>, running: seq<Job>)

  ghost predicate LaneOk(s: State, lane: Lane, limit: nat) {
    && lane in s.activeByLane && lane in s.pendingByLane
    && s.activeByLane[lane] == |Of(lane, s.running)| <= limit
    && s.pendingByLane[lane] == |Of(lane, s.pending)|
    && Of(lane, s.started) + Of(lane, s.pending) == Of(lane, s.enqueued)
  }

  type Limits = Lane -> real

  function LimitOf(limits: Limits, lane: Lane): (limit: nat)
    ensures limits(lane) > 0.0 ==> limit as real <= limits(lane) < limit as real + 1.0
    ensures limits(lane) <= 0.0 ==> limit == 1
  {
    NormalizedLimit(limits(lane), 1)
  }

  /** The counters are the true counts, no lane is over its limit, and each lane starts in the order of enqueuing. */
  ghost predicate Ok(limits: Limits, s: State) {
    s.active == |s.running| && forall lane: Lane :: LaneOk(s, lane, LimitOf(limits, lane))
  }

  /** No waiting job has a free slot in its lane. */
  ghost predicate Drained(limits: Limits, s: State) {
    forall j | j in s.pending :: |Of(j.lane, s.running)| >= LimitOf(limits, j.lane)
  }

  /** Logs only grow, and no job vanishes: a job counts for itself and for all it will enqueue, until it starts. */
  ghost predicate Follows(before: State, s: State, newWork: nat) {
    && before.enqueued <= s.enqueued && before.started <= s.started && before.running <= s.running
    && Weight(s.pending) + |s.started| == Weight(before.pending) + |before.started| + newWork
  }

  function Pushed(s: State, job: Job): State
    requires job.lane in s.pendingByLane
  {
    s.(pending := s.pending + [job], pendingByLane := s.pendingByLane[job.lane := s.pendingByLane[job.lane] + 1],
       enqueued := s.enqueued + [job])
  }

  lemma PushedIsOk(limits: Limits, s: State, job: Job)
    requires Ok(limits, s)
    ensures LaneOk(s, job.lane, LimitOf(limits, job.lane)) && Ok(limits, Pushed(s, job))
    ensures Weight(Pushed(s, job).pending) == Weight(s.pending) + Size(job)
  {
    hide Of, Weight, LimitOf;
    assert LaneOk(s, job.lane, LimitOf(limits, job.lane));
    forall lane: Lane
      ensures LaneOk(Pushed(s, job), lane, LimitOf(limits, lane))
    {
      assert LaneOk(s, lane, LimitOf(limits, lane));
      OfOne(lane, job);
      OfAppend(lane, s.pending, [job]);
      OfAppend(lane, s.enqueued, [job]);
    }
    OfOne(job.lane, job);
    WeightAppend(s.pending, [job]);
  }

  function AtLeastZero(n: int): int { if n < 0 then 0 else n }

  function Begun(s: State, i: nat): State
    requires i < |s.pending| && s.pending[i].lane in s.activeByLane && s.pending[i].lane in s.pendingByLane
  {
    var job := s.pending[i];
    s.(active := s.active + 1, pending := Without(s.pending, i),
       pendingByLane := s.pendingByLane[job.lane := AtLeastZero(s.pendingByLane[job.lane] - 1)],
       activeByLane := s.activeByLane[job.lane := s.activeByLane[job.lane] + 1],
       started := s.started + [job], running := s.running + [job])
  }

  /** Starting the first job whose lane has room. */
  lemma BegunIsOk(limits: Limits, s: State, i: nat)
    requires Ok(limits, s) && i < |s.pending|
    requires LaneOk(s, s.pending[i].lane, LimitOf(limits, s.pending[i].lane))
    requires s.activeByLane[s.pending[i].lane] < LimitOf(limits, s.pending[i].lane)
    requires forall j | j in s.pending[..i] :: j.lane != s.pending[i].lane
    ensures Ok(limits, Begun(s, i))
    ensures Weight(Begun(s, i).pending) == Weight(s.pending) - Size(s.pending[i])
  {
    hide Of, Weight, LimitOf;
    var job := s.pending[i];
    forall lane: Lane
      ensures LaneOk(Begun(s, i), lane, LimitOf(limits, lane))
    {
      assert LaneOk(s, lane, LimitOf(limits, lane));
      OfOne(lane, job);
      OfAppend(lane, s.running, [job]);
      OfAppend(lane, s.started, [job]);
      TakenFromLane(s.pending, i, lane);
      if lane == job.lane {
        FirstOfItsLane(s.pending, i);
        assert Of(lane, s.started) + [job] + Of(lane, Without(s.pending, i)) == Of(lane, s.started) + ([job] + Of(lane, Without(s.pending, i)));
      }
    }
    TakenFromLane(s.pending, i, job.lane);
  }

  function Ended(s: State, k: nat): State
    requires k < |s.running| && s.running[k].lane in s.activeByLane
  {
    var job := s.running[k];
    s.(active := AtLeastZero(s.active - 1), running := Without(s.running, k),
       activeByLane := s.activeByLane[job.lane := AtLeastZero(s.activeByLane[job.lane] - 1)])
  }

  lemma EndedIsOk(limits: Limits, s: State, k: nat)
    requires Ok(limits, s) && k < |s.running|
    ensures LaneOk(s, s.running[k].lane, LimitOf(limits, s.running[k].lane)) && Ok(limits, Ended(s, k))
  {
    hide Of, Weight, LimitOf;
    var job := s.running[k];
    assert LaneOk(s, job.lane, LimitOf(limits, job.lane));
    forall lane: Lane
      ensures LaneOk(Ended(s, k), lane, LimitOf(limits, lane))
    {
      assert LaneOk(s, lane, LimitOf(limits, lane));
      TakenFromLane(s.running, k, lane);
    }
  }

  class BackgroundTaskQueue {
    const limits: Limits
    var active: int
    var pending: seq<Job>
    var activeByLane: map<Lane, int>
    var pendingByLane: map<Lane, int>
    ghost var enqueued: seq<Job>
    ghost var started: seq<Job>
    ghost var running: seq<Job>

    ghost function Now(): State
      reads this
    {
      State(active, pending, activeByLane, pendingByLane, enqueued, started, running)
    }

    constructor (limits: Limits)
      ensures Ok(limits, Now()) && this.limits == limits && pending == running == enqueued == []
    {
      this.limits := limits;
      active, pending := 0, [];
      activeByLane := map[Default := 0, RecordUpdate := 0, RecordBatchUpdate := 0];
      pendingByLane := map[Default := 0, RecordUpdate := 0, RecordBatchUpdate := 0];
      enqueued, started, running := [], [], [];
      new;
      forall lane: Lane
        ensures LaneOk(Now(), lane, LimitOf(limits, lane))
      {
        match lane case Default => case RecordUpdate => case RecordBatchUpdate =>
      }
    }

    method Enqueue(job: Job)
      requires Ok(limits, Now())
      modifies this
      ensures Ok(limits, Now()) && Drained(limits, Now())
      ensures Follows(old(Now()), Now(), Size(job)) && old(enqueued) + [job] <= enqueued
      decreases Weight(pending) + Size(job), 2
    {
      hide Ok, Drained, Weight, Size;
      PushedIsOk(limits, Now(), job);
      pending := pending + [job];
      pendingByLane := pendingByLane[job.lane := pendingByLane[job.lane] + 1];
      enqueued := enqueued + [job];
      Drain();
    }

    method CanRunLane(lane: Lane) returns (room: bool)
      requires lane in activeByLane
      ensures room == (activeByLane[lane] < LimitOf(limits, lane))
    {
      room := activeByLane[lane] < NormalizedLimit(limits(lane), 1);
    }

    /** `findIndex` of the first waiting job whose lane has room. */
    method FindRunnable() returns (i: nat)
      requires Ok(limits, Now())
      ensures i <= |pending|
      ensures i < |pending| ==>
                && pending[i].lane in activeByLane
                && activeByLane[pending[i].lane] < LimitOf(limits, pending[i].lane)
                && forall j | j in pending[..i] :: j.lane != pending[i].lane
      ensures i == |pending| ==> Drained(limits, Now())
    {
      hide Of, LimitOf;
      i := 0;
      while i < |pending|
        invariant i <= |pending|
        invariant forall j | 0 <= j < i :: LaneOk(Now(), pending[j].lane, LimitOf(limits, pending[j].lane))
                                           && activeByLane[pending[j].lane] >= LimitOf(limits, pending[j].lane)
      {
        assert LaneOk(Now(), pending[i].lane, LimitOf(limits, pending[i].lane));
        var room := CanRunLane(pending[i].lane);
        if room { return; }
        i := i + 1;
      }
    }

    method Drain()
      requires Ok(limits, Now())
      modifies this
      ensures Ok(limits, Now()) && Drained(limits, Now()) && Follows(old(Now()), Now(), 0)
      decreases Weight(pending), 1
    {
      hide Ok, Drained, Weight, LimitOf;
      while |pending| > 0
        invariant Ok(limits, Now()) && Follows(old(Now()), Now(), 0)
        decreases Weight(pending)
      {
        var i := FindRunnable();
        if i == |pending| { return; }
        Launch(i);
      }
      NothingWaits(limits, Now());
    }

    /** Takes a waiting job out of the line and calls its run. */
    method Launch(i: nat)
      requires Ok(limits, Now()) && i < |pending| && pending[i].lane in activeByLane
      requires activeByLane[pending[i].lane] < LimitOf(limits, pending[i].lane)
      requires forall j | j in pending[..i] :: j.lane != pending[i].lane
      modifies this
      ensures Ok(limits, Now()) && Follows(old(Now()), Now(), 0) && |started| > old(|started|)
      decreases Weight(pending), 0
    {
      hide Ok, Drained, Weight, LimitOf;
      var job := pending[i];
      LaneKnown(limits, Now(), job.lane);
      BegunIsOk(limits, Now(), i);
      pending := Without(pending, i);
      active := active + 1;
      pendingByLane := pendingByLane[job.lane := AtLeastZero(pendingByLane[job.lane] - 1)];
      activeByLane := activeByLane[job.lane := activeByLane[job.lane] + 1];
      started, running := started + [job], running + [job];
      Start(job.spawns);
    }

    /** The synchronous part of a run. */
    method Start(spawns: Jobs)
      requires Ok(limits, Now())
      modifies this
      ensures Ok(limits, Now()) && Follows(old(Now()), Now(), SizeAll(spawns))
      decreases Weight(pending) + SizeAll(spawns), 3
    {
      hide Ok, Drained, Weight, Size;
      var left := spawns;
      while left.Next?
        invariant Ok(limits, Now()) && SizeAll(left) <= SizeAll(spawns)
        invariant Follows(old(Now()), Now(), SizeAll(spawns) - SizeAll(left))
        decreases left
      {
        Enqueue(left.job);
        left := left.more;
      }
    }

    /** The `finally` of a run: it frees its slot and drains. */
    method Complete(ghost k: nat, lane: Lane)
      requires Ok(limits, Now()) && k < |running| && running[k].lane == lane
      modifies this
      ensures Ok(limits, Now()) && Drained(limits, Now())
      ensures lane in old(activeByLane) && Follows(old(Ended(Now(), k)), Now(), 0)
    {
      hide Ok, Drained, Weight, Size;
      EndedIsOk(limits, Now(), k);
      active := AtLeastZero(active - 1);
      activeByLane := activeByLane[lane := AtLeastZero(activeByLane[lane] - 1)];
      running := Without(running, k);
      Drain();
    }
  }

  /** What a drained queue promises: a lane with waiting jobs runs exactly as many as it may, and has started exactly the
      jobs that were enqueued before all the waiting ones. */
  lemma WaitingLaneIsFull(limits: Limits, s: State, lane: Lane)
    requires Ok(limits, s) && Drained(limits, s) && Of(lane, s.pending) != []
    ensures lane in s.activeByLane && s.activeByLane[lane] == LimitOf(limits, lane)
    ensures limits(lane) >= 1.0 ==> s.activeByLane[lane] as real <= limits(lane) < s.activeByLane[lane] as real + 1.0
    ensures limits(lane) <= 0.0 ==> s.activeByLane[lane] == 1
    ensures Of(lane, s.started) == Of(lane, s.enqueued)[..|Of(lane, s.enqueued)| - |Of(lane, s.pending)|]
  {
    hide Of, LimitOf;
    LaneKnown(limits, s, lane);
    if forall j | j in s.pending :: j.lane != lane {
      NoneOf(lane, s.pending);
    }
    assert (Of(lane, s.started) + Of(lane, s.pending))[..|Of(lane, s.started)|] == Of(lane, s.started);
  }

  lemma LaneKnown(limits: Limits, s: State, lane: Lane)
    requires Ok(limits, s)
    ensures LaneOk(s, lane, LimitOf(limits, lane))
  {
  }

  lemma NothingWaits(limits: Limits, s: State)
    requires s.pending == []
    ensures Drained(limits, s)
  {
  }
}
