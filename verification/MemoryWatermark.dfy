/** The memory watermark controller: a limit that pressure halves, calm raises, and any doubt about clock or sample sets to
    zero until a person clears the freeze. Ratios and times are real numbers; the evidence hash is a parameter. */
module MemoryWatermark {
  import opened Basics

  datatype Config = Config(low: real, high: real, recoverySamples: int, reduction: real, step: int, minimum: int)

  datatype Failure = TimeUnavailable | TimeNonFinite | TimeReversed | SamplingFailed | SampleInvalid | SampleNonFinite

  datatype Reason = HighWatermark | Recovery | Waiting | MiddleBand | ManualFrozen | ManualClear | Failed(failure: Failure)

  datatype Frozen = Frozen(failure: Failure, evidence: string, observedAt: Option<real>)

  datatype Memory = Memory(limit: int, credits: int, lastPressure: Option<real>, highSamples: int, lowSamples: int,
                           lastSampled: Option<real>, frozen: Option<Frozen>)

  datatype Snapshot = Snapshot(revision: int, epoch: int, physicalMax: int, currentLimit: int, activeSlots: int, memory: Memory)

  /** What the clock gives: an error, no number, or a time. */
  datatype Clock = ClockThrows | NoNumber | Time(at: real)

  /** What sampling gives: an error, something that is no sample, infinities, or two whole numbers. */
  datatype Sample = SamplingThrows | Malformed | Infinite | Bytes(used: int, total: int)

  datatype Transition = Transition(reason: Reason, evidence: string, next: Memory, effectiveBefore: int, effectiveAfter: int,
                                   permitted: bool)

  datatype Result = Refused | Decided(transition: Transition)

  /** What the evidence of a transition is computed from. */
  datatype Evidence = FailureEvidence(failure: Failure, revision: int, epoch: int, at: Option<real>, last: Option<real>)
                    | ObservationEvidence(reason: Reason, revision: int, epoch: int, used: Option<int>, total: Option<int>,
                                          now: real, before: int, after: int, last: Option<real>, acknowledgement: string)

  type Hash = Evidence -> string

  predicate SafeInRange(value: int, minimum: int, maximum: int) { minimum <= value <= maximum && value <= MAX_SAFE_INTEGER }

  predicate ValidTime(at: real) { 0.0 <= at <= MAX_SAFE_INTEGER as real }

  predicate ValidTimeOrNone(at: Option<real>) { at.None? || ValidTime(at.value) }

  predicate ConfigOk(c: Config, physicalMax: int) {
    && 0.0 <= c.low < c.high <= 1.0 && SafeInRange(c.recoverySamples, 1, MAX_SAFE_INTEGER)
    && 0.0 <= c.reduction < 1.0 && SafeInRange(c.step, 1, physicalMax) && SafeInRange(c.minimum, 0, physicalMax)
  }

  predicate MemoryOk(m: Memory, physicalMax: int) {
    && SafeInRange(m.limit, 0, physicalMax) && SafeInRange(m.credits, 0, MAX_SAFE_INTEGER)
    && SafeInRange(m.highSamples, 0, MAX_SAFE_INTEGER) && SafeInRange(m.lowSamples, 0, MAX_SAFE_INTEGER)
    && ValidTimeOrNone(m.lastPressure) && ValidTimeOrNone(m.lastSampled)
    && (m.frozen.Some? ==> m.frozen.value.evidence != "" && ValidTimeOrNone(m.frozen.value.observedAt))
  }

  predicate SnapshotOk(s: Snapshot) {
    && SafeInRange(s.revision, 1, MAX_SAFE_INTEGER) && SafeInRange(s.epoch, 0, MAX_SAFE_INTEGER) && SafeInRange(s.physicalMax, 1, MAX_SAFE_INTEGER)
    && SafeInRange(s.currentLimit, 0, s.physicalMax) && SafeInRange(s.activeSlots, 0, MAX_SAFE_INTEGER)
    && MemoryOk(s.memory, s.physicalMax)
  }

  function Initial(limit: int): Memory {
    Memory(limit, 0, None, 0, 0, None, None)
  }

  function Effective(s: Snapshot, m: Memory): int {
    Min(s.physicalMax, Min(s.currentLimit, m.limit))
  }

  /** `buildTransition` with `buildGrantPolicy`. */
  function Build(s: Snapshot, next: Memory, reason: Reason, evidence: string): Transition {
    var after := Effective(s, next);
    Transition(reason, evidence, next, Effective(s, s.memory), after, next.frozen.None? && s.activeSlots < after)
  }

  predicate NotBefore(at: real, last: Option<real>) { last.None? || at >= last.value }

  function FailClosed(hash: Hash, s: Snapshot, failure: Failure, at: Option<real>): Transition {
    var evidence := hash(FailureEvidence(failure, s.revision, s.epoch, at, s.memory.lastSampled));
    var accepted := at.Some? && NotBefore(at.value, s.memory.lastSampled);
    var next := s.memory.(limit := 0, credits := 0, highSamples := 0, lowSamples := 0,
                          lastPressure := if accepted then at else s.memory.lastPressure,
                          lastSampled := if accepted then at else s.memory.lastSampled,
                          frozen := Some(Frozen(failure, evidence, at)));
    Build(s, next, Failed(failure), evidence)
  }

  function SampleFailure(sample: Sample): Option<Failure> {
    match sample
    case SamplingThrows => Some(SamplingFailed)
    case Malformed => Some(SampleInvalid)
    case Infinite => Some(SampleNonFinite)
    case Bytes(used, total) => if 0 <= used <= total <= MAX_SAFE_INTEGER && total > 0 then None else Some(SampleInvalid)
  }

  function Increment(n: int): int { Min(MAX_SAFE_INTEGER, n + 1) }

  function Reduced(limit: int, reduction: real): (r: int)
    ensures r as real <= limit as real * reduction < r as real + 1.0
  {
    (limit as real * reduction).Floor
  }

  /** The next state of an unfrozen controller for a valid sample. */
  function Adjusted(m: Memory, c: Config, physicalMax: int, at: real, used: int, total: int): (Memory, Reason)
    requires total > 0
  {
    var ratio := used as real / total as real;
    if ratio >= c.high then
      (m.(limit := Max(c.minimum, Reduced(m.limit, c.reduction)), credits := 0, highSamples := Increment(m.highSamples),
          lowSamples := 0, lastPressure := Some(at), lastSampled := Some(at)), HighWatermark)
    else if ratio <= c.low then
      var next := m.(highSamples := 0, lowSamples := Increment(m.lowSamples), credits := Increment(m.credits), lastSampled := Some(at));
      if next.credits >= c.recoverySamples && next.limit < physicalMax then
        (next.(limit := Min(physicalMax, next.limit + c.step), credits := 0, lowSamples := 0), Recovery)
      else (next, Waiting)
    else (m.(credits := 0, highSamples := 0, lowSamples := 0, lastSampled := Some(at)), MiddleBand)
  }

  /** `observeAgyMemoryWatermark`. */
  function Observe(hash: Hash, s: Snapshot, c: Config, clock: Clock, sample: Sample): Result {
    if !SnapshotOk(s) || !ConfigOk(c, s.physicalMax) then Refused
    else Decided(
      if clock.ClockThrows? then FailClosed(hash, s, TimeUnavailable, None)
      else if clock.NoNumber? || !ValidTime(clock.at) then FailClosed(hash, s, TimeNonFinite, None)
      else if !NotBefore(clock.at, s.memory.lastSampled) then FailClosed(hash, s, TimeReversed, Some(clock.at))
      else if SampleFailure(sample).Some? then FailClosed(hash, s, SampleFailure(sample).value, Some(clock.at))
      else
        var (next, reason) := if s.memory.frozen.Some? then (s.memory.(limit := 0, lastSampled := Some(clock.at)), ManualFrozen)
                              else Adjusted(s.memory, c, s.physicalMax, clock.at, sample.used, sample.total);
        Build(s, next, reason,
              hash(ObservationEvidence(reason, s.revision, s.epoch, Some(sample.used), Some(sample.total), clock.at,
                                       s.memory.limit, next.limit, s.memory.lastSampled, ""))))
  }

  /** `clearAgyMemoryWatermarkFreeze`; `blank` says that the acknowledgement holds nothing but white space. */
  function Clear(hash: Hash, s: Snapshot, acknowledgement: string, blank: bool, evidence: string, clock: Clock): Result {
    if !SnapshotOk(s) || s.memory.frozen.None? || blank || evidence != s.memory.frozen.value.evidence then Refused
    else if !clock.Time? || !ValidTime(clock.at) || !NotBefore(clock.at, s.memory.lastSampled) then Refused
    else
      var next := s.memory.(frozen := None, lastSampled := Some(clock.at));
      Decided(Build(s, next, ManualClear,
                    hash(ObservationEvidence(ManualClear, s.revision, s.epoch, None, None, clock.at, s.memory.limit, next.limit,
                                             s.memory.lastSampled, acknowledgement))))
  }

  // ---- Single steps ----------------------------------------------------------------------------------

  datatype Step = Observing(config: Config, clock: Clock, sample: Sample)
                | Clearing(acknowledgement: string, blank: bool, evidence: string, clock: Clock)

  function Act(hash: Hash, s: Snapshot, step: Step): Result {
    match step
    case Observing(c, clock, sample) => Observe(hash, s, c, clock, sample)
    case Clearing(acknowledgement, blank, evidence, clock) => Clear(hash, s, acknowledgement, blank, evidence, clock)
  }

  /** A frozen controller has limit zero and no credits. */
  ghost predicate Sound(m: Memory, physicalMax: int) {
    MemoryOk(m, physicalMax) && (m.frozen.Some? ==> m.limit == m.credits == 0)
  }

  predicate NotLater(a: Option<real>, b: Option<real>) {
    a.Some? ==> b.Some? && a.value <= b.value
  }

  /** A clear that names the evidence of the freeze it clears. */
  predicate Releases(step: Step, m: Memory) {
    step.Clearing? && !step.blank && m.frozen.Some? && step.evidence == m.frozen.value.evidence
  }

  ghost predicate NamesEvidence(hash: Hash) { forall e :: hash(e) != "" }

  lemma ProductSign(a: real, b: real)
    requires a >= 0.0 && b >= 0.0
    ensures a * b >= 0.0 && (a > 0.0 && b > 0.0 ==> a * b > 0.0)
  {
  }

  lemma ShareOfWhole(a: real, b: real)
    requires a >= 0.0 && 0.0 <= b < 1.0
    ensures 0.0 <= a * b <= a && (a > 0.0 ==> a * b < a)
  {
    ProductSign(a, b);
    ProductSign(a, 1.0 - b);
    assert a * (1.0 - b) == a - a * b;
  }

  lemma FloorWithin(share: real, limit: int)
    requires 0.0 <= share <= limit as real
    ensures 0 <= share.Floor <= limit && (share < limit as real ==> share.Floor < limit)
  {
    assert share.Floor as real <= share;
  }

  lemma ReducedBounds(limit: int, reduction: real)
    requires limit >= 0 && 0.0 <= reduction < 1.0
    ensures 0 <= Reduced(limit, reduction) <= limit && (limit > 0 ==> Reduced(limit, reduction) < limit)
  {
    ShareOfWhole(limit as real, reduction);
    FloorWithin(limit as real * reduction, limit);
  }

  lemma AdjustedIsSound(m: Memory, c: Config, physicalMax: int, at: real, used: int, total: int)
    requires Sound(m, physicalMax) && m.frozen.None? && ConfigOk(c, physicalMax)
    requires ValidTime(at) && total > 0 && physicalMax <= MAX_SAFE_INTEGER
    ensures Sound(Adjusted(m, c, physicalMax, at, used, total).0, physicalMax)
    ensures Adjusted(m, c, physicalMax, at, used, total).0.lastSampled == Some(at)
    ensures Adjusted(m, c, physicalMax, at, used, total).0.frozen.None?
  {
    hide Reduced;
    ReducedBounds(m.limit, c.reduction);
  }

  lemma FailIsSafe(hash: Hash, s: Snapshot, failure: Failure, at: Option<real>)
    requires NamesEvidence(hash) && SnapshotOk(s) && Sound(s.memory, s.physicalMax) && ValidTimeOrNone(at)
    ensures var t := FailClosed(hash, s, failure, at);
            && Sound(t.next, s.physicalMax) && NotLater(s.memory.lastSampled, t.next.lastSampled)
            && t.next.frozen.Some? && t.next.limit == 0 && !t.permitted && t.effectiveAfter == 0
            && t.next.frozen.value.failure == failure && t.next.frozen.value.evidence == t.evidence
            && t.next.highSamples == t.next.lowSamples == 0
  {
  }

  /** What one decided step guarantees. */
  ghost predicate Safe(s: Snapshot, t: Transition, released: bool) {
    && Sound(t.next, s.physicalMax) && NotLater(s.memory.lastSampled, t.next.lastSampled)
    && (s.memory.frozen.Some? ==> t.next.limit == t.next.credits == 0 && (released || t.next.frozen.Some?))
    && (t.permitted ==> s.memory.frozen.None? && t.next.frozen.None? && s.activeSlots < t.next.limit
                        && s.activeSlots < s.currentLimit && s.activeSlots < s.physicalMax)
    && (t.next.frozen.Some? || s.memory.frozen.Some? ==> !t.permitted && t.effectiveAfter == 0)
  }

  lemma ObserveIsSafe(hash: Hash, s: Snapshot, c: Config, clock: Clock, sample: Sample)
    requires NamesEvidence(hash) && Sound(s.memory, s.physicalMax) && Observe(hash, s, c, clock, sample).Decided?
    ensures Safe(s, Observe(hash, s, c, clock, sample).transition, false)
  {
    hide Adjusted, ConfigOk, FailClosed, NamesEvidence;
    var at := if clock.Time? && ValidTime(clock.at) then Some(clock.at) else None;
    FailIsSafe(hash, s, TimeUnavailable, None);
    FailIsSafe(hash, s, TimeNonFinite, None);
    FailIsSafe(hash, s, TimeReversed, at);
    if SampleFailure(sample).Some? {
      FailIsSafe(hash, s, SampleFailure(sample).value, at);
    } else if at.Some? && s.memory.frozen.None? {
      AdjustedIsSound(s.memory, c, s.physicalMax, clock.at, sample.used, sample.total);
    }
  }

  lemma ClearIsSafe(hash: Hash, s: Snapshot, acknowledgement: string, blank: bool, evidence: string, clock: Clock)
    requires Sound(s.memory, s.physicalMax) && Clear(hash, s, acknowledgement, blank, evidence, clock).Decided?
    ensures Safe(s, Clear(hash, s, acknowledgement, blank, evidence, clock).transition, true)
    ensures Releases(Clearing(acknowledgement, blank, evidence, clock), s.memory)
  {
  }

  /** Every decided step keeps the limit in range and the time going forward; nothing is granted to a frozen controller,
      and only a clear that names the evidence of the freeze ends it. */
  lemma StepIsSafe(hash: Hash, s: Snapshot, step: Step)
    requires NamesEvidence(hash) && Sound(s.memory, s.physicalMax) && Act(hash, s, step).Decided?
    ensures Safe(s, Act(hash, s, step).transition, Releases(step, s.memory))
  {
    hide Observe, Clear, Sound, NamesEvidence;
    match step
    case Observing(c, clock, sample) => ObserveIsSafe(hash, s, c, clock, sample);
    case Clearing(acknowledgement, blank, evidence, clock) => ClearIsSafe(hash, s, acknowledgement, blank, evidence, clock);
  }

  /** The least of three numbers. */
  predicate IsLeast(m: int, a: int, b: int, c: int) {
    m <= a && m <= b && m <= c && (m == a || m == b || m == c)
  }

  /** Every decided step grants exactly when the controller is not frozen behind it and an active slot is free below the
      machine's limit, the current limit and the controller's own. */
  lemma GrantsExactly(hash: Hash, s: Snapshot, step: Step)
    requires Act(hash, s, step).Decided?
    ensures var t := Act(hash, s, step).transition;
            && IsLeast(t.effectiveBefore, s.physicalMax, s.currentLimit, s.memory.limit)
            && IsLeast(t.effectiveAfter, s.physicalMax, s.currentLimit, t.next.limit)
            && (t.permitted <==> t.next.frozen.None? && s.activeSlots < s.physicalMax && s.activeSlots < s.currentLimit
                                 && s.activeSlots < t.next.limit)
  {
    hide Observe, Clear, Build;
    ActBuilds(hash, s, step);
    var t := Act(hash, s, step).transition;
    BuildGrants(s, t.next, t.reason, t.evidence);
  }

  lemma ActBuilds(hash: Hash, s: Snapshot, step: Step)
    requires Act(hash, s, step).Decided?
    ensures var t := Act(hash, s, step).transition; t == Build(s, t.next, t.reason, t.evidence)
  {
    hide SnapshotOk, ConfigOk, Adjusted, SampleFailure, Effective;
  }

  lemma BuildGrants(s: Snapshot, next: Memory, reason: Reason, evidence: string)
    ensures var t := Build(s, next, reason, evidence);
            && IsLeast(t.effectiveBefore, s.physicalMax, s.currentLimit, s.memory.limit)
            && IsLeast(t.effectiveAfter, s.physicalMax, s.currentLimit, next.limit)
            && (t.permitted <==> next.frozen.None? && s.activeSlots < s.physicalMax && s.activeSlots < s.currentLimit
                                 && s.activeSlots < next.limit)
  {
  }

  /** An observation that raises any doubt freezes, and names the first doubt; no other observation freezes. */
  lemma DoubtFreezes(hash: Hash, s: Snapshot, c: Config, clock: Clock, sample: Sample)
    requires Observe(hash, s, c, clock, sample).Decided?
    ensures var t, last := Observe(hash, s, c, clock, sample).transition, s.memory.lastSampled;
            var sound := sample.Bytes? && 0 <= sample.used <= sample.total && 0 < sample.total <= MAX_SAFE_INTEGER;
            && (clock == ClockThrows ==> t.reason == Failed(TimeUnavailable))
            && (clock == NoNumber ==> t.reason == Failed(TimeNonFinite))
            && (clock.Time? && !(0.0 <= clock.at <= MAX_SAFE_INTEGER as real) ==> t.reason == Failed(TimeNonFinite))
            && (clock.Time? && 0.0 <= clock.at <= MAX_SAFE_INTEGER as real ==>
                  if last.Some? && clock.at < last.value then t.reason == Failed(TimeReversed)
                  else if sound then !t.reason.Failed?
                  else t.reason == Failed(if sample == SamplingThrows then SamplingFailed
                                          else if sample == Infinite then SampleNonFinite else SampleInvalid))
            && (t.reason.Failed? ==> t.next.frozen.Some? && t.next.frozen.value.failure == t.reason.failure && t.next.limit == 0)
            && (!t.reason.Failed? ==> t.next.frozen == s.memory.frozen)
  {
    hide SnapshotOk, ConfigOk, Reduced;
  }

  /** What a freeze records: the failure, its evidence and the time that was given; the time counts as sampled and as pressed
      unless it runs backwards; everything that was counted is gone. */
  lemma FreezeRecords(hash: Hash, s: Snapshot, c: Config, clock: Clock, sample: Sample)
    requires Observe(hash, s, c, clock, sample).Decided? && Observe(hash, s, c, clock, sample).transition.reason.Failed?
    ensures var t := Observe(hash, s, c, clock, sample).transition;
            var told := clock.Time? && 0.0 <= clock.at <= MAX_SAFE_INTEGER as real;
            var reversed := told && s.memory.lastSampled.Some? && clock.at < s.memory.lastSampled.value;
            && t.next.frozen == Some(Frozen(t.reason.failure, t.evidence, if told then Some(clock.at) else None))
            && t.next.limit == t.next.credits == t.next.highSamples == t.next.lowSamples == 0
            && (told && !reversed ==> t.next.lastSampled == t.next.lastPressure == Some(clock.at))
            && (!told || reversed ==> t.next.lastSampled == s.memory.lastSampled && t.next.lastPressure == s.memory.lastPressure)
  {
    hide SnapshotOk, ConfigOk, Adjusted, Effective;
    AdjustedReasons(s.memory, c, s.physicalMax, clock, sample);
  }

  /** The reason of an observation that raises no doubt names the band of the sample; calm counts as a recovery exactly when
      it raises the limit. */
  lemma ReasonsTell(hash: Hash, s: Snapshot, c: Config, at: real, used: int, total: int)
    requires Observe(hash, s, c, Time(at), Bytes(used, total)).Decided?
    requires !Observe(hash, s, c, Time(at), Bytes(used, total)).transition.reason.Failed?
    ensures total > 0
    ensures var t, ratio := Observe(hash, s, c, Time(at), Bytes(used, total)).transition, used as real / total as real;
            && (t.reason == ManualFrozen <==> s.memory.frozen.Some?)
            && (t.reason == HighWatermark <==> s.memory.frozen.None? && ratio >= c.high)
            && (t.reason == MiddleBand <==> s.memory.frozen.None? && c.low < ratio < c.high)
            && (t.reason == Recovery <==> s.memory.frozen.None? && ratio <= c.low && t.next.limit > s.memory.limit)
            && (t.reason == Waiting <==> s.memory.frozen.None? && ratio <= c.low && t.next.limit == s.memory.limit)
            && (s.memory.frozen.None? && ratio <= c.low ==> t.next.limit >= s.memory.limit)
            && (t.reason.ManualFrozen? || t.reason.MiddleBand? || t.reason.Waiting? ==> t.next.limit <= s.memory.limit)
            && (t.reason.Recovery? ==> t.next.limit == Min(s.physicalMax, s.memory.limit + c.step))
            && t.next.lastSampled == Some(at)
  {
    hide Reduced, Effective;
  }

  /** Whatever ratios are accepted, full memory is pressure and empty memory is calm. */
  lemma ExtremesAreRecognised(hash: Hash, s: Snapshot, c: Config, at: real, used: int, total: int)
    requires s.memory.frozen.None? && Observe(hash, s, c, Time(at), Bytes(used, total)).Decided?
    requires !Observe(hash, s, c, Time(at), Bytes(used, total)).transition.reason.Failed?
    ensures var t := Observe(hash, s, c, Time(at), Bytes(used, total)).transition;
            && (used == total ==> t.reason == HighWatermark)
            && (used == 0 ==> t.reason == Recovery || t.reason == Waiting)
  {
    hide Observe;
    ReasonsTell(hash, s, c, at, used, total);
    DecidedRatios(hash, s, c, Time(at), Bytes(used, total));
    RatioOfWhole(total);
  }

  lemma DecidedRatios(hash: Hash, s: Snapshot, c: Config, clock: Clock, sample: Sample)
    requires Observe(hash, s, c, clock, sample).Decided?
    ensures 0.0 <= c.low < c.high <= 1.0
  {
    hide SnapshotOk, Adjusted, Build;
  }

  lemma RatioOfWhole(total: int)
    requires total > 0
    ensures total as real / total as real == 1.0 && 0 as real / total as real == 0.0
  {
  }

  ghost predicate Injective(hash: Hash) {
    forall a, b :: hash(a) == hash(b) ==> a == b
  }

  /** Under a hash without collisions the evidence tells what was observed: reason, owner, bytes, time and both limits. */
  lemma EvidenceTells(hash: Hash, s: Snapshot, c: Config, clock: Clock, sample: Sample,
                      s': Snapshot, c': Config, clock': Clock, sample': Sample)
    requires Injective(hash)
    requires Observe(hash, s, c, clock, sample).Decided? && Observe(hash, s', c', clock', sample').Decided?
    requires Observe(hash, s, c, clock, sample).transition.evidence == Observe(hash, s', c', clock', sample').transition.evidence
    ensures var t, t' := Observe(hash, s, c, clock, sample).transition, Observe(hash, s', c', clock', sample').transition;
            && t.reason == t'.reason && s.revision == s'.revision && s.epoch == s'.epoch
            && s.memory.lastSampled == s'.memory.lastSampled
            && (!t.reason.Failed? ==> clock == clock' && sample == sample' && s.memory.limit == s'.memory.limit && t.next.limit == t'.next.limit)
            && (t.reason.Failed? ==> t.next.frozen == t'.next.frozen)
  {
    hide Observe, Injective;
    var t, t' := Observe(hash, s, c, clock, sample).transition, Observe(hash, s', c', clock', sample').transition;
    ObservedEvidence(hash, s, c, clock, sample);
    ObservedEvidence(hash, s', c', clock', sample');
    NoCollision(hash, Seen(s, t, clock, sample), Seen(s', t', clock', sample'));
  }

  lemma NoCollision(hash: Hash, a: Evidence, b: Evidence)
    requires Injective(hash) && hash(a) == hash(b)
    ensures a == b
  {
  }

  /** What an observation leaves as evidence. */
  function Seen(s: Snapshot, t: Transition, clock: Clock, sample: Sample): Evidence {
    if t.reason.Failed? && t.next.frozen.Some? then
      FailureEvidence(t.reason.failure, s.revision, s.epoch, t.next.frozen.value.observedAt, s.memory.lastSampled)
    else
      ObservationEvidence(t.reason, s.revision, s.epoch, if sample.Bytes? then Some(sample.used) else None,
                          if sample.Bytes? then Some(sample.total) else None, if clock.Time? then clock.at else 0.0,
                          s.memory.limit, t.next.limit, s.memory.lastSampled, "")
  }

  lemma ObservedEvidence(hash: Hash, s: Snapshot, c: Config, clock: Clock, sample: Sample)
    requires Observe(hash, s, c, clock, sample).Decided?
    ensures var t := Observe(hash, s, c, clock, sample).transition;
            && t.evidence == hash(Seen(s, t, clock, sample))
            && (t.reason.Failed? ==> t.next.frozen.Some? && t.next.frozen.value.failure == t.reason.failure
                                     && t.next.frozen.value.evidence == t.evidence)
            && (!t.reason.Failed? ==> clock.Time? && sample.Bytes?)
  {
    hide SnapshotOk, ConfigOk, Adjusted, Effective;
    AdjustedReasons(s.memory, c, s.physicalMax, clock, sample);
  }

  lemma AdjustedReasons(m: Memory, c: Config, physicalMax: int, clock: Clock, sample: Sample)
    ensures clock.Time? && sample.Bytes? && sample.total > 0 ==> !Adjusted(m, c, physicalMax, clock.at, sample.used, sample.total).1.Failed?
  {
    hide Reduced;
  }

  // ---- Runs ------------------------------------------------------------------------------------------

  /** The frame of a step besides the memory: any revision, owner, limit and number of active slots. */
  datatype Context = Context(revision: int, epoch: int, currentLimit: int, activeSlots: int)

  function Take(x: Context, physicalMax: int, m: Memory): Snapshot {
    Snapshot(x.revision, x.epoch, physicalMax, x.currentLimit, x.activeSlots, m)
  }

  /** The memory after a step; a refused step changes nothing. */
  function After(hash: Hash, physicalMax: int, m: Memory, x: Context, step: Step): Memory {
    var r := Act(hash, Take(x, physicalMax, m), step);
    if r.Decided? then r.transition.next else m
  }

  ghost predicate IsRun(hash: Hash, physicalMax: int, states: seq<Memory>, contexts: seq<Context>, steps: seq<Step>) {
    && |states| == |steps| + 1 && |contexts| == |steps|
    && forall i | 0 <= i < |steps| :: states[i + 1] == After(hash, physicalMax, states[i], contexts[i], steps[i])
  }

  lemma AfterIsSafe(hash: Hash, physicalMax: int, m: Memory, x: Context, step: Step)
    requires NamesEvidence(hash) && Sound(m, physicalMax)
    ensures var next := After(hash, physicalMax, m, x, step);
            && Sound(next, physicalMax) && NotLater(m.lastSampled, next.lastSampled)
            && (m.frozen.Some? && !Releases(step, m) ==> next.frozen.Some?)
  {
    hide NamesEvidence;
    var s := Take(x, physicalMax, m);
    if Act(hash, s, step).Decided? {
      StepIsSafe(hash, s, step);
    }
  }

  /** Over every run from an initial state the limit stays in range, sample times never go back, and once frozen the
      controller is frozen at limit zero until a clear that names the evidence. */
  lemma {:induction false} RunsAreSafe(hash: Hash, physicalMax: int, states: seq<Memory>, contexts: seq<Context>, steps: seq<Step>,
                                       since: nat, until: nat)
    requires NamesEvidence(hash) && IsRun(hash, physicalMax, states, contexts, steps)
    requires states[0] == Initial(states[0].limit) && SafeInRange(states[0].limit, 0, physicalMax)
    requires since <= until <= |steps|
    ensures Sound(states[since], physicalMax) && Sound(states[until], physicalMax)
    ensures NotLater(states[since].lastSampled, states[until].lastSampled)
    ensures states[since].frozen.Some? && (forall i | since <= i < until :: !Releases(steps[i], states[i])) ==>
              states[until].frozen.Some? && states[until].limit == 0
    decreases until, until - since
  {
    hide After;
    if since < until {
      RunsAreSafe(hash, physicalMax, states, contexts, steps, since, until - 1);
      AfterIsSafe(hash, physicalMax, states[until - 1], contexts[until - 1], steps[until - 1]);
    } else if until > 0 {
      RunsAreSafe(hash, physicalMax, states, contexts, steps, until - 1, until - 1);
      AfterIsSafe(hash, physicalMax, states[until - 1], contexts[until - 1], steps[until - 1]);
    }
  }

  // ---- Calm and pressure -----------------------------------------------------------------------------

  predicate Usable(sample: Sample) { SampleFailure(sample).None? }

  predicate Calm(c: Config, sample: Sample)
    requires Usable(sample)
  {
    sample.used as real / sample.total as real <= c.low
  }

  predicate Pressure(c: Config, sample: Sample)
    requires Usable(sample)
  {
    sample.used as real / sample.total as real >= c.high
  }

  /** The memory after `k` samples, none of which fails. */
  function Sampled(m: Memory, c: Config, physicalMax: int, samples: seq<(real, Sample)>, k: nat): Memory
    requires k <= |samples| && forall i | 0 <= i < |samples| :: Usable(samples[i].1)
  {
    if k == 0 then m
    else Adjusted(Sampled(m, c, physicalMax, samples, k - 1), c, physicalMax, samples[k - 1].0, samples[k - 1].1.used, samples[k - 1].1.total).0
  }

  /** An observation of a valid sample at a valid time is such an adjustment. */
  lemma ObservedIsAdjusted(hash: Hash, s: Snapshot, c: Config, at: real, sample: Sample)
    requires SnapshotOk(s) && ConfigOk(c, s.physicalMax) && s.memory.frozen.None?
    requires ValidTime(at) && NotBefore(at, s.memory.lastSampled) && Usable(sample)
    ensures sample.Bytes? && sample.total > 0 && Observe(hash, s, c, Time(at), sample).Decided?
    ensures Observe(hash, s, c, Time(at), sample).transition.next == Adjusted(s.memory, c, s.physicalMax, at, sample.used, sample.total).0
  {
  }

  lemma DivStep(k: nat, n: int)
    requires n >= 1
    ensures if k % n == n - 1 then (k + 1) / n == k / n + 1 && (k + 1) % n == 0 else (k + 1) / n == k / n && (k + 1) % n == k % n + 1
  {
    var q, r := k / n, k % n;
    assert k == q * n + r;
    if r == n - 1 {
      assert k + 1 == (q + 1) * n;
      Quotient(k + 1, n, q + 1, 0);
    } else {
      Quotient(k + 1, n, q, r + 1);
    }
  }

  lemma Quotient(k: nat, n: int, q: int, r: int)
    requires n >= 1 && k == q * n + r && 0 <= r < n
    ensures k / n == q && k % n == r
  {
    var d := k / n - q;
    assert d * n == r - k % n;
    Multiple(d, n);
  }

  lemma Multiple(d: int, n: int)
    requires n >= 1
    ensures (d >= 1 ==> d * n >= n) && (d <= -1 ==> d * n <= -n)
  {
  }

  /** One calm sample, counted from a point with no credits: `calm` samples came before it. */
  lemma CalmStep(m: Memory, c: Config, physicalMax: int, start: int, calm: nat, at: real, used: int, total: int)
    requires ConfigOk(c, physicalMax) && 0 <= start <= physicalMax && m.credits >= 0
    requires total > 0 && used as real / total as real <= c.low
    requires m.limit == Min(physicalMax, start + c.step * (calm / c.recoverySamples))
    requires m.limit < physicalMax ==> m.credits == calm % c.recoverySamples
    ensures var next := Adjusted(m, c, physicalMax, at, used, total).0;
            && next.limit == Min(physicalMax, start + c.step * ((calm + 1) / c.recoverySamples)) && next.credits >= 0
            && (next.limit < physicalMax ==> next.credits == (calm + 1) % c.recoverySamples)
  {
    DivStep(calm, c.recoverySamples);
    var q := calm / c.recoverySamples;
    assert c.step * (q + 1) == c.step * q + c.step;
  }

  /** From no credits at limit L, k calm samples in a row give exactly min(physicalMax, L + step * floor(k / samples)). */
  lemma {:induction false} CalmRecovers(m: Memory, c: Config, physicalMax: int, samples: seq<(real, Sample)>, k: nat)
    requires ConfigOk(c, physicalMax) && MemoryOk(m, physicalMax) && m.credits == 0 && k <= |samples|
    requires forall i | 0 <= i < |samples| :: Usable(samples[i].1) && Calm(c, samples[i].1)
    ensures var last := Sampled(m, c, physicalMax, samples, k);
            && last.limit == Min(physicalMax, m.limit + c.step * (k / c.recoverySamples)) && last.credits >= 0
            && (last.limit < physicalMax ==> last.credits == k % c.recoverySamples)
  {
    hide Adjusted, ConfigOk, MemoryOk;
    Reach(m, c, physicalMax);
    if k > 0 {
      CalmRecovers(m, c, physicalMax, samples, k - 1);
      var x := samples[k - 1];
      CalmStep(Sampled(m, c, physicalMax, samples, k - 1), c, physicalMax, m.limit, k - 1, x.0, x.1.used, x.1.total);
    }
  }

  lemma Reach(m: Memory, c: Config, physicalMax: int)
    requires ConfigOk(c, physicalMax) && MemoryOk(m, physicalMax)
    ensures c.recoverySamples >= 1 && 0 / c.recoverySamples == 0 && 0 % c.recoverySamples == 0
    ensures 0 <= m.limit <= physicalMax
  {
    Quotient(0, c.recoverySamples, 0, 0);
  }

  /** A sample under pressure lowers the limit or leaves it, unless the limit is below the configured minimum: then, and
      only then, pressure raises it, to the minimum. */
  lemma PressureRaisesIffBelowMinimum(m: Memory, c: Config, physicalMax: int, at: real, used: int, total: int)
    requires ConfigOk(c, physicalMax) && MemoryOk(m, physicalMax) && total > 0 && used as real / total as real >= c.high
    ensures var next := Adjusted(m, c, physicalMax, at, used, total).0;
            && (next.limit > m.limit <==> m.limit < c.minimum)
            && (m.limit < c.minimum ==> next.limit == c.minimum)
            && (m.limit > c.minimum ==> next.limit < m.limit)
  {
    hide Reduced;
    ReducedBounds(m.limit, c.reduction);
  }

  const EXAMPLE: Snapshot := Snapshot(1, 0, 4, 4, 0, Initial(4))
  const EXAMPLE_CONFIG: Config := Config(0.5, 0.75, 3, 0.5, 1, 2)

  /** A clock that fails, a person who clears the freeze, and then a sample under pressure: the limit goes from 4 to 0, stays
      there, and is raised to the minimum of 2. */
  lemma PressureRaisesAfterClear(hash: Hash)
    requires NamesEvidence(hash)
    ensures var frozen := Observe(hash, EXAMPLE, EXAMPLE_CONFIG, ClockThrows, SamplingThrows);
            && frozen.Decided? && frozen.transition.next.limit == 0
            && var cleared := Clear(hash, EXAMPLE.(memory := frozen.transition.next), "seen", false, frozen.transition.evidence, Time(1.0));
               && cleared.Decided? && cleared.transition.next.limit == 0 && cleared.transition.next.frozen.None?
               && var raised := Observe(hash, EXAMPLE.(memory := cleared.transition.next), EXAMPLE_CONFIG, Time(2.0), Bytes(9, 10));
                  raised.Decided? && raised.transition.reason == HighWatermark && raised.transition.next.limit == 2
  {
  }

  /** Enough pressure always reaches the minimum: from a limit of at least that, one sample a step is enough. */
  lemma {:induction false} PressureReachesMinimum(m: Memory, c: Config, physicalMax: int, samples: seq<(real, Sample)>, k: nat)
    requires ConfigOk(c, physicalMax) && MemoryOk(m, physicalMax) && m.limit >= c.minimum && k <= |samples|
    requires forall i | 0 <= i < |samples| :: Usable(samples[i].1) && Pressure(c, samples[i].1)
    ensures var last := Sampled(m, c, physicalMax, samples, k);
            && c.minimum <= last.limit <= Max(c.minimum, m.limit - k)
            && (k > 0 ==> last.credits == 0)
  {
    hide Reduced;
    if k > 0 {
      PressureReachesMinimum(m, c, physicalMax, samples, k - 1);
      ReducedBounds(Sampled(m, c, physicalMax, samples, k - 1).limit, c.reduction);
    }
  }

  // ---- What the counters tell ------------------------------------------------------------------------

  /** How many of the first `k` samples, counted from the last one back, were under pressure without a break. */
  function PressureRun(c: Config, samples: seq<(real, Sample)>, k: nat): nat
    requires k <= |samples| && forall i | 0 <= i < |samples| :: Usable(samples[i].1)
  {
    if k == 0 || !Pressure(c, samples[k - 1].1) then 0 else 1 + PressureRun(c, samples, k - 1)
  }

  function LastPressureAt(c: Config, samples: seq<(real, Sample)>, k: nat): Option<real>
    requires k <= |samples| && forall i | 0 <= i < |samples| :: Usable(samples[i].1)
  {
    if k == 0 then None
    else if Pressure(c, samples[k - 1].1) then Some(samples[k - 1].0)
    else LastPressureAt(c, samples, k - 1)
  }

  /** From an initial state, the counters and times are functions of the samples seen: the length of the present run of
      pressure, credits that only an unbroken run of calm builds up, and the last sample and the last pressure. */
  lemma {:induction false} CountersTellTheSamples(limit: int, c: Config, physicalMax: int, samples: seq<(real, Sample)>, k: nat)
    requires ConfigOk(c, physicalMax) && k <= |samples| <= MAX_SAFE_INTEGER
    requires forall i | 0 <= i < |samples| :: Usable(samples[i].1)
    ensures var m := Sampled(Initial(limit), c, physicalMax, samples, k);
            && m.highSamples == PressureRun(c, samples, k) <= k && 0 <= m.lowSamples == m.credits <= k
            && (k > 0 && !Calm(c, samples[k - 1].1) ==> m.credits == 0)
            && m.lastPressure == LastPressureAt(c, samples, k)
            && m.lastSampled == (if k == 0 then None else Some(samples[k - 1].0)) && m.frozen.None?
  {
    hide Reduced;
    if k > 0 {
      CountersTellTheSamples(limit, c, physicalMax, samples, k - 1);
    }
  }
}
