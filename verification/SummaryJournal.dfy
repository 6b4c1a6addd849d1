/** The write-ahead journal of the auto-summary write-back, with faults and crashes at every atomic write. */
module SummaryJournal {
  import opened Basics

  type Text = string

  datatype Phase = Prepared | FileWritten | Complete | Restoring | Restored | Superseded

  datatype Journal = Journal(id: string, phase: Phase, before: Text, after: Text, failed: bool)

  /** What is on disk: the memory file, the journals by operation, the pointer to the active one, and the content that
      the workspace index entry and the global index were last computed from. */
  datatype Disk = Disk(memory: Option<Text>, journals: map<string, Journal>, active: Option<string>,
                       indexed: Option<Text>, globallyIndexed: Option<Text>)

  datatype Result = Written | Stale | Missing | Invalid | Existing | IndexPending

  /** A call returns, raises an error to its caller, or ends because the process died. */
  datatype Outcome = Returned(result: Result) | Raised | Dead

  /** What happens to an atomic write: it is done, it throws without effect, or the process dies before it. */
  datatype Fate = Works | Throws | Dies

  datatype Snapshot = Snapshot(fingerprint: string, source: string, summary: Option<string>, blank: bool)

  /** The text functions that the journal treats as given. */
  datatype Tools = Tools(source: Text -> Option<string>, snapshot: Text -> Option<Snapshot>, id: (Text, Text) -> string)

  datatype Request = Request(expectedFingerprint: string, expectedSource: Option<string>, exact: bool,
                             expectedSummary: Option<string>, patch: Text -> Text)

  predicate Final(phase: Phase) { phase == Complete || phase == Restored }

  function Desired(j: Journal): Text {
    if j.phase == Restoring then j.before else j.after
  }

  predicate OnASide(memory: Option<Text>, j: Journal) {
    memory == Some(j.before) || memory == Some(j.after)
  }

  /** Two snapshots agree where callers compare them. */
  predicate SameAsSeen(s: Snapshot, seen: Snapshot) {
    s.fingerprint == seen.fingerprint && s.source == seen.source && s.summary == seen.summary
  }

  /** A caller may ask for the recovery of the journal that was made from one snapshot only. */
  predicate Expected(tools: Tools, j: Journal, expected: Option<Snapshot>) {
    expected.Some? ==> tools.snapshot(j.before).Some? && SameAsSeen(tools.snapshot(j.before).value, expected.value)
  }

  // ---- What every run keeps --------------------------------------------------------------------------

  /** Journals are filed under their own id and both sides carry the same source; the pointer never dangles. */
  ghost predicate DiskOk(tools: Tools, d: Disk) {
    && (forall id | id in d.journals ::
          d.journals[id].id == id && tools.source(d.journals[id].before) == tools.source(d.journals[id].after))
    && (d.active.Some? ==> d.active.value in d.journals)
  }

  /** The memory file still exists and carries the same source: everything but the summary fields is as it was. */
  ghost predicate SourceKept(tools: Tools, memory: Option<Text>, next: Option<Text>) {
    match memory
    case None => next == None
    case Some(text) => next.Some? && tools.source(next.value) == tools.source(text)
  }

  /** A journal that still has to be carried out finds the file on one of its sides. Only an outside edit breaks this. */
  ghost predicate PendingOnSide(d: Disk) {
    ActiveJournal(d).Some? && !Final(ActiveJournal(d).value.phase) ==> OnASide(d.memory, ActiveJournal(d).value)
  }

  /** A journal was carried out to its end, and file, indexes and journal agree. */
  ghost predicate Settled(d: Disk) {
    && ActiveJournal(d).Some? && Final(ActiveJournal(d).value.phase)
    && d.memory == d.indexed == d.globallyIndexed == Some(SideOf(ActiveJournal(d).value))
  }

  /** The side that a journal in its final phase has reached. */
  function SideOf(j: Journal): Text {
    if j.phase == Restored then j.before else j.after
  }

  /** The file stays, or a journal that has it on one of its sides moves it to the side it is heading for. */
  ghost predicate CarriesOut(memory: Option<Text>, j: Journal, next: Option<Text>) {
    next == memory || (OnASide(memory, j) && !Final(j.phase) && j.phase != Superseded && next == Some(Desired(j)))
  }

  /** What a write does to the file: carry out the pending journal, rewrite a content that has passed, or both in turn. */
  ghost predicate WritesOver(tools: Tools, d: Disk, request: Request, next: Option<Text>) {
    || next == d.memory || Rewrites(tools, d.memory, request, next)
    || (ActiveJournal(d).Some? && (CarriesOut(d.memory, ActiveJournal(d).value, next)
                                   || (CarriesOut(d.memory, ActiveJournal(d).value, Some(Desired(ActiveJournal(d).value)))
                                       && Rewrites(tools, Some(Desired(ActiveJournal(d).value)), request, next))))
  }

  /** The file still is what the request was made for: same fingerprint, same source and summary where they were given, and
      no summary in it that the caller does not know of. */
  ghost predicate Admits(tools: Tools, content: Text, request: Request) {
    && tools.snapshot(content).Some?
    && var s := tools.snapshot(content).value;
       && s.fingerprint == request.expectedFingerprint
       && (request.expectedSource.Some? ==> s.source == request.expectedSource.value)
       && (request.exact ==> s.summary == request.expectedSummary)
       && (s.summary.Some? && !s.blank ==> request.exact && request.expectedSource.Some?)
  }

  /** How a request is turned down: a file that says something else is stale, whatever else is wrong with the request. */
  ghost predicate Denies(tools: Tools, content: Text, request: Request, result: Result) {
    match tools.snapshot(content)
    case None => result == Invalid
    case Some(s) =>
      var edited := s.fingerprint != request.expectedFingerprint
                    || (request.expectedSource.Some? && s.source != request.expectedSource.value);
      var summarised := s.summary.Some? && !s.blank;
      && (edited ==> result == Stale)
      && (!edited && !request.exact ==> summarised && result == Existing)
      && (!edited && request.exact && summarised && request.expectedSource.None? ==> result == Invalid)
      && (!edited && request.exact && (!summarised || request.expectedSource.Some?) ==>
            s.summary != request.expectedSummary && result == Stale)
  }

  /** A pending journal has the file on one of its sides, so that a write will carry it out first. */
  ghost predicate Replays(d: Disk) {
    ActiveJournal(d).Some? && !Final(ActiveJournal(d).value.phase) && OnASide(d.memory, ActiveJournal(d).value)
  }

  /** A write leaves the whole disk alone when there is nothing to carry out and the file is not what it was made for. */
  ghost predicate LeavesEdits(tools: Tools, d: Disk, request: Request, next: Disk) {
    !Replays(d) && (d.memory.None? || !Admits(tools, d.memory.value, request)) ==> next == d
  }

  /** The file becomes the patch of a content that the request was made for. */
  ghost predicate Rewrites(tools: Tools, memory: Option<Text>, request: Request, next: Option<Text>) {
    memory.Some? && Admits(tools, memory.value, request) && next == Some(request.patch(memory.value))
  }

  // ---- Fault-free effects ----------------------------------------------------------------------------

  function Saved(d: Disk, j: Journal): Disk {
    d.(journals := d.journals[j.id := j], active := Some(j.id))
  }

  /** What one recovery of a journal does when every write works. */
  function Recovered(d: Disk, j: Journal): (Result, Disk) {
    if j.phase == Superseded then (Stale, d)
    else if Final(j.phase) then (Existing, d)
    else if d.memory == None then (Missing, d)
    else if !OnASide(d.memory, j) then (Stale, d)
    else
      var restoring := j.phase == Restoring;
      var written := d.(memory := Some(Desired(j)));
      if d.indexed == None then
        (IndexPending, Saved(written, j.(phase := if restoring then Restoring else FileWritten, failed := true)))
      else
        (Written, Saved(written.(indexed := Some(Desired(j)), globallyIndexed := Some(Desired(j))),
                        j.(phase := if restoring then Restored else Complete, failed := false)))
  }

  /** Loading the active journal: a missing pointer and a superseded journal both count as none. */
  function ActiveJournal(d: Disk): Option<Journal> {
    if d.active.Some? && d.active.value in d.journals && d.journals[d.active.value].phase != Superseded
    then Some(d.journals[d.active.value]) else None
  }

  function RecoveredActive(d: Disk): (Result, Disk) {
    if ActiveJournal(d).None? then (Missing, d) else Recovered(d, ActiveJournal(d).value)
  }

  /** One fault-free recovery rolls the active journal to the side it was heading for, with file, index and phase in
      agreement, and a second one changes nothing. */
  lemma RecoveryConverges(tools: Tools, d: Disk)
    requires DiskOk(tools, d) && d.indexed.Some?
    requires ActiveJournal(d).Some? && OnASide(d.memory, ActiveJournal(d).value)
    ensures var j, next := ActiveJournal(d).value, RecoveredActive(d).1;
            && DiskOk(tools, next) && ActiveJournal(next).Some? && Final(ActiveJournal(next).value.phase)
            && (!Final(j.phase) ==>
                  && RecoveredActive(d).0 == Written
                  && next.memory == Some(Desired(j)) && next.indexed == Some(Desired(j)) && next.globallyIndexed == Some(Desired(j))
                  && ActiveJournal(next).value == j.(phase := if j.phase == Restoring then Restored else Complete, failed := false))
            && (Final(j.phase) ==> next == d)
            && RecoveredActive(next) == (Existing, next)
  {
  }

  /** Without an index entry a recovery still turns the file, and leaves the journal pending and marked; once the entry is
      back, the next recovery ends as if it had never been gone. */
  lemma IndexComesBack(tools: Tools, d: Disk, back: Text)
    requires DiskOk(tools, d) && d.indexed == None
    requires ActiveJournal(d).Some? && !Final(ActiveJournal(d).value.phase) && OnASide(d.memory, ActiveJournal(d).value)
    ensures var j, (result, next) := ActiveJournal(d).value, RecoveredActive(d);
            && result == IndexPending && next.memory == Some(Desired(j)) && next.indexed == None
            && ActiveJournal(next).Some? && ActiveJournal(next).value.failed && PendingOnSide(next)
            && RecoveredActive(next.(indexed := Some(back))) == RecoveredActive(d.(indexed := Some(back)))
  {
    var j, next := ActiveJournal(d).value, RecoveredActive(d).1;
    var late, early := RecoveredActive(next.(indexed := Some(back))).1, RecoveredActive(d.(indexed := Some(back))).1;
    assert late.journals == early.journals;
  }

  /** A recovery leaves any file alone that is on neither side of the active journal. */
  lemma RecoveryLeavesOutsideEdits(d: Disk)
    requires ActiveJournal(d).Some? ==> !OnASide(d.memory, ActiveJournal(d).value)
    ensures RecoveredActive(d).1 == d && RecoveredActive(d).0 != Written
  {
  }

  /** After an outside edit has left a pending journal with neither of its sides on disk, a fault-free write ends the wait
      exactly when the edited file passes its checks and the caller names the source it has read. */
  lemma AcceptedWriteEndsTheWait(tools: Tools, d: Disk, request: Request)
    requires !PendingOnSide(d)
    ensures PendingOnSide(WrittenBack(tools, d, request).1) <==>
            d.memory.Some? && Admits(tools, d.memory.value, request) && request.expectedSource.Some?
  {
    hide Judge, Admits;
    if d.memory.Some? { JudgeMeans(tools, d.memory.value, request); }
  }

  datatype Loaded = NoJournal | Bad | Found(journal: Journal)

  /** `loadJournal`: by operation, or the active one; a backup must exist and both its sides must carry one source. */
  function LoadJournal(tools: Tools, d: Disk, operation: Option<string>): Loaded {
    if operation.None? && d.active.None? then NoJournal
    else
      var id := if operation.Some? then operation.value else d.active.value;
      if id !in d.journals then Bad
      else
        var j := d.journals[id];
        if j.id != id || tools.source(j.before) != tools.source(j.after) then Bad
        else if operation.None? && j.phase == Superseded then NoJournal
        else Found(j)
  }

  /** Every backup that a run leaves behind passes its own check, and the pointer loads the active journal. */
  lemma BackupsStayLoadable(tools: Tools, d: Disk, id: string)
    requires DiskOk(tools, d)
    ensures LoadJournal(tools, d, None) == if ActiveJournal(d).Some? then Found(ActiveJournal(d).value) else NoJournal
    ensures id in d.journals ==> LoadJournal(tools, d, Some(id)) == Found(d.journals[id])
  {
  }

  datatype Verdict = Pass | Refused(result: Result)

  /** The checks on the file before a new summary may be written into it. */
  function Judge(tools: Tools, content: Text, request: Request): Verdict {
    match tools.snapshot(content)
    case None => Refused(Invalid)
    case Some(s) =>
      if s.fingerprint != request.expectedFingerprint
         || (request.expectedSource.Some? && request.expectedSource.value != s.source) then Refused(Stale)
      else if request.exact && s.summary.Some? && !s.blank && request.expectedSource.None? then Refused(Invalid)
      else if request.exact && s.summary != request.expectedSummary then Refused(Stale)
      else if !request.exact && s.summary.Some? && !s.blank then Refused(Existing)
      else Pass
  }

  /** What the checks mean on the fields of the snapshot. */
  lemma JudgeMeans(tools: Tools, content: Text, request: Request)
    ensures Judge(tools, content, request) == Pass <==> Admits(tools, content, request)
    ensures Judge(tools, content, request).Refused? ==> Denies(tools, content, request, Judge(tools, content, request).result)
  {
  }

  function Superseding(d: Disk, j: Journal): Disk {
    Saved(d, j.(phase := Superseded)).(active := None)
  }

  function NewJournal(tools: Tools, content: Text, after: Text): Journal {
    Journal(tools.id(content, after), Prepared, content, after, false)
  }

  /** A new summary for the file as it is now, after an outside edit has made `outdated` pointless. */
  function Patched(tools: Tools, d: Disk, request: Request, outdated: Option<Journal>): (Result, Disk) {
    if d.memory.None? then (Missing, d)
    else
      var content := d.memory.value;
      var verdict := Judge(tools, content, request);
      if verdict.Refused? then (verdict.result, d)
      else if outdated.Some? && request.expectedSource.None? then (Stale, d)
      else
        var cleared := if outdated.Some? then Superseding(d, outdated.value) else d;
        var after := request.patch(content);
        if tools.source(content) != tools.source(after) then (Invalid, cleared)
        else
          var j := NewJournal(tools, content, after);
          Recovered(Saved(cleared, j), j)
  }

  /** What a write-back does when every write works. */
  function WrittenBack(tools: Tools, d: Disk, request: Request): (Result, Disk) {
    var pending := ActiveJournal(d);
    if pending.None? || Final(pending.value.phase) then Patched(tools, d, request, None)
    else
      var (recovered, next) := Recovered(d, pending.value);
      if recovered == Stale then Patched(tools, next, request, pending)
      else if recovered != Written && recovered != Existing then (recovered, next)
      else Patched(tools, next, request, None)
  }

  /** A fault-free write-back of an accepted file stores the patched text, with file, index and journal in agreement;
      a pending journal that an outside edit has overtaken is superseded, not replayed. */
  lemma WriteBackStoresThePatch(tools: Tools, d: Disk, request: Request)
    requires DiskOk(tools, d) && d.indexed.Some? && d.memory.Some?
    requires Admits(tools, d.memory.value, request)
    requires tools.source(d.memory.value) == tools.source(request.patch(d.memory.value))
    requires ActiveJournal(d).None? || Final(ActiveJournal(d).value.phase)
             || (!OnASide(d.memory, ActiveJournal(d).value) && request.expectedSource.Some?)
    ensures var (result, next) := WrittenBack(tools, d, request);
            var after := request.patch(d.memory.value);
            && result == Written && next.memory == Some(after) && next.indexed == Some(after) && next.globallyIndexed == Some(after)
            && ActiveJournal(next) == Some(Journal(tools.id(d.memory.value, after), Complete, d.memory.value, after, false))
            && RecoveredActive(next) == (Existing, next)
  {
    hide Judge, Admits;
    JudgeMeans(tools, d.memory.value, request);
  }

  // ---- The operations --------------------------------------------------------------------------------

  /** A process working on the disk. `plan` decides the fate of its atomic writes, one after the other. */
  class Process {
    var disk: Disk
    var clock: nat
    const tools: Tools
    const plan: nat -> Fate

    constructor (disk: Disk, tools: Tools, plan: nat -> Fate)
      ensures this.disk == disk && this.tools == tools && this.plan == plan && clock == 0
    {
      this.disk, this.tools, this.plan, clock := disk, tools, plan, 0;
    }

    ghost predicate FaultFree()
      reads this
    {
      forall n | n >= clock :: plan(n) == Works
    }

    method NextFate() returns (fate: Fate)
      modifies this`clock
      ensures clock == old(clock) + 1
      ensures old(FaultFree()) ==> fate == Works && FaultFree()
    {
      fate := plan(clock);
      clock := clock + 1;
    }

    /** Two atomic writes: the journal, then the pointer to it. */
    method SaveJournal(j: Journal) returns (fate: Fate)
      modifies this
      ensures fate == Works ==> disk == Saved(old(disk), j)
      ensures KeepsFiles(old(disk), disk, j) && disk.memory == old(disk).memory && disk.indexed == old(disk).indexed
      ensures fate != Works ==> disk == old(disk) || disk == old(disk).(journals := old(disk).journals[j.id := j])
      ensures old(FaultFree()) ==> fate == Works && FaultFree()
    {
      fate := NextFate();
      if fate != Works { return; }
      disk := disk.(journals := disk.journals[j.id := j]);
      fate := NextFate();
      if fate != Works { return; }
      disk := disk.(active := Some(j.id));
    }

    method WriteMemory(text: Text) returns (fate: Fate)
      modifies this
      ensures disk == if fate == Works then old(disk).(memory := Some(text)) else old(disk)
      ensures old(FaultFree()) ==> fate == Works && FaultFree()
    {
      fate := NextFate();
      if fate == Works { disk := disk.(memory := Some(text)); }
    }

    /** The workspace index, which refuses a changed file and a missing entry, and then the global index. */
    method SynchronizeIndexes(expected: Text) returns (fate: Fate)
      modifies this
      ensures fate == Works ==>
                disk == old(disk).(indexed := Some(expected), globallyIndexed := Some(expected)) && old(disk).indexed.Some?
      ensures disk.memory == old(disk).memory && disk.journals == old(disk).journals && disk.active == old(disk).active
      ensures fate != Works && old(disk).indexed.None? ==> disk == old(disk)
      ensures old(FaultFree()) ==>
                FaultFree() && fate == if old(disk).memory == Some(expected) && old(disk).indexed.Some? then Works else Throws
    {
      if disk.memory != Some(expected) || disk.indexed.None? { return Throws; }
      fate := NextFate();
      if fate != Works { return; }
      disk := disk.(indexed := Some(expected));
      fate := NextFate();
      if fate != Works { return; }
      disk := disk.(globallyIndexed := Some(expected));
    }

    /** The body of the `try` in `recoverJournal`; `j` is the journal as the program holds it in memory. */
    method RollForward(j0: Journal) returns (fate: Fate, j: Journal)
      requires OnASide(disk.memory, j0) && !Final(j0.phase) && j0.phase != Superseded
      modifies this
      ensures j.id == j0.id && j.before == j0.before && j.after == j0.after
      ensures disk.memory == old(disk).memory || disk.memory == Some(Desired(j0))
      ensures KeepsFiles(old(disk), disk, j0)
      ensures fate == Works ==> disk == Recovered(old(disk), j0).1 && Recovered(old(disk), j0).0 == Written
      ensures old(FaultFree()) ==> FaultFree() && fate == (if old(disk).indexed.Some? then Works else Throws)
      ensures old(FaultFree()) && fate == Throws ==>
                && j == j0.(phase := if j0.phase == Restoring then Restoring else FileWritten)
                && disk == Saved(old(disk).(memory := Some(Desired(j0))), j)
    {
      hide KeepsFiles, Saved;
      j := j0;
      var restoring := j.phase == Restoring;
      var desired := if restoring then j.before else j.after;
      SameFilesKept(disk, disk.(memory := Some(desired)), j0);
      SameFilesKept(disk, disk, j0);
      if disk.memory != Some(desired) {
        fate := WriteMemory(desired);
        if fate != Works { return; }
      }
      ghost var written := disk;
      j := j.(phase := if restoring then Restoring else FileWritten);
      fate := SaveJournal(j);
      KeptTwice(old(disk), written, disk, j0, j);
      if fate != Works { return; }
      ghost var saved := disk;
      fate := SynchronizeIndexes(desired);
      SameFilesKept(saved, disk, j0);
      KeptTwice(old(disk), saved, disk, j0, j0);
      if fate != Works { return; }
      ghost var synced := disk;
      j := j.(phase := if restoring then Restored else Complete, failed := false);
      fate := SaveJournal(j);
      KeptTwice(old(disk), synced, disk, j0, j);
      SavedTwice(written, j0, if restoring then Restoring else FileWritten, j, desired);
    }

    method RecoverJournal(j0: Journal) returns (outcome: Outcome)
      modifies this
      ensures KeepsFiles(old(disk), disk, j0)
      ensures CarriesOut(old(disk).memory, j0, disk.memory) && (disk == old(disk) || OnASide(disk.memory, j0))
      ensures outcome == Returned(Written) ==> disk == Recovered(old(disk), j0).1 && Recovered(old(disk), j0).0 == Written
      ensures outcome == Returned(Existing) ==> Final(j0.phase)
      ensures j0.phase != Superseded && !Final(j0.phase) && !OnASide(old(disk).memory, j0) ==>
                disk == old(disk) && outcome == Returned(if old(disk).memory == None then Missing else Stale)
      ensures old(FaultFree()) ==> FaultFree() && outcome == Returned(Recovered(old(disk), j0).0) && disk == Recovered(old(disk), j0).1
      ensures outcome == Returned(Stale) ==> disk == old(disk)
    {
      if j0.phase == Superseded { return Returned(Stale); }
      if Final(j0.phase) { return Returned(Existing); }
      if disk.memory == None { return Returned(Missing); }
      if !OnASide(disk.memory, j0) { return Returned(Stale); }
      hide KeepsFiles, Saved;
      var fate, j := RollForward(j0);
      if fate == Dies { return Dead; }
      if fate == Works { return Returned(Written); }
      ghost var stopped := disk;
      fate := SaveJournal(j.(failed := true));
      KeptTwice(old(disk), stopped, disk, j0, j.(failed := true));
      SavedOver(old(disk).(memory := Some(Desired(j0))), j, j.(failed := true));
      outcome := if fate == Works then Returned(IndexPending) else if fate == Dies then Dead else Raised;
    }

    /** `supersedeJournal`: the journal, the pointer, and then the pointer removed. */
    method Supersede(j: Journal) returns (fate: Fate)
      requires j.phase != Superseded
      modifies this
      ensures disk.memory == old(disk).memory
      ensures old(DiskOk(tools, disk)) && tools.source(j.before) == tools.source(j.after) ==> DiskOk(tools, disk)
      ensures old(PendingOnSide(disk)) ==> PendingOnSide(disk)
      ensures fate == Works ==> disk == Superseding(old(disk), j)
      ensures old(FaultFree()) ==> fate == Works && FaultFree()
    {
      fate := SaveJournal(j.(phase := Superseded));
      if fate != Works { return; }
      fate := NextFate();
      if fate == Works { disk := disk.(active := None); }
    }

    /** `recoverAutoSummaryWriteback`, with the optional check of the backup against an expected snapshot. */
    method RecoverWriteback(expected: Option<Snapshot>) returns (outcome: Outcome)
      requires DiskOk(tools, disk)
      modifies this
      ensures DiskOk(tools, disk) && SourceKept(tools, old(disk).memory, disk.memory)
      ensures old(PendingOnSide(disk)) ==> PendingOnSide(disk)
      ensures disk.memory == old(disk).memory
              || (ActiveJournal(old(disk)).Some? && CarriesOut(old(disk).memory, ActiveJournal(old(disk)).value, disk.memory))
      ensures outcome == Returned(Written) ==> Settled(disk)
      ensures old(FaultFree()) ==> FaultFree()
      ensures ActiveJournal(old(disk)).None? ==> outcome == Returned(Missing) && disk == old(disk)
      ensures ActiveJournal(old(disk)).Some? && expected.Some? ==>
                var seen := tools.snapshot(ActiveJournal(old(disk)).value.before);
                seen.None? || !SameAsSeen(seen.value, expected.value) ==> outcome == Returned(Stale) && disk == old(disk)
      ensures old(FaultFree()) && (ActiveJournal(old(disk)).Some? ==> Expected(tools, ActiveJournal(old(disk)).value, expected)) ==>
                outcome == Returned(RecoveredActive(old(disk)).0) && disk == RecoveredActive(old(disk)).1
    {
      BackupsStayLoadable(tools, disk, "");
      var loaded := LoadJournal(tools, disk, None);
      if loaded.NoJournal? { return Returned(Missing); }
      var j := loaded.journal;
      if !Expected(tools, j, expected) { return Returned(Stale); }
      ghost var before := disk;
      outcome := RecoverJournal(j);
      KeptStaysOk(tools, before, disk, j);
      CarriedOutStaysPending(before, disk, j);
      WrittenSettles(before, j);
    }

    /** `restoreAutoSummaryWriteback`: turns an operation around, whichever one is active. */
    method Restore(operation: string) returns (outcome: Outcome)
      requires DiskOk(tools, disk)
      modifies this
      ensures DiskOk(tools, disk) && SourceKept(tools, old(disk).memory, disk.memory)
      ensures old(PendingOnSide(disk)) ==> PendingOnSide(disk)
      ensures disk.memory == old(disk).memory
              || (operation in old(disk).journals && OnASide(old(disk).memory, old(disk).journals[operation])
                  && disk.memory == Some(old(disk).journals[operation].before))
      ensures outcome == Returned(Written) ==> Settled(disk)
      ensures old(FaultFree()) ==> FaultFree()
      ensures old(FaultFree()) && old(disk).indexed.Some? && operation in old(disk).journals
              && OnASide(old(disk).memory, old(disk).journals[operation]) ==>
                && outcome == Returned(Written) && disk.memory == Some(old(disk).journals[operation].before)
                && disk.indexed == disk.globallyIndexed == disk.memory
                && ActiveJournal(disk) == Some(old(disk).journals[operation].(phase := Restored, failed := false))
    {
      hide KeepsFiles, Recovered, Settled, SourceKept, PendingOnSide;
      BackupsStayLoadable(tools, disk, operation);
      SameSource(tools, disk);
      var loaded := LoadJournal(tools, disk, Some(operation));
      if loaded.Bad? { return Raised; }
      var j := loaded.journal;
      if disk.memory == None { return Returned(Missing); }
      if !OnASide(disk.memory, j) { return Returned(Stale); }
      ghost var before := disk;
      j := j.(phase := Restoring);
      if disk.indexed.Some? { RestoringEnds(before, j); }
      var fate := SaveJournal(j);
      KeptStaysOk(tools, before, disk, j);
      FiledStaysPending(before, disk, j);
      if fate == Dies { return Dead; }
      if fate == Throws { return Raised; }
      ghost var saved := disk;
      outcome := RecoverJournal(j);
      KeptStaysOk(tools, saved, disk, j);
      CarriedOutStaysPending(saved, disk, j);
      WrittenSettles(saved, j);
    }

    /** The part of `writeAutoSummaryIfUnchanged` behind the pending journal: judge the file, supersede, file, roll forward. */
    method Patch(request: Request, outdated: Option<Journal>) returns (outcome: Outcome)
      requires DiskOk(tools, disk)
      requires outdated.Some? ==> tools.source(outdated.value.before) == tools.source(outdated.value.after)
                                  && outdated.value.phase != Superseded
      modifies this
      ensures DiskOk(tools, disk) && SourceKept(tools, old(disk).memory, disk.memory)
      ensures old(PendingOnSide(disk)) ==> PendingOnSide(disk)
      ensures disk.memory == old(disk).memory || Rewrites(tools, old(disk).memory, request, disk.memory)
      ensures old(disk).memory.None? ==> disk == old(disk) && outcome == Returned(Missing)
      ensures old(disk).memory.Some? && !Admits(tools, old(disk).memory.value, request) ==>
                disk == old(disk) && outcome.Returned? && Denies(tools, old(disk).memory.value, request, outcome.result)
      ensures outcome == Returned(Written) ==> Settled(disk)
      ensures old(FaultFree()) ==> FaultFree() && outcome == Returned(Patched(tools, old(disk), request, outdated).0)
                                   && disk == Patched(tools, old(disk), request, outdated).1
    {
      if disk.memory.None? { return Returned(Missing); }
      var content := disk.memory.value;
      hide Admits, Denies;
      JudgeMeans(tools, content, request);
      var verdict := Judge(tools, content, request);
      if verdict.Refused? { return Returned(verdict.result); }
      var fate := Works;
      if outdated.Some? {
        if request.expectedSource.None? { return Returned(Stale); }
        fate := Supersede(outdated.value);
        if fate == Dies { return Dead; }
        if fate == Throws { return Raised; }
      }
      var after := request.patch(content);
      if tools.source(content) != tools.source(after) { return Returned(Invalid); }
      ghost var cleared := disk;
      var j := NewJournal(tools, content, after);
      fate := SaveJournal(j);
      KeptStaysOk(tools, cleared, disk, j);
      FiledStaysPending(cleared, disk, j);
      if fate == Dies { return Dead; }
      if fate == Throws { return Raised; }
      ghost var saved := disk;
      outcome := RecoverJournal(j);
      KeptStaysOk(tools, saved, disk, j);
      CarriedOutStaysPending(saved, disk, j);
      WrittenSettles(saved, j);
    }

    /** `writeAutoSummaryIfUnchanged` under the memory lock. */
    method WriteSummary(request: Request) returns (outcome: Outcome)
      requires DiskOk(tools, disk)
      modifies this
      ensures DiskOk(tools, disk) && SourceKept(tools, old(disk).memory, disk.memory)
      ensures old(PendingOnSide(disk)) ==> PendingOnSide(disk)
      ensures WritesOver(tools, old(disk), request, disk.memory) && LeavesEdits(tools, old(disk), request, disk)
      ensures !Replays(old(disk)) && old(disk).memory.None? ==> outcome == Returned(Missing)
      ensures !Replays(old(disk)) && old(disk).memory.Some? && !Admits(tools, old(disk).memory.value, request) ==>
                outcome.Returned? && Denies(tools, old(disk).memory.value, request, outcome.result)
      ensures outcome == Returned(Written) ==> Settled(disk)
      ensures old(FaultFree()) ==> FaultFree()
      ensures old(FaultFree()) ==> outcome == Returned(WrittenBack(tools, old(disk), request).0)
                                   && disk == WrittenBack(tools, old(disk), request).1
    {
      hide Admits, Denies, KeepsFiles, Settled, Patched, SourceKept, PendingOnSide, DiskOk;
      BackupsStayLoadable(tools, disk, "");
      SameSource(tools, disk);
      var loaded := LoadJournal(tools, disk, None);
      var outdated: Option<Journal> := None;
      if loaded.Found? && !Final(loaded.journal.phase) {
        ghost var before := disk;
        var recovered := RecoverJournal(loaded.journal);
        KeptStaysOk(tools, before, disk, loaded.journal);
        CarriedOutStaysPending(before, disk, loaded.journal);
        if recovered == Returned(Stale) {
          outdated := Some(loaded.journal);
        } else if recovered != Returned(Written) && recovered != Returned(Existing) {
          return recovered;
        }
      }
      ghost var replayed := disk;
      outcome := Patch(request, outdated);
      SourceTwice(tools, old(disk).memory, replayed.memory, disk.memory);
    }
  }

  /** An operation on journal `j` files nothing but versions of `j`, and moves the pointer nowhere but to it. */
  ghost predicate KeepsFiles(d: Disk, next: Disk, j: Journal) {
    && (next.active == d.active
        || (next.active == Some(j.id) && j.id in next.journals
            && next.journals[j.id].before == j.before && next.journals[j.id].after == j.after))
    && (forall id | id in d.journals :: id in next.journals)
    && (forall id | id in next.journals ::
          || (id in d.journals && next.journals[id] == d.journals[id])
          || (id == j.id && next.journals[id].id == id && next.journals[id].before == j.before && next.journals[id].after == j.after))
  }

  lemma SameFilesKept(d: Disk, next: Disk, j: Journal)
    requires next.journals == d.journals && next.active == d.active
    ensures KeepsFiles(d, next, j)
  {
  }

  lemma KeptTwice(a: Disk, b: Disk, c: Disk, j: Journal, version: Journal)
    requires KeepsFiles(a, b, j) && KeepsFiles(b, c, version)
    requires version.id == j.id && version.before == j.before && version.after == j.after
    ensures KeepsFiles(a, c, j)
  {
  }

  lemma SavedOver(d: Disk, j: Journal, next: Journal)
    requires j.id == next.id
    ensures Saved(Saved(d, j), next) == Saved(d, next)
  {
    assert d.journals[j.id := j][next.id := next] == d.journals[next.id := next];
  }

  /** Saving a journal, synchronizing and saving its next version leaves only the last version. */
  lemma SavedTwice(d: Disk, j: Journal, phase: Phase, last: Journal, desired: Text)
    requires last.id == j.id
    ensures var both := Some(desired);
            Saved(Saved(d, j.(phase := phase)).(indexed := both, globallyIndexed := both), last)
            == Saved(d.(indexed := both, globallyIndexed := both), last)
  {
    assert d.journals[j.id := j.(phase := phase)][last.id := last] == d.journals[last.id := last];
  }

  /** An operation that files only versions of a sound journal, and touches the file only along it, leaves a sound disk. */
  lemma KeptStaysOk(tools: Tools, d: Disk, next: Disk, j: Journal)
    requires DiskOk(tools, d) && KeepsFiles(d, next, j) && tools.source(j.before) == tools.source(j.after)
    ensures DiskOk(tools, next)
    ensures CarriesOut(d.memory, j, next.memory) ==> SourceKept(tools, d.memory, next.memory)
  {
  }

  /** Filing a journal that has the file on one of its sides. */
  lemma FiledStaysPending(d: Disk, next: Disk, j: Journal)
    requires KeepsFiles(d, next, j) && next.memory == d.memory && OnASide(d.memory, j)
    ensures PendingOnSide(d) ==> PendingOnSide(next)
  {
  }

  /** Carrying out the active journal. */
  lemma CarriedOutStaysPending(d: Disk, next: Disk, j: Journal)
    requires KeepsFiles(d, next, j) && d.active == Some(j.id) && (next == d || OnASide(next.memory, j))
    requires j.id in d.journals && d.journals[j.id].before == j.before && d.journals[j.id].after == j.after
    ensures PendingOnSide(d) ==> PendingOnSide(next)
  {
  }

  lemma SameSource(tools: Tools, d: Disk)
    ensures SourceKept(tools, d.memory, d.memory)
  {
  }

  lemma SourceTwice(tools: Tools, a: Option<Text>, b: Option<Text>, c: Option<Text>)
    requires SourceKept(tools, a, b) && SourceKept(tools, b, c)
    ensures SourceKept(tools, a, c)
  {
  }

  lemma RestoringEnds(d: Disk, j: Journal)
    requires j.phase == Restoring && d.indexed.Some? && OnASide(d.memory, j)
    ensures var (result, next) := Recovered(Saved(d, j), j);
            && result == Written && next.memory == Some(j.before) && next.indexed == next.globallyIndexed == next.memory
            && ActiveJournal(next) == Some(j.(phase := Restored, failed := false))
  {
  }

  lemma WrittenSettles(d: Disk, j: Journal)
    ensures Recovered(d, j).0 == Written ==> Settled(Recovered(d, j).1)
  {
  }

  // ---- A regeneration --------------------------------------------------------------------------------

  /** The write of `triggerAutoSummaryUpdate`, with the snapshot that was taken before the summary was generated. Whatever
      happened to the file meanwhile: it is rewritten only if fingerprint, source and summary still are those of the
      snapshot; else the result is stale and nothing on disk has changed. Only a pending journal is carried out first. */
  method Regenerate(p: Process, seen: Snapshot, patch: Text -> Text) returns (outcome: Outcome)
    requires DiskOk(p.tools, p.disk)
    modifies p
    ensures DiskOk(p.tools, p.disk) && SourceKept(p.tools, old(p.disk).memory, p.disk.memory)
    ensures !Replays(old(p.disk)) ==>
              match old(p.disk).memory
              case None => outcome == Returned(Missing) && p.disk == old(p.disk)
              case Some(content) =>
                match p.tools.snapshot(content)
                case None => outcome == Returned(Invalid) && p.disk == old(p.disk)
                case Some(now) =>
                  && (!SameAsSeen(now, seen) ==> outcome == Returned(Stale) && p.disk == old(p.disk))
                  && (SameAsSeen(now, seen) ==> p.disk.memory == Some(content) || p.disk.memory == Some(patch(content)))
                  && (SameAsSeen(now, seen) && old(p.FaultFree()) && old(p.disk).indexed.Some?
                      && p.tools.source(content) == p.tools.source(patch(content)) ==>
                        outcome == Returned(Written) && p.disk.memory == Some(patch(content)))
  {
    hide Process.FaultFree, DiskOk, SourceKept, PendingOnSide, Settled, WrittenBack;
    ghost var d := p.disk;
    var request := Request(seen.fingerprint, Some(seen.source), true, seen.summary, patch);
    outcome := p.WriteSummary(request);
    if d.memory.Some? && Admits(p.tools, d.memory.value, request) && d.indexed.Some? && !Replays(d)
       && p.tools.source(d.memory.value) == p.tools.source(patch(d.memory.value)) {
      WriteBackStoresThePatch(p.tools, d, request);
    }
  }

  // ---- Runs ------------------------------------------------------------------------------------------

  /** An operation of the journal, or an edit from outside, which may also touch the indexes but knows nothing of
      journals. */
  datatype Action =
    | Recover(expected: Option<Snapshot>)
    | Restore(operation: string)
    | Write(request: Request)
    | Edit(memory: Option<Text>, indexed: Option<Text>, globallyIndexed: Option<Text>)

  /** What one action may do to the file and the pointers, however it ends: the file changes only along a journal that has
      it on one of its sides, or after a content has passed every check of a write. */
  ghost predicate Follows(tools: Tools, d: Disk, action: Action, next: Disk) {
    match action
    case Recover(_) =>
      next.memory == d.memory || (ActiveJournal(d).Some? && CarriesOut(d.memory, ActiveJournal(d).value, next.memory))
    case Restore(operation) =>
      next.memory == d.memory
      || (operation in d.journals && OnASide(d.memory, d.journals[operation]) && next.memory == Some(d.journals[operation].before))
    case Write(request) => WritesOver(tools, d, request, next.memory) && LeavesEdits(tools, d, request, next)
    case Edit(memory, indexed, globallyIndexed) =>
      next == d.(memory := memory, indexed := indexed, globallyIndexed := globallyIndexed)
  }

  /** The file keeps its source, and a pending journal keeps finding it on one of its sides. */
  ghost predicate Keeps(tools: Tools, d: Disk, next: Disk) {
    SourceKept(tools, d.memory, next.memory) && (PendingOnSide(d) ==> PendingOnSide(next))
  }

  /** No edit from outside from action `k` on. */
  ghost predicate Undisturbed(actions: seq<Action>, k: nat) {
    forall i | k <= i < |actions| :: !actions[i].Edit?
  }

  /** A run as seen on disk: `disks[i]` before action `i`, with the outcome of the operations. */
  ghost predicate IsRun(tools: Tools, disks: seq<Disk>, actions: seq<Action>, outcomes: seq<Outcome>) {
    && |disks| == |actions| + 1 && |outcomes| == |actions|
    && (forall i | 0 <= i < |disks| :: DiskOk(tools, disks[i]))
    && (forall i | 0 <= i < |actions| :: Follows(tools, disks[i], actions[i], disks[i + 1]))
    && (forall i | 0 <= i < |actions| :: outcomes[i] == Returned(Written) ==> Settled(disks[i + 1]))
    && (forall k | 0 <= k <= |actions| && Undisturbed(actions, k) :: Keeps(tools, disks[k], disks[|actions|]))
  }

  /** Performs one action; an edit counts as one that raised an error. A process that dies leaves the disk as it is, and
      the next action is that of another process, which has nothing but the disk. */
  method Perform(p: Process, action: Action) returns (outcome: Outcome)
    requires DiskOk(p.tools, p.disk)
    modifies p
    ensures DiskOk(p.tools, p.disk) && Follows(p.tools, old(p.disk), action, p.disk)
    ensures outcome == Returned(Written) ==> Settled(p.disk)
    ensures !action.Edit? ==> Keeps(p.tools, old(p.disk), p.disk)
  {
    hide SourceKept, PendingOnSide, Settled, CarriesOut, WritesOver, LeavesEdits;
    match action
    case Recover(expected) => outcome := p.RecoverWriteback(expected);
    case Restore(operation) => outcome := p.Restore(operation);
    case Write(request) => outcome := p.WriteSummary(request);
    case Edit(memory, indexed, globallyIndexed) =>
      p.disk := p.disk.(memory := memory, indexed := indexed, globallyIndexed := globallyIndexed);
      outcome := Raised;
  }

  lemma KeepsItself(tools: Tools, d: Disk)
    ensures Keeps(tools, d, d)
  {
  }

  lemma KeepsOn(tools: Tools, a: Disk, b: Disk, c: Disk)
    requires Keeps(tools, a, b) && Keeps(tools, b, c)
    ensures Keeps(tools, a, c)
  {
  }

  lemma RunGrows(tools: Tools, disks: seq<Disk>, actions: seq<Action>, outcomes: seq<Outcome>,
                 action: Action, outcome: Outcome, next: Disk)
    requires IsRun(tools, disks, actions, outcomes)
    requires DiskOk(tools, next) && Follows(tools, disks[|actions|], action, next)
    requires outcome == Returned(Written) ==> Settled(next)
    requires !action.Edit? ==> Keeps(tools, disks[|actions|], next)
    ensures IsRun(tools, disks + [next], actions + [action], outcomes + [outcome])
  {
    hide DiskOk, Follows, Settled, Keeps;
    var ds, xs, os := disks + [next], actions + [action], outcomes + [outcome];
    assert forall i | 0 <= i < |actions| :: xs[i] == actions[i];
    assert forall i | 0 <= i < |actions| :: os[i] == outcomes[i];
    assert forall i | 0 <= i < |disks| :: ds[i] == disks[i];
    forall k | 0 <= k <= |xs| && Undisturbed(xs, k) ensures Keeps(tools, ds[k], ds[|xs|]) {
      if k == |xs| {
        KeepsItself(tools, next);
      } else {
        assert !xs[|actions|].Edit?;
        assert forall i | k <= i < |actions| :: !xs[i].Edit?;
        assert Undisturbed(actions, k);
        KeepsOn(tools, disks[k], disks[|actions|], next);
      }
    }
  }

  /** Any actions in any order under any faults. Backups stay sound; the file changes only as `Follows` says; whatever
      reports success leaves file, indexes and journal in agreement; and from the last edit on, the file keeps its source
      and a pending journal stays on its sides if it was on them, or is again after the first success. */
  method PerformAll(p: Process, actions: seq<Action>) returns (disks: seq<Disk>, outcomes: seq<Outcome>)
    requires DiskOk(p.tools, p.disk)
    modifies p
    ensures IsRun(p.tools, disks, actions, outcomes) && disks[0] == old(p.disk) && disks[|actions|] == p.disk
  {
    hide IsRun, DiskOk, Follows, Settled, Keeps;
    disks, outcomes := [p.disk], [];
    RunStarts(p.tools, p.disk);
    assert actions[..0] == [];
    for i := 0 to |actions|
      invariant DiskOk(p.tools, p.disk) && |disks| == i + 1 && |outcomes| == i
      invariant disks[0] == old(p.disk) && disks[i] == p.disk
      invariant IsRun(p.tools, disks, actions[..i], outcomes)
    {
      var outcome := Perform(p, actions[i]);
      RunGrows(p.tools, disks, actions[..i], outcomes, actions[i], outcome, p.disk);
      assert actions[..i + 1] == actions[..i] + [actions[i]];
      disks, outcomes := disks + [p.disk], outcomes + [outcome];
    }
    assert actions[..|actions|] == actions;
  }

  lemma RunStarts(tools: Tools, d: Disk)
    requires DiskOk(tools, d)
    ensures IsRun(tools, [d], [], [])
  {
    hide DiskOk;
    KeepsItself(tools, d);
  }

  /** However many operations were cut short, and wherever: if the journal was on its sides after the last edit, or some
      operation has succeeded since, then one fault-free recovery carries the active journal to the side it was heading
      for, with file, indexes and phase in agreement, and the next recovery changes nothing. */
  method RunAndRecover(disk: Disk, tools: Tools, plan: nat -> Fate, actions: seq<Action>, k: nat)
    returns (disks: seq<Disk>, outcomes: seq<Outcome>, recovered: Outcome, next: Disk, again: Outcome, last: Disk)
    requires DiskOk(tools, disk) && k <= |actions| && Undisturbed(actions, k)
    ensures IsRun(tools, disks, actions, outcomes) && disks[0] == disk
    ensures var d := disks[|actions|];
            (PendingOnSide(disks[k]) || exists i :: k <= i < |actions| && outcomes[i] == Returned(Written)) && d.indexed.Some? ==>
              && last == next && DiskOk(tools, next)
              && match ActiveJournal(d)
                 case None => recovered == again == Returned(Missing) && next == d
                 case Some(j) =>
                   && again == Returned(Existing)
                   && if Final(j.phase) then recovered == Returned(Existing) && next == d
                      else recovered == Returned(Written) && Settled(next) && next.memory == Some(Desired(j))
  {
    hide Recovered, Follows, DiskOk;
    var p := new Process(disk, tools, plan);
    disks, outcomes := PerformAll(p, actions);
    RunIsPending(tools, disks, actions, outcomes, k);
    var q := new Process(p.disk, tools, n => Works);
    recovered := q.RecoverWriteback(None);
    next := q.disk;
    again := q.RecoverWriteback(None);
    last := q.disk;
    if PendingOnSide(p.disk) && p.disk.indexed.Some? { PendingRecovers(tools, p.disk); }
  }

  /** A success brings the pending journal back onto its sides, and it stays there. */
  lemma RunIsPending(tools: Tools, disks: seq<Disk>, actions: seq<Action>, outcomes: seq<Outcome>, k: nat)
    requires IsRun(tools, disks, actions, outcomes) && k <= |actions| && Undisturbed(actions, k)
    ensures PendingOnSide(disks[k]) || (exists i :: k <= i < |actions| && outcomes[i] == Returned(Written)) ==>
              PendingOnSide(disks[|actions|])
  {
    hide DiskOk, Follows;
    assert Keeps(tools, disks[k], disks[|actions|]);
    if i :| k <= i < |actions| && outcomes[i] == Returned(Written) {
      assert Settled(disks[i + 1]);
      assert Undisturbed(actions, i + 1);
      assert Keeps(tools, disks[i + 1], disks[|actions|]);
    }
  }

  lemma PendingRecovers(tools: Tools, d: Disk)
    requires DiskOk(tools, d) && PendingOnSide(d) && d.indexed.Some?
    ensures var (result, next) := RecoveredActive(d);
            && match ActiveJournal(d)
               case None => result == Missing && next == d
               case Some(j) =>
                 && RecoveredActive(next) == (Existing, next)
                 && if Final(j.phase) then result == Existing && next == d
                    else result == Written && Settled(next) && next.memory == Some(Desired(j))
  {
    if ActiveJournal(d).Some? && !Final(ActiveJournal(d).value.phase) {
      RecoveryConverges(tools, d);
    }
  }
}
