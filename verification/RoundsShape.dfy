/** What a build of rounds always looks like: rounds numbered from one that cut the steps without gap, every item inside the
    steps of its round, and tool uses that are found again by their results. */
module RoundsShape {
  import opened Basics
  import opened Rounds
  import opened IncrementalRounds

  ghost predicate Within<T>(xs: seq<At<T>>, low: int, high: int) {
    forall i | 0 <= i < |xs| :: low <= xs[i].stepIndex <= high
  }

  /** Every item of a round was read at one of its steps. */
  ghost predicate Contains(r: Round, high: int) {
    && Within(r.attachments, r.startStep, high) && Within(r.responses, r.startStep, high)
    && Within(r.toolCalls, r.startStep, high) && Within(r.fileViews, r.startStep, high)
    && Within(r.userMessages, r.startStep, high) && Within(r.semanticEvents, r.startStep, high)
  }

  /** Rounds are numbered from one, contain their items, and each ends where the next begins. */
  ghost predicate Chained(rounds: seq<Round>) {
    && (forall i | 0 <= i < |rounds| :: rounds[i].roundIndex == i + 1 && rounds[i].startStep <= rounds[i].endStep
                                        && Contains(rounds[i], rounds[i].endStep))
    && forall i | 0 < i < |rounds| :: rounds[i - 1].endStep == rounds[i].startStep
  }

  /** The round with a number, open or closed. */
  function RoundAt(st: State, n: int): Round
    requires 1 <= n <= |st.rounds| || (n == |st.rounds| + 1 && st.current.Some?)
  {
    if n == |st.rounds| + 1 then st.current.value.round else st.rounds[n - 1]
  }

  /** A recorded tool use is there. */
  ghost predicate SlotOk(st: State, slot: Slot) {
    && 1 <= slot.round <= |st.rounds| + 1 && (slot.round == |st.rounds| + 1 ==> st.current.Some?)
    && 0 <= slot.call < |RoundAt(st, slot.round).toolCalls|
  }

  ghost predicate OpenOk(st: State) {
    match st.current
    case None => st.rounds == [] && st.roundIndex == 0
    case Some(open) =>
      && st.roundIndex == |st.rounds| + 1 == open.round.roundIndex
      && open.round.startStep <= st.stepIndex && Contains(open.round, st.stepIndex)
      && (st.rounds != [] ==> st.rounds[|st.rounds| - 1].endStep == open.round.startStep)
  }

  ghost predicate Shape(st: State) {
    Chained(st.rounds) && OpenOk(st) && forall id | id in st.toolCalls :: SlotOk(st, st.toolCalls[id])
  }

  // ---- Each step keeps the shape ---------------------------------------------------------------------

  /** A later version of the open round: same number and start, items within the steps, no tool call lost. */
  ghost predicate Grows(st: State, r: Round) {
    && st.current.Some? && r.roundIndex == st.current.value.round.roundIndex && r.startStep == st.current.value.round.startStep
    && Contains(r, st.stepIndex) && |r.toolCalls| >= |st.current.value.round.toolCalls|
  }

  lemma EditKeeps(st: State, r: Round)
    requires Shape(st) && Grows(st, r)
    ensures Shape(Edit(st, r))
  {
    hide Chained, Contains;
    forall id | id in st.toolCalls
      ensures SlotOk(Edit(st, r), st.toolCalls[id])
    {
      assert SlotOk(st, st.toolCalls[id]);
    }
  }

  lemma NextStepKeeps(st: State)
    requires Shape(st)
    ensures Shape(st.(stepIndex := st.stepIndex + 1))
  {
    hide Chained;
    forall id | id in st.toolCalls
      ensures SlotOk(st.(stepIndex := st.stepIndex + 1), st.toolCalls[id])
    {
      assert SlotOk(st, st.toolCalls[id]);
    }
  }

  /** Fields that the shape does not look at. */
  lemma AsideKeeps(st: State, thinking: seq<Thought>, pending: Option<Pending>, checkpoints: seq<Checkpoint>)
    requires Shape(st)
    ensures Shape(st.(pendingThinking := thinking, pending := pending, checkpoints := checkpoints))
  {
    hide Chained, Contains;
    var next := st.(pendingThinking := thinking, pending := pending, checkpoints := checkpoints);
    forall id | id in st.toolCalls
      ensures SlotOk(next, st.toolCalls[id])
    {
      assert SlotOk(st, st.toolCalls[id]);
    }
  }

  lemma NotedKeeps(st: State, kind: CheckpointKind, line: Line)
    requires Shape(st)
    ensures Shape(Record(st, kind, line)) && Record(st, kind, line).current == st.current
  {
    hide Shape;
    AsideKeeps(st, st.pendingThinking, st.pending, Record(st, kind, line).checkpoints);
  }

  lemma EnsureKeeps(st: State, line: Line)
    requires Shape(st)
    ensures Shape(EnsureRound(st, line))
  {
    if st.current.None? { NoUsesYet(st); }
  }

  lemma NoUsesYet(st: State)
    requires Shape(st) && st.current.None?
    ensures forall id :: id !in st.toolCalls
  {
  }

  lemma ChainedSnoc(rounds: seq<Round>, r: Round)
    requires Chained(rounds) && r.roundIndex == |rounds| + 1 && r.startStep <= r.endStep && Contains(r, r.endStep)
    requires rounds != [] ==> rounds[|rounds| - 1].endStep == r.startStep
    ensures Chained(rounds + [r])
  {
    hide Contains;
  }

  /** A user line closes the open round at its own step and opens the next one there. */
  lemma NextRoundKeeps(st: State, line: Line)
    requires Shape(st) && line.event.User?
    ensures Shape(OpenRound(PushCurrent(st), line)) && OpenRound(PushCurrent(st), line).current.Some?
  {
    var pushed := PushCurrent(st);
    if st.current.Some? {
      ChainedSnoc(st.rounds, st.current.value.round.(endStep := st.stepIndex));
    }
    var next := OpenRound(pushed, line);
    hide Chained, Contains;
    forall id | id in st.toolCalls
      ensures SlotOk(next, st.toolCalls[id])
    {
      assert SlotOk(st, st.toolCalls[id]);
    }
    OpeningContains(line, pushed.roundIndex + 1, st.stepIndex, st.pending);
  }

  lemma OpeningContains(line: Line, n: int, step: int, pending: Option<Pending>)
    requires line.event.User?
    ensures var r := Opening(line, n, step, pending).round;
            Contains(r, step) && r.startStep == step && r.roundIndex == n
  {
  }

  // ---- Tool results ----------------------------------------------------------------------------------

  /** The same call with its result. */
  function Answered(item: At<Call>, t: ToolResult): At<Call> {
    item.(body := item.body.(resultSummary := t.summary, resultFull := t.full))
  }

  lemma WithResultKeeps(r: Round, call: int, t: ToolResult, high: int)
    requires Contains(r, high) && 0 <= call < |r.toolCalls|
    ensures var next := WithResult(r, call, t);
            && Contains(next, high) && next == r.(toolCalls := r.toolCalls[call := Answered(r.toolCalls[call], t)])
  {
  }

  /** A result that names a recorded tool use is written into that call, whichever round it is in, and nothing else moves:
      every other call of that round and every other round is as before. */
  lemma ResultReachesItsUse(st: State, t: ToolResult, line: Line)
    requires Shape(st) && t.useId != "" && t.useId in st.toolCalls
    ensures var slot, next := st.toolCalls[t.useId], ApplyToolResult(st, t, line);
            && SlotOk(st, slot) && SlotOk(next, slot) && Shape(next)
            && |next.rounds| == |st.rounds| && next.current.Some? == st.current.Some?
            && var r := RoundAt(st, slot.round);
               && RoundAt(next, slot.round) == r.(toolCalls := r.toolCalls[slot.call := Answered(r.toolCalls[slot.call], t)])
               && forall n | 1 <= n <= |st.rounds| + (if st.current.Some? then 1 else 0) && n != slot.round ::
                    RoundAt(next, n) == RoundAt(st, n)
  {
    hide Chained, Contains, Shape, WithResult, Answer;
    var slot := st.toolCalls[t.useId];
    UseIsRecorded(st, t.useId);
    RoundsContain(st);
    AnswerTouchesOneRound(st, slot, t);
    if slot.round == |st.rounds| + 1 {
      WithResultKeeps(st.current.value.round, slot.call, t, st.stepIndex);
      EditKeeps(st, WithResult(st.current.value.round, slot.call, t));
    } else {
      WithResultKeeps(st.rounds[slot.round - 1], slot.call, t, st.rounds[slot.round - 1].endStep);
      ClosedEditKeeps(st, slot.round - 1, WithResult(st.rounds[slot.round - 1], slot.call, t));
    }
  }

  lemma UseIsRecorded(st: State, id: string)
    requires Shape(st) && id in st.toolCalls
    ensures SlotOk(st, st.toolCalls[id]) && (st.current.Some? ==> st.current.value.round.roundIndex == |st.rounds| + 1)
  {
    hide Chained, Contains;
  }

  /** Writing a result into a recorded call is one edit of one round. */
  lemma AnswerTouchesOneRound(st: State, slot: Slot, t: ToolResult)
    requires SlotOk(st, slot) && (st.current.Some? ==> st.current.value.round.roundIndex == |st.rounds| + 1)
    ensures var next, edited := Answer(st, slot, t), WithResult(RoundAt(st, slot.round), slot.call, t);
            && next == (if slot.round == |st.rounds| + 1 then Edit(st, edited)
                        else st.(rounds := st.rounds[slot.round - 1 := edited]))
            && forall n | 1 <= n <= |st.rounds| + (if st.current.Some? then 1 else 0) && n != slot.round ::
                 RoundAt(next, n) == RoundAt(st, n)
  {
    hide WithResult;
  }

  lemma RoundsContain(st: State)
    requires Shape(st)
    ensures forall n | 0 <= n < |st.rounds| :: Contains(st.rounds[n], st.rounds[n].endStep) && st.rounds[n].roundIndex == n + 1
    ensures st.current.Some? ==> Contains(st.current.value.round, st.stepIndex)
  {
  }

  lemma ClosedEditKeeps(st: State, n: int, r: Round)
    requires Shape(st) && 0 <= n < |st.rounds|
    requires r.roundIndex == st.rounds[n].roundIndex
    requires r.startStep == st.rounds[n].startStep && r.endStep == st.rounds[n].endStep
    requires Contains(r, r.endStep) && |r.toolCalls| == |st.rounds[n].toolCalls|
    ensures Shape(st.(rounds := st.rounds[n := r]))
  {
    hide Contains;
    var next := st.(rounds := st.rounds[n := r]);
    forall id | id in st.toolCalls
      ensures SlotOk(next, st.toolCalls[id])
    {
      assert SlotOk(st, st.toolCalls[id]);
    }
  }

  lemma WithinSnoc<T>(xs: seq<At<T>>, x: At<T>, low: int, high: int)
    requires Within(xs, low, high) && low <= x.stepIndex <= high
    ensures Within(xs + [x], low, high)
  {
  }

  lemma AddCallGrows(st: State, call: Call)
    requires Shape(st) && st.current.Some?
    ensures var r := st.current.value.round;
            Grows(st, r.(toolCalls := r.toolCalls + [At(st.stepIndex, call)]))
  {
    var r := st.current.value.round;
    WithinSnoc(r.toolCalls, At(st.stepIndex, call), r.startStep, st.stepIndex);
  }

  lemma ToolResultKeeps(st: State, t: ToolResult, line: Line)
    requires Shape(st)
    ensures Shape(ApplyToolResult(st, t, line)) && (st.current.Some? ==> ApplyToolResult(st, t, line).current.Some?)
  {
    if t.useId != "" && t.useId in st.toolCalls {
      ResultReachesItsUse(st, t, line);
    } else {
      hide Shape, Grows;
      EnsureKeeps(st, line);
      var ready := EnsureRound(st, line);
      var call := Call("tool_result", t.useId, t.summary, t.full);
      AddCallGrows(ready, call);
      var r := ready.current.value.round;
      EditKeeps(ready, r.(toolCalls := r.toolCalls + [At(ready.stepIndex, call)]));
    }
  }

  lemma {:induction false} ToolResultsKeep(st: State, ts: seq<ToolResult>, line: Line)
    requires Shape(st)
    ensures Shape(ApplyToolResults(st, ts, line))
    decreases |ts|
  {
    hide Shape;
    if ts != [] {
      ToolResultKeeps(st, ts[0], line);
      ToolResultsKeep(ApplyToolResult(st, ts[0], line), ts[1..], line);
    }
  }

  lemma UserKeeps(st: State, line: Line)
    requires Shape(st) && line.event.User?
    ensures Shape(HandleUser(st, line))
  {
    hide Shape, Record, ApplyToolResults, OpenRound, PushCurrent;
    var ts := line.event.toolResults;
    if OnlyToolResults(line.event) {
      ToolResultsKeep(st, ts, line);
      NotedKeeps(ApplyToolResults(st, ts, line), ToolResultSeen, line);
    } else {
      NextRoundKeeps(st, line);
      var started := OpenRound(PushCurrent(st), line);
      ToolResultsKeep(started, ts, line);
      NotedKeeps(ApplyToolResults(started, ts, line), ToolResultSeen, line);
    }
  }

  // ---- Assistant lines -------------------------------------------------------------------------------

  /** A tool use is recorded where its call was put. */
  lemma UseKeeps(st: State, use: ToolUse)
    requires Shape(st) && st.current.Some?
    ensures var next, r := AddUse(st, use), st.current.value.round;
            && Shape(next)
            && (use.id != "" ==> use.id in next.toolCalls && SlotOk(next, next.toolCalls[use.id])
                                 && next.toolCalls[use.id] == Slot(st.roundIndex, |r.toolCalls|)
                                 && RoundAt(next, st.roundIndex).toolCalls[|r.toolCalls|]
                                    == At(st.stepIndex, Call(use.name, use.args, "", "")))
  {
    hide Chained, Contains;
    var r := st.current.value.round;
    var call := Call(use.name, use.args, "", "");
    AddCallGrows(st, call);
    EditKeeps(st, r.(toolCalls := r.toolCalls + [At(st.stepIndex, call)]));
    var edited, next := Edit(st, r.(toolCalls := r.toolCalls + [At(st.stepIndex, call)])), AddUse(st, use);
    forall id | id in next.toolCalls
      ensures SlotOk(next, next.toolCalls[id])
    {
      if id in edited.toolCalls { assert SlotOk(edited, edited.toolCalls[id]); }
    }
  }

  lemma {:induction false} UsesKeep(st: State, uses: seq<ToolUse>)
    requires Shape(st) && st.current.Some?
    ensures Shape(AddUses(st, uses))
    decreases |uses|
  {
    hide Shape, AddUse;
    if uses != [] {
      UseKeeps(st, uses[0]);
      UsesKeep(AddUse(st, uses[0]), uses[1..]);
    }
  }

  lemma RespondKeeps(st: State, event: Event)
    requires Shape(st) && st.current.Some? && event.Assistant?
    ensures Shape(Respond(st, event))
  {
    var next := Respond(st, event);
    if next != st {
      var r := st.current.value.round;
      var r' := next.current.value.round;
      WithinSnoc(r.responses, r'.responses[|r.responses|], r.startStep, st.stepIndex);
      hide Shape, Contains;
      RespondedGrows(st, r', r'.responses[|r.responses|]);
      EditKeeps(st, r');
      AsideKeeps(Edit(st, r'), [], st.pending, st.checkpoints);
    }
  }

  lemma RespondedGrows(st: State, r: Round, x: At<Response>)
    requires Shape(st) && st.current.Some? && x.stepIndex == st.stepIndex
    requires r == st.current.value.round.(responses := st.current.value.round.responses + [x])
    ensures Grows(st, r)
  {
  }

  lemma SemanticKeeps(st: State, event: Event)
    requires Shape(st) && st.current.Some? && event.Assistant?
    ensures Shape(AddSemantic(st, event))
  {
    if event.attachments != [] {
      var r := st.current.value.round;
      var x := At(st.stepIndex, Semantic(event.text, Attached(event.attachments, st.stepIndex)));
      WithinSnoc(r.semanticEvents, x, r.startStep, st.stepIndex);
      EditKeeps(st, r.(semanticEvents := r.semanticEvents + [x]));
    }
  }

  lemma AssistantKeeps(st: State, line: Line)
    requires Shape(st) && line.event.Assistant?
    ensures Shape(HandleAssistant(st, line))
  {
    hide Shape, Record, AddUses, Respond, AddSemantic, EnsureRound;
    var event, ready := line.event, EnsureRound(st, line);
    EnsureKeeps(st, line);
    if event.thinking != [] && event.text == "" && event.toolUses == [] {
      var more := ready.pendingThinking + Thoughts(event.thinking, ready.stepIndex);
      AsideKeeps(ready, more, ready.pending, ready.checkpoints);
      NotedKeeps(ready.(pendingThinking := more), Thinking, line);
    } else {
      UsesKeep(ready, event.toolUses);
      var used := AddUses(ready, event.toolUses);
      NotedKeeps(used, ToolCall, line);
      var noted := if event.toolUses != [] then Record(used, ToolCall, line) else used;
      RespondKeeps(noted, event);
      SemanticKeeps(Respond(noted, event), event);
    }
  }

  lemma ViewKeeps(st: State, view: string)
    requires Shape(st)
    ensures Shape(AddView(st, view))
  {
    if st.current.Some? {
      var r := st.current.value.round;
      WithinSnoc(r.fileViews, At(st.stepIndex, view), r.startStep, st.stepIndex);
      EditKeeps(st, r.(fileViews := r.fileViews + [At(st.stepIndex, view)]));
    }
  }

  lemma LineKeeps(before: State, line: Line)
    requires Shape(before)
    ensures Shape(HandleLine(before, line))
  {
    hide Shape, Record, AddView, HandleUser, HandleAssistant;
    var st := before.(stepIndex := before.stepIndex + 1);
    NextStepKeeps(before);
    match line.event
    case User(_, _, _, _, _, _, _, _, _) => UserKeeps(st, line);
    case Assistant(_, _, _, _) => AssistantKeeps(st, line);
    case AttachmentLine(_, view) => ViewKeeps(st, view);
    case CompactBoundary(uuid, metadata, view) =>
      var pending := Some(Pending(Boundary(uuid, metadata, line.lineNo, line.byteOffset), st.stepIndex));
      AsideKeeps(st, st.pendingThinking, pending, st.checkpoints);
      NotedKeeps(st.(pending := pending), BoundarySeen, line);
      ViewKeeps(Record(st.(pending := pending), BoundarySeen, line), view);
    case System(view) => ViewKeeps(st, view);
    case _ =>
  }

  lemma {:induction false} RunKeeps(st: State, lines: seq<Line>)
    requires Shape(st)
    ensures Shape(Run(st, lines))
    decreases |lines|
  {
    hide Shape;
    if lines != [] {
      LineKeeps(st, lines[0]);
      RunKeeps(HandleLine(st, lines[0]), lines[1..]);
    }
  }

  /** Every build: rounds numbered from one that follow each other without gap up to the last line, every item within the
      steps of its round, and every recorded tool use in its place. */
  lemma BuildsAreChained(lines: seq<Line>)
    ensures var built := PushCurrent(Run(INITIAL, lines));
            && Chained(built.rounds) && built.stepIndex == |lines|
            && (built.rounds != [] ==> built.rounds[|built.rounds| - 1].endStep == |lines|)
            && forall id | id in built.toolCalls :: SlotOk(built, built.toolCalls[id])
  {
    assert Shape(INITIAL);
    RunKeeps(INITIAL, lines);
    RunOrdered(lines);
    var st := Run(INITIAL, lines);
    hide Run;
    if st.current.Some? {
      ChainedSnoc(st.rounds, st.current.value.round.(endStep := st.stepIndex));
      hide Chained, Contains;
      forall id | id in st.toolCalls
        ensures SlotOk(PushCurrent(st), st.toolCalls[id])
      {
        assert SlotOk(st, st.toolCalls[id]);
      }
    }
  }
}
