/** The Claude Code rounds builder: conversation rounds from parsed session lines, one line at a time. */
module Rounds {
  import opened Basics

  // ---- Lines ---------------------------------------------------------------------------------------

  /** A thinking block of an event; a sealed one has a signature but no readable text. */
  datatype ThinkingPart = Plain(text: string) | Sealed

  datatype ToolUse = ToolUse(id: string, name: string, args: string)

  /** A tool result names the tool use it answers; the empty string names none. */
  datatype ToolResult = ToolResult(useId: string, summary: string, full: string)

  /** A parsed line. Texts, attachment descriptions and printed views are opaque. */
  datatype Event =
    | Unreadable
    | User(text: string, toolResults: seq<ToolResult>, attachments: seq<string>, annotations: seq<string>,
           compactFlag: bool, parentUuid: string, logicalParentUuid: string, continuation: bool, origin: string)
    | Assistant(text: string, thinking: seq<ThinkingPart>, toolUses: seq<ToolUse>, attachments: seq<string>)
    | AttachmentLine(unlisted: bool, view: string)
    | CompactBoundary(uuid: string, metadata: string, view: string)
    | System(view: string)
    | Other

  datatype Line = Line(event: Event, lineNo: int, byteOffset: int)

  // ---- Rounds --------------------------------------------------------------------------------------

  /** An item of a round with the step at which it was read. */
  datatype At<T> = At(stepIndex: int, body: T)

  /** Thinking as printed into a round: the placeholder of a sealed block names the step. */
  datatype Thought = Words(text: string) | SealedAt(step: int)

  datatype Said = Text(text: string) | Called(names: seq<string>) | Silence

  datatype Response = Response(said: Said, thinking: seq<Thought>, toolCalls: seq<(string, string)>)

  datatype Call = Call(name: string, args: string, resultSummary: string, resultFull: string)

  datatype Annotated = Annotated(message: Message, annotations: seq<string>)

  datatype Semantic = Semantic(text: string, attachments: seq<At<string>>)

  datatype Boundary = Boundary(uuid: string, metadata: string, lineNo: int, byteOffset: int)

  datatype Compaction = Compaction(text: string, origin: string, lineNo: int, byteOffset: int, boundary: Option<Boundary>)

  datatype Message = NoMessage | Typed(text: string) | Folded(info: Compaction)

  datatype Round = Round(
    roundIndex: int, startStep: int, endStep: int, userMessage: Message, attachments: seq<At<string>>,
    responses: seq<At<Response>>, toolCalls: seq<At<Call>>, fileViews: seq<At<string>>,
    compaction: Option<Compaction>, userMessages: seq<At<Annotated>>, semanticEvents: seq<At<Semantic>>)

  datatype CheckpointKind = RoundStart | Thinking | ToolCall | ToolResultSeen | BoundarySeen

  datatype Checkpoint = Checkpoint(kind: CheckpointKind, roundIndex: int, sourceByte: int, sourceLineNo: int, sourceStepIndex: int)

  // ---- The builder's state -------------------------------------------------------------------------

  /** Where a replay of the open round would have to start. */
  datatype Replay = Replay(byte: int, lineNo: int, stepIndex: int)

  datatype Open = Open(round: Round, replay: Replay)

  datatype Pending = Pending(boundary: Boundary, stepIndex: int)

  /** A recorded tool use: the round and the position among its tool calls. */
  datatype Slot = Slot(round: int, call: int)

  datatype State = State(
    rounds: seq<Round>, current: Option<Open>, toolCalls: map<string, Slot>, roundIndex: int, stepIndex: int,
    pendingThinking: seq<Thought>, pending: Option<Pending>, checkpoints: seq<Checkpoint>)

  const INITIAL: State := State([], None, map[], 0, 0, [], None, [])

  function NewRound(roundIndex: int, step: int, message: Message): Round {
    Round(roundIndex, step, step, message, [], [], [], [], None, [], [])
  }

  function Record(st: State, kind: CheckpointKind, line: Line): State {
    if st.current.None? then st
    else st.(checkpoints := st.checkpoints
             + [Checkpoint(kind, st.current.value.round.roundIndex, line.byteOffset, line.lineNo, st.stepIndex)])
  }

  function PushCurrent(st: State): State {
    if st.current.None? then st
    else
      var open := st.current.value;
      st.(rounds := st.rounds + [open.round.(endStep := st.stepIndex)], current := None,
          checkpoints := st.checkpoints + [Checkpoint(RoundStart, open.round.roundIndex, open.replay.byte,
                                                      open.replay.lineNo, open.replay.stepIndex)])
  }

  function EnsureRound(st: State, line: Line): (r: State)
    ensures r.current.Some?
  {
    if st.current.Some? then st
    else st.(roundIndex := st.roundIndex + 1,
             current := Some(Open(NewRound(st.roundIndex + 1, st.stepIndex, NoMessage),
                                  Replay(line.byteOffset, line.lineNo, st.stepIndex))))
  }

  function Edit(st: State, round: Round): State
    requires st.current.Some?
  {
    st.(current := Some(st.current.value.(round := round)))
  }

  function WithResult(round: Round, call: int, r: ToolResult): Round {
    if 0 <= call < |round.toolCalls| then
      var item := round.toolCalls[call];
      round.(toolCalls := round.toolCalls[call := item.(body := item.body.(resultSummary := r.summary, resultFull := r.full))])
    else round
  }

  /** Writes a result into the recorded tool use, in the open round or in an earlier one. */
  function Answer(st: State, slot: Slot, r: ToolResult): State {
    if st.current.Some? && st.current.value.round.roundIndex == slot.round then
      Edit(st, WithResult(st.current.value.round, slot.call, r))
    else if 1 <= slot.round <= |st.rounds| then
      st.(rounds := st.rounds[slot.round - 1 := WithResult(st.rounds[slot.round - 1], slot.call, r)])
    else st
  }

  function ApplyToolResult(st: State, r: ToolResult, line: Line): State {
    if r.useId != "" && r.useId in st.toolCalls then Answer(st, st.toolCalls[r.useId], r)
    else
      var ready := EnsureRound(st, line);
      var round := ready.current.value.round;
      Edit(ready, round.(toolCalls := round.toolCalls + [At(ready.stepIndex, Call("tool_result", r.useId, r.summary, r.full))]))
  }

  function ApplyToolResults(st: State, results: seq<ToolResult>, line: Line): State
    decreases |results|
  {
    if results == [] then st else ApplyToolResults(ApplyToolResult(st, results[0], line), results[1..], line)
  }

  predicate IsCompactSummary(event: Event, pending: Option<Pending>)
    requires event.User?
  {
    event.compactFlag
    || (&& pending.Some? && pending.value.boundary.uuid != "" && event.continuation
        && (event.parentUuid == pending.value.boundary.uuid || event.logicalParentUuid == pending.value.boundary.uuid))
  }

  function Attached(infos: seq<string>, step: int): seq<At<string>> {
    seq(|infos|, i requires 0 <= i < |infos| => At(step, infos[i]))
  }

  /** The round that a user line opens; one that closes a compaction is replayed from its boundary. */
  function Opening(line: Line, roundIndex: int, step: int, pending: Option<Pending>): Open
    requires line.event.User?
  {
    var event := line.event;
    var summary := IsCompactSummary(event, pending);
    var boundary := if pending.Some? then Some(pending.value.boundary) else None;
    var info := Compaction(event.text, event.origin, line.lineNo, line.byteOffset, boundary);
    var message := if summary then Folded(info) else if event.text != "" then Typed(event.text) else NoMessage;
    var round := NewRound(roundIndex, step, message).(
      attachments := if summary then [] else Attached(event.attachments, step),
      compaction := if summary then Some(info) else None,
      userMessages := if !summary && event.annotations != [] then [At(step, Annotated(message, event.annotations))] else []);
    var replay := if summary && pending.Some?
                  then Replay(pending.value.boundary.byteOffset, pending.value.boundary.lineNo, pending.value.stepIndex)
                  else Replay(line.byteOffset, line.lineNo, step);
    Open(round, replay)
  }

  function OpenRound(st: State, line: Line): State
    requires line.event.User?
  {
    st.(roundIndex := st.roundIndex + 1,
        current := Some(Opening(line, st.roundIndex + 1, st.stepIndex, st.pending)),
        pending := if IsCompactSummary(line.event, st.pending) then None else st.pending)
  }

  predicate OnlyToolResults(event: Event)
    requires event.User?
  {
    event.toolResults != [] && event.text == ""
  }

  function HandleUser(st: State, line: Line): State
    requires line.event.User?
  {
    if OnlyToolResults(line.event) then
      Record(ApplyToolResults(st, line.event.toolResults, line), ToolResultSeen, line)
    else
      var started := ApplyToolResults(OpenRound(PushCurrent(st), line), line.event.toolResults, line);
      if line.event.toolResults != [] then Record(started, ToolResultSeen, line) else started
  }

  function Thoughts(parts: seq<ThinkingPart>, step: int): seq<Thought> {
    seq(|parts|, i requires 0 <= i < |parts| => if parts[i].Plain? then Words(parts[i].text) else SealedAt(step))
  }

  function AddUse(st: State, use: ToolUse): (r: State)
    requires st.current.Some?
    ensures r.current.Some?
  {
    var round := st.current.value.round;
    var next := Edit(st, round.(toolCalls := round.toolCalls + [At(st.stepIndex, Call(use.name, use.args, "", ""))]));
    if use.id != "" then next.(toolCalls := next.toolCalls[use.id := Slot(round.roundIndex, |round.toolCalls|)]) else next
  }

  function AddUses(st: State, uses: seq<ToolUse>): (r: State)
    requires st.current.Some?
    ensures r.current.Some?
    decreases |uses|
  {
    if uses == [] then st else AddUses(AddUse(st, uses[0]), uses[1..])
  }

  function Names(uses: seq<ToolUse>): seq<string> {
    seq(|uses|, i requires 0 <= i < |uses| => uses[i].name)
  }

  function NamesAndArgs(uses: seq<ToolUse>): seq<(string, string)> {
    seq(|uses|, i requires 0 <= i < |uses| => (uses[i].name, uses[i].args))
  }

  function Respond(st: State, event: Event): (r: State)
    requires event.Assistant? && st.current.Some?
    ensures r.current.Some?
  {
    var thinking := st.pendingThinking + Thoughts(event.thinking, st.stepIndex);
    if event.text != "" || event.toolUses != [] || thinking != [] || event.attachments != [] then
      var round := st.current.value.round;
      var said := if event.text != "" then Text(event.text)
                  else if event.toolUses != [] then Called(Names(event.toolUses)) else Silence;
      Edit(st, round.(responses := round.responses + [At(st.stepIndex, Response(said, thinking, NamesAndArgs(event.toolUses)))]))
        .(pendingThinking := [])
    else st
  }

  function AddSemantic(st: State, event: Event): State
    requires event.Assistant? && st.current.Some?
  {
    if event.attachments == [] then st
    else
      var round := st.current.value.round;
      Edit(st, round.(semanticEvents := round.semanticEvents
           + [At(st.stepIndex, Semantic(event.text, Attached(event.attachments, st.stepIndex)))]))
  }

  function HandleAssistant(st: State, line: Line): State
    requires line.event.Assistant?
  {
    var event := line.event;
    var ready := EnsureRound(st, line);
    if event.thinking != [] && event.text == "" && event.toolUses == [] then
      Record(ready.(pendingThinking := ready.pendingThinking + Thoughts(event.thinking, ready.stepIndex)), Thinking, line)
    else
      var used := AddUses(ready, event.toolUses);
      var noted := if event.toolUses != [] then Record(used, ToolCall, line) else used;
      AddSemantic(Respond(noted, event), event)
  }

  function AddView(st: State, view: string): State {
    if st.current.None? then st
    else
      var round := st.current.value.round;
      Edit(st, round.(fileViews := round.fileViews + [At(st.stepIndex, view)]))
  }

  function HandleLine(before: State, line: Line): State {
    var st := before.(stepIndex := before.stepIndex + 1);
    match line.event
    case Unreadable => st
    case User(_, _, _, _, _, _, _, _, _) => HandleUser(st, line)
    case Assistant(_, _, _, _) => HandleAssistant(st, line)
    case AttachmentLine(unlisted, view) => if unlisted then st else AddView(st, view)
    case CompactBoundary(uuid, metadata, view) =>
      AddView(Record(st.(pending := Some(Pending(Boundary(uuid, metadata, line.lineNo, line.byteOffset), st.stepIndex))),
                     BoundarySeen, line), view)
    case System(view) => AddView(st, view)
    case Other => st
  }

  function Run(st: State, lines: seq<Line>): State
    decreases |lines|
  {
    if lines == [] then st else Run(HandleLine(st, lines[0]), lines[1..])
  }

  lemma {:induction false} RunSplit(st: State, a: seq<Line>, b: seq<Line>)
    ensures Run(st, a + b) == Run(Run(st, a), b)
    decreases |a|
  {
    if a == [] {
      assert a + b == b;
    } else {
      assert (a + b)[1..] == a[1..] + b;
      RunSplit(HandleLine(st, a[0]), a[1..], b);
    }
  }

  // ---- The builder itself --------------------------------------------------------------------------

  /** The closure of `createClaudeCodeRoundsBuilder` with its variables as fields. */
  class Builder {
    var rounds: seq<Round>
    var currentRound: Option<Open>
    var toolCallMap: map<string, Slot>
    var roundIndex: int
    var stepIndex: int
    var pendingThinking: seq<Thought>
    var pendingCompactBoundary: Option<Pending>
    var sourceCheckpoints: seq<Checkpoint>

    ghost function Abs(): State
      reads this
    {
      State(rounds, currentRound, toolCallMap, roundIndex, stepIndex, pendingThinking, pendingCompactBoundary, sourceCheckpoints)
    }

    constructor ()
      ensures Abs() == INITIAL
    {
      rounds, currentRound, toolCallMap, roundIndex, stepIndex := [], None, map[], 0, 0;
      pendingThinking, pendingCompactBoundary, sourceCheckpoints := [], None, [];
    }

    method RecordSourceCheckpoint(kind: CheckpointKind, line: Line)
      requires currentRound.Some?
      modifies this`sourceCheckpoints
      ensures Abs() == Record(old(Abs()), kind, line)
    {
      sourceCheckpoints := sourceCheckpoints
        + [Checkpoint(kind, currentRound.value.round.roundIndex, line.byteOffset, line.lineNo, stepIndex)];
    }

    method PushCurrentRound()
      modifies this
      ensures Abs() == PushCurrent(old(Abs()))
    {
      if currentRound.None? { return; }
      var open := currentRound.value;
      sourceCheckpoints := sourceCheckpoints
        + [Checkpoint(RoundStart, open.round.roundIndex, open.replay.byte, open.replay.lineNo, open.replay.stepIndex)];
      rounds := rounds + [open.round.(endStep := stepIndex)];
      currentRound := None;
    }

    method EnsureCurrentRound(line: Line)
      modifies this
      ensures Abs() == EnsureRound(old(Abs()), line) && currentRound.Some?
    {
      if currentRound.None? {
        roundIndex := roundIndex + 1;
        currentRound := Some(Open(NewRound(roundIndex, stepIndex, NoMessage), Replay(line.byteOffset, line.lineNo, stepIndex)));
      }
    }

    method EditRound(round: Round)
      requires currentRound.Some?
      modifies this`currentRound
      ensures Abs() == Edit(old(Abs()), round)
    {
      currentRound := Some(currentRound.value.(round := round));
    }

    method ApplyOne(r: ToolResult, line: Line)
      modifies this
      ensures Abs() == ApplyToolResult(old(Abs()), r, line)
    {
      if r.useId != "" && r.useId in toolCallMap {
        var slot := toolCallMap[r.useId];
        if currentRound.Some? && currentRound.value.round.roundIndex == slot.round {
          EditRound(WithResult(currentRound.value.round, slot.call, r));
        } else if 1 <= slot.round <= |rounds| {
          rounds := rounds[slot.round - 1 := WithResult(rounds[slot.round - 1], slot.call, r)];
        }
      } else {
        EnsureCurrentRound(line);
        var round := currentRound.value.round;
        EditRound(round.(toolCalls := round.toolCalls + [At(stepIndex, Call("tool_result", r.useId, r.summary, r.full))]));
      }
    }

    method ApplyAll(results: seq<ToolResult>, line: Line)
      modifies this
      ensures Abs() == ApplyToolResults(old(Abs()), results, line)
    {
      var i := 0;
      while i < |results|
        invariant 0 <= i <= |results|
        invariant ApplyToolResults(Abs(), results[i..], line) == ApplyToolResults(old(Abs()), results, line)
      {
        assert results[i..][0] == results[i] && results[i..][1..] == results[i + 1..];
        ApplyOne(results[i], line);
        i := i + 1;
      }
    }

    method UserLine(line: Line)
      requires line.event.User?
      modifies this
      ensures Abs() == HandleUser(old(Abs()), line)
    {
      if OnlyToolResults(line.event) {
        ApplyAll(line.event.toolResults, line);
        if currentRound.Some? { RecordSourceCheckpoint(ToolResultSeen, line); }
        return;
      }
      PushCurrentRound();
      ghost var pushed := Abs();
      roundIndex := roundIndex + 1;
      currentRound := Some(Opening(line, roundIndex, stepIndex, pendingCompactBoundary));
      if IsCompactSummary(line.event, pendingCompactBoundary) { pendingCompactBoundary := None; }
      assert Abs() == OpenRound(pushed, line);
      ApplyAll(line.event.toolResults, line);
      OpenStaysOpen(OpenRound(pushed, line), line.event.toolResults, line);
      if line.event.toolResults != [] { RecordSourceCheckpoint(ToolResultSeen, line); }
    }

    method AddToolUses(uses: seq<ToolUse>)
      requires currentRound.Some?
      modifies this
      ensures Abs() == AddUses(old(Abs()), uses) && currentRound.Some?
    {
      var i := 0;
      while i < |uses|
        invariant 0 <= i <= |uses| && currentRound.Some?
        invariant AddUses(Abs(), uses[i..]) == AddUses(old(Abs()), uses)
      {
        assert uses[i..][0] == uses[i] && uses[i..][1..] == uses[i + 1..];
        var round := currentRound.value.round;
        EditRound(round.(toolCalls := round.toolCalls + [At(stepIndex, Call(uses[i].name, uses[i].args, "", ""))]));
        if uses[i].id != "" { toolCallMap := toolCallMap[uses[i].id := Slot(round.roundIndex, |round.toolCalls|)]; }
        i := i + 1;
      }
    }

    method AssistantLine(line: Line)
      requires line.event.Assistant?
      modifies this
      ensures Abs() == HandleAssistant(old(Abs()), line)
    {
      var event := line.event;
      EnsureCurrentRound(line);
      if event.thinking != [] && event.text == "" && event.toolUses == [] {
        pendingThinking := pendingThinking + Thoughts(event.thinking, stepIndex);
        RecordSourceCheckpoint(Thinking, line);
        return;
      }
      AddToolUses(event.toolUses);
      if event.toolUses != [] { RecordSourceCheckpoint(ToolCall, line); }
      var thinking := pendingThinking + Thoughts(event.thinking, stepIndex);
      if event.text != "" || event.toolUses != [] || thinking != [] || event.attachments != [] {
        var round := currentRound.value.round;
        var said := if event.text != "" then Text(event.text)
                    else if event.toolUses != [] then Called(Names(event.toolUses)) else Silence;
        EditRound(round.(responses := round.responses
                         + [At(stepIndex, Response(said, thinking, NamesAndArgs(event.toolUses)))]));
        pendingThinking := [];
      }
      if event.attachments != [] {
        var round := currentRound.value.round;
        EditRound(round.(semanticEvents := round.semanticEvents
                         + [At(stepIndex, Semantic(event.text, Attached(event.attachments, stepIndex)))]));
      }
    }

    method AddFileView(view: string)
      modifies this`currentRound
      ensures Abs() == AddView(old(Abs()), view)
    {
      if currentRound.Some? {
        var round := currentRound.value.round;
        EditRound(round.(fileViews := round.fileViews + [At(stepIndex, view)]));
      }
    }

    method Handle(line: Line)
      modifies this
      ensures Abs() == HandleLine(old(Abs()), line)
    {
      stepIndex := stepIndex + 1;
      match line.event
      case Unreadable => 
      case User(_, _, _, _, _, _, _, _, _) => UserLine(line);
      case Assistant(_, _, _, _) => AssistantLine(line);
      case AttachmentLine(unlisted, view) => if !unlisted { AddFileView(view); }
      case CompactBoundary(uuid, metadata, view) =>
        pendingCompactBoundary := Some(Pending(Boundary(uuid, metadata, line.lineNo, line.byteOffset), stepIndex));
        if currentRound.Some? { RecordSourceCheckpoint(BoundarySeen, line); }
        AddFileView(view);
      case System(view) => AddFileView(view);
      case Other => 
    }

    method Finish() returns (result: seq<Round>, totalSteps: int, checkpoints: seq<Checkpoint>)
      modifies this
      ensures Abs() == PushCurrent(old(Abs()))
      ensures result == rounds && totalSteps == stepIndex && checkpoints == sourceCheckpoints
    {
      PushCurrentRound();
      return rounds, stepIndex, sourceCheckpoints;
    }
  }

  lemma {:induction false} OpenStaysOpen(st: State, results: seq<ToolResult>, line: Line)
    ensures st.current.Some? ==> ApplyToolResults(st, results, line).current.Some?
    decreases |results|
  {
    if results != [] && st.current.Some? {
      OpenStaysOpen(ApplyToolResult(st, results[0], line), results[1..], line);
    }
  }

  /** Reads a list of lines with a fresh builder. */
  method BuildRounds(lines: seq<Line>) returns (rounds: seq<Round>, totalSteps: int, checkpoints: seq<Checkpoint>)
    ensures var st := PushCurrent(Run(INITIAL, lines));
            rounds == st.rounds && totalSteps == st.stepIndex && checkpoints == st.checkpoints
  {
    var builder := new Builder();
    var i := 0;
    while i < |lines|
      invariant 0 <= i <= |lines| && Run(builder.Abs(), lines[i..]) == Run(INITIAL, lines)
    {
      assert lines[i..][0] == lines[i] && lines[i..][1..] == lines[i + 1..];
      builder.Handle(lines[i]);
      i := i + 1;
    }
    rounds, totalSteps, checkpoints := builder.Finish();
  }
}
