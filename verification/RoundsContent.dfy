/** What the rounds of a build hold, told by a walk over the lines that knows nothing of rounds: the messages that open them,
    the responses with their thinking, the views, the assistant's attachments and the checkpoints, all in line order. */
module RoundsContent {
  import opened Basics
  import opened Rounds

  // ---- What rounds tell ------------------------------------------------------------------------------

  /** How a round begins. */
  datatype Head = Head(step: int, message: Message, attachments: seq<At<string>>, annotated: seq<At<Annotated>>,
                       compaction: Option<Compaction>)

  datatype Told = Told(heads: seq<Head>, responses: seq<At<Response>>, views: seq<At<string>>, semantics: seq<At<Semantic>>,
                       marks: seq<Checkpoint>)

  const NOTHING: Told := Told([], [], [], [], [])

  function Plus(a: Told, b: Told): Told {
    Told(a.heads + b.heads, a.responses + b.responses, a.views + b.views, a.semantics + b.semantics, a.marks + b.marks)
  }

  function HeadOf(r: Round): Head {
    Head(r.startStep, r.userMessage, r.attachments, r.userMessages, r.compaction)
  }

  function ToldBy(r: Round): Told {
    Told([HeadOf(r)], r.responses, r.fileViews, r.semanticEvents, [])
  }

  function ToldByAll(rounds: seq<Round>): Told {
    if rounds == [] then NOTHING else Plus(ToldByAll(rounds[..|rounds| - 1]), ToldBy(rounds[|rounds| - 1]))
  }

  /** The checkpoints, but for those of finished rounds. */
  function Marks(checkpoints: seq<Checkpoint>): seq<Checkpoint> {
    if checkpoints == [] then []
    else
      var last := checkpoints[|checkpoints| - 1];
      Marks(checkpoints[..|checkpoints| - 1]) + if last.kind == RoundStart then [] else [last]
  }

  /** All rounds of a state, the open one last. */
  function AllRounds(st: State): seq<Round> {
    st.rounds + if st.current.Some? then [st.current.value.round] else []
  }

  function Content(st: State): Told {
    ToldByAll(AllRounds(st)).(marks := Marks(st.checkpoints))
  }

  // ---- What lines tell -------------------------------------------------------------------------------

  /** What has to be remembered of the lines before: their number, the rounds they opened, the thinking that waits for a
      response, and the compaction boundary that waits for its summary. */
  datatype Heard = Heard(step: int, rounds: int, waiting: seq<Thought>, boundary: Option<Boundary>)

  const SILENT: Heard := Heard(0, 0, [], None)

  predicate OnlyResults(event: Event) {
    event.User? && event.text == "" && |event.toolResults| > 0
  }

  predicate OnlyThinking(event: Event) {
    event.Assistant? && event.text == "" && |event.toolUses| == 0 && |event.thinking| > 0
  }

  predicate OpensRound(event: Event, rounds: int) {
    (event.User? && !OnlyResults(event)) || (rounds == 0 && (event.User? || event.Assistant?))
  }

  /** A summary says so itself, or goes on behind the boundary that it names. */
  predicate Summarises(event: Event, boundary: Option<Boundary>)
    requires event.User?
  {
    || event.compactFlag
    || (event.continuation && boundary.Some? && boundary.value.uuid != ""
        && boundary.value.uuid in {event.parentUuid, event.logicalParentUuid})
  }

  function OwnThoughts(event: Event, step: int): seq<Thought>
    requires event.Assistant?
  {
    seq(|event.thinking|, i requires 0 <= i < |event.thinking| =>
      match event.thinking[i] case Plain(text) => Words(text) case Sealed => SealedAt(step))
  }

  function Dated(texts: seq<string>, step: int): seq<At<string>> {
    seq(|texts|, i requires 0 <= i < |texts| => At(step, texts[i]))
  }

  /** The head of the round that a line opens. */
  function OpenedBy(line: Line, step: int, boundary: Option<Boundary>): Head {
    var event := line.event;
    if !event.User? || OnlyResults(event) then Head(step, NoMessage, [], [], None)
    else if Summarises(event, boundary) then
      var info := Compaction(event.text, event.origin, line.lineNo, line.byteOffset, boundary);
      Head(step, Folded(info), [], [], Some(info))
    else
      var message := if |event.text| == 0 then NoMessage else Typed(event.text);
      Head(step, message, Dated(event.attachments, step),
           if |event.annotations| == 0 then [] else [At(step, Annotated(message, event.annotations))], None)
  }

  /** The response of an assistant line: its text, or else the tools it calls, with all thinking since the last one. */
  function Answers(event: Event, step: int, waiting: seq<Thought>): seq<At<Response>>
    requires event.Assistant?
  {
    var thoughts := waiting + OwnThoughts(event, step);
    var calls := seq(|event.toolUses|, i requires 0 <= i < |event.toolUses| => (event.toolUses[i].name, event.toolUses[i].args));
    var names := seq(|event.toolUses|, i requires 0 <= i < |event.toolUses| => event.toolUses[i].name);
    if |event.text| > 0 then [At(step, Response(Text(event.text), thoughts, calls))]
    else if |event.toolUses| > 0 then [At(step, Response(Called(names), thoughts, calls))]
    else if |thoughts| > 0 || |event.attachments| > 0 then [At(step, Response(Silence, thoughts, []))]
    else []
  }

  function Shown(event: Event): seq<string> {
    match event
    case AttachmentLine(unlisted, view) => if unlisted then [] else [view]
    case CompactBoundary(_, _, view) => [view]
    case System(view) => [view]
    case _ => []
  }

  function MarkKind(event: Event): Option<CheckpointKind> {
    match event
    case User(_, results, _, _, _, _, _, _, _) => if |results| > 0 then Some(ToolResultSeen) else None
    case Assistant(_, _, uses, _) => if |uses| > 0 then Some(ToolCall) else if OnlyThinking(event) then Some(Thinking) else None
    case CompactBoundary(_, _, _) => Some(BoundarySeen)
    case _ => None
  }

  /** What one line adds. */
  function Adds(heard: Heard, line: Line): Told {
    var event, step := line.event, heard.step + 1;
    var rounds := heard.rounds + if OpensRound(event, heard.rounds) then 1 else 0;
    var speaks := event.Assistant? && !OnlyThinking(event);
    Told(if OpensRound(event, heard.rounds) then [OpenedBy(line, step, heard.boundary)] else [],
         if speaks then Answers(event, step, heard.waiting) else [],
         if rounds > 0 then Dated(Shown(event), step) else [],
         if speaks && |event.attachments| > 0 then [At(step, Semantic(event.text, Dated(event.attachments, step)))] else [],
         if rounds > 0 && MarkKind(event).Some? then [Checkpoint(MarkKind(event).value, rounds, line.byteOffset, line.lineNo, step)]
         else [])
  }

  /** What is remembered behind it. */
  function Hears(heard: Heard, line: Line): Heard {
    var event, step := line.event, heard.step + 1;
    Heard(step,
          heard.rounds + (if OpensRound(event, heard.rounds) then 1 else 0),
          if OnlyThinking(event) then heard.waiting + OwnThoughts(event, step) else if event.Assistant? then [] else heard.waiting,
          if event.CompactBoundary? then Some(Boundary(event.uuid, event.metadata, line.lineNo, line.byteOffset))
          else if event.User? && !OnlyResults(event) && Summarises(event, heard.boundary) then None
          else heard.boundary)
  }

  function Tells(heard: Heard, lines: seq<Line>): Told
    decreases |lines|
  {
    if lines == [] then NOTHING else Plus(Adds(heard, lines[0]), Tells(Hears(heard, lines[0]), lines[1..]))
  }

  // ---- The builder's steps ---------------------------------------------------------------------------

  function HeardBy(st: State): Heard {
    Heard(st.stepIndex, st.roundIndex, st.pendingThinking, if st.pending.Some? then Some(st.pending.value.boundary) else None)
  }

  lemma ToldSnoc(rounds: seq<Round>, r: Round)
    ensures ToldByAll(rounds + [r]) == Plus(ToldByAll(rounds), ToldBy(r))
  {
    assert (rounds + [r])[..|rounds|] == rounds;
  }

  lemma MarksSnoc(checkpoints: seq<Checkpoint>, c: Checkpoint)
    ensures Marks(checkpoints + [c]) == Marks(checkpoints) + if c.kind == RoundStart then [] else [c]
  {
    assert (checkpoints + [c])[..|checkpoints|] == checkpoints;
  }

  lemma PlusNothing(a: Told)
    ensures Plus(a, NOTHING) == a && Plus(NOTHING, a) == a
  {
    assert a.heads + [] == a.heads && a.responses + [] == a.responses && a.views + [] == a.views;
    assert a.semantics + [] == a.semantics && a.marks + [] == a.marks;
    assert [] + a.heads == a.heads && [] + a.responses == a.responses && [] + a.views == a.views;
    assert [] + a.semantics == a.semantics && [] + a.marks == a.marks;
  }

  lemma PlusAssociates(a: Told, b: Told, c: Told)
    ensures Plus(Plus(a, b), c) == Plus(a, Plus(b, c))
  {
  }

  /** Without an open round nothing has been opened and no tool use recorded; the open round has the last number. */
  predicate Steady(st: State) {
    match st.current
    case None => st.rounds == [] && st.roundIndex == 0 && st.toolCalls == map[]
    case Some(open) => st.roundIndex == open.round.roundIndex > 0
  }

  /** The finished rounds. */
  function Closed(st: State): Told {
    ToldByAll(st.rounds).(marks := Marks(st.checkpoints))
  }

  lemma ContentIs(st: State)
    ensures Content(st) == if st.current.Some? then Plus(Closed(st), ToldBy(st.current.value.round)) else Closed(st)
  {
    if st.current.Some? {
      ToldSnoc(st.rounds, st.current.value.round);
      assert Marks(st.checkpoints) + [] == Marks(st.checkpoints);
    } else {
      assert st.rounds + [] == st.rounds;
    }
  }

  /** An edit of the open round that only adds. */
  lemma EditTells(st: State, round: Round, more: Told)
    requires st.current.Some? && ToldBy(round) == Plus(ToldBy(st.current.value.round), more)
    ensures Content(Edit(st, round)) == Plus(Content(st), more)
  {
    hide ToldByAll, Marks, ToldBy, Plus, Content;
    ContentIs(st);
    ContentIs(Edit(st, round));
    PlusAssociates(Closed(st), ToldBy(st.current.value.round), more);
  }

  lemma PushTells(st: State)
    ensures Closed(PushCurrent(st)) == Content(st)
  {
    hide ToldByAll, Marks;
    ContentIs(st);
    if st.current.Some? {
      var open := st.current.value;
      ToldSnoc(st.rounds, open.round.(endStep := st.stepIndex));
      MarksSnoc(st.checkpoints, Checkpoint(RoundStart, open.round.roundIndex, open.replay.byte, open.replay.lineNo, open.replay.stepIndex));
      assert Marks(st.checkpoints) + [] == Marks(st.checkpoints);
    }
  }

  function WithHead(head: Head): Told { NOTHING.(heads := [head]) }

  /** The round that is opened without a message, if none is open. */
  function Implied(st: State): Told {
    if st.current.Some? then NOTHING else WithHead(Head(st.stepIndex, NoMessage, [], [], None))
  }

  /** A state that has opened a round if none was open, and remembers what it remembered. */
  predicate StillOpen(st: State, next: State) {
    && Steady(next) && next.current.Some?
    && HeardBy(next) == HeardBy(st).(rounds := if st.current.Some? then st.roundIndex else 1)
  }

  lemma EnsureTells(st: State, line: Line)
    requires Steady(st)
    ensures Content(EnsureRound(st, line)) == Plus(Content(st), Implied(st))
    ensures StillOpen(st, EnsureRound(st, line))
  {
    hide ToldByAll, Marks, Content;
    PlusNothing(Content(st));
    if st.current.None? {
      ContentIs(st);
      ContentIs(EnsureRound(st, line));
    }
  }

  lemma {:induction false} UpdatedTells(rounds: seq<Round>, k: nat, r: Round)
    requires k < |rounds| && ToldBy(r) == ToldBy(rounds[k])
    ensures ToldByAll(rounds[k := r]) == ToldByAll(rounds)
    decreases |rounds|
  {
    hide ToldBy, Plus;
    var n := |rounds| - 1;
    if k < n {
      UpdatedTells(rounds[..n], k, r);
      assert rounds[k := r][..n] == rounds[..n][k := r];
    } else {
      assert rounds[k := r][..n] == rounds[..n];
    }
  }

  lemma AnswerTells(st: State, slot: Slot, r: ToolResult)
    requires Steady(st) && st.current.Some?
    ensures Content(Answer(st, slot, r)) == Content(st) && StillOpen(st, Answer(st, slot, r))
  {
    hide ToldByAll, Marks, Content, Plus;
    var round := st.current.value.round;
    if round.roundIndex == slot.round {
      PlusNothing(ToldBy(round));
      PlusNothing(Content(st));
      EditTells(st, WithResult(round, slot.call, r), NOTHING);
    } else if 1 <= slot.round <= |st.rounds| {
      var k := slot.round - 1;
      UpdatedTells(st.rounds, k, WithResult(st.rounds[k], slot.call, r));
      ContentIs(st);
      ContentIs(Answer(st, slot, r));
    }
  }

  lemma ResultTells(st: State, r: ToolResult, line: Line)
    requires Steady(st)
    ensures Content(ApplyToolResult(st, r, line)) == Plus(Content(st), Implied(st))
    ensures StillOpen(st, ApplyToolResult(st, r, line))
  {
    hide Content, Plus, Answer;
    if r.useId != "" && r.useId in st.toolCalls {
      AnswerTells(st, st.toolCalls[r.useId], r);
      PlusNothing(Content(st));
    } else {
      EnsureTells(st, line);
      var ready := EnsureRound(st, line);
      var round := ready.current.value.round;
      PlusNothing(ToldBy(round));
      PlusNothing(Content(ready));
      EditTells(ready, round.(toolCalls := round.toolCalls + [At(ready.stepIndex, Call("tool_result", r.useId, r.summary, r.full))]), NOTHING);
    }
  }

  lemma {:induction false} ResultsTell(st: State, results: seq<ToolResult>, line: Line)
    requires Steady(st)
    ensures var next := ApplyToolResults(st, results, line);
            if results == [] then next == st
            else Content(next) == Plus(Content(st), Implied(st)) && StillOpen(st, next)
    decreases |results|
  {
    hide Content, Plus, ApplyToolResult;
    if results != [] {
      ResultTells(st, results[0], line);
      var next := ApplyToolResult(st, results[0], line);
      ResultsTell(next, results[1..], line);
      PlusNothing(Content(next));
    }
  }

  lemma SameDated(texts: seq<string>, step: int)
    ensures Attached(texts, step) == Dated(texts, step)
  {
  }

  lemma OpenTells(st: State, line: Line)
    requires Steady(st) && line.event.User? && !OnlyResults(line.event)
    ensures var next := OpenRound(PushCurrent(st), line);
            && Content(next) == Plus(Content(st), WithHead(OpenedBy(line, st.stepIndex, HeardBy(st).boundary)))
            && Steady(next) && next.current.Some?
            && HeardBy(next) == HeardBy(st).(
                 rounds := st.roundIndex + 1,
                 boundary := if Summarises(line.event, HeardBy(st).boundary) then None else HeardBy(st).boundary)
  {
    hide ToldByAll, Marks, Content;
    PushTells(st);
    var next := OpenRound(PushCurrent(st), line);
    ContentIs(next);
    SameDated(line.event.attachments, st.stepIndex);
    assert Closed(next) == Closed(PushCurrent(st));
  }

  lemma MarkTells(st: State, kind: CheckpointKind, line: Line)
    requires Steady(st) && st.current.Some? && kind != RoundStart
    ensures var next := Record(st, kind, line);
            && Content(next) == Plus(Content(st), NOTHING.(marks := [Checkpoint(kind, st.roundIndex, line.byteOffset, line.lineNo, st.stepIndex)]))
            && next == st.(checkpoints := next.checkpoints)
  {
    hide ToldByAll, Marks;
    var c := Checkpoint(kind, st.roundIndex, line.byteOffset, line.lineNo, st.stepIndex);
    MarksSnoc(st.checkpoints, c);
    PlusNothing(Content(st));
  }

  // ---- Every line tells what the walk says -----------------------------------------------------------

  /** The state behind a line, against the walk. */
  ghost predicate Follows(before: State, next: State, line: Line) {
    && Steady(next) && Content(next) == Plus(Content(before), Adds(HeardBy(before), line))
    && HeardBy(next) == Hears(HeardBy(before), line)
  }

  function Stepped(before: State): State {
    before.(stepIndex := before.stepIndex + 1)
  }

  lemma NoneDated(step: int)
    ensures Dated([], step) == []
  {
  }

  lemma MarkedTells(before: Told, head: Told, mark: Checkpoint, both: Told)
    requires head == NOTHING.(heads := head.heads) && both == head.(marks := [mark])
    ensures Plus(Plus(before, head), NOTHING.(marks := [mark])) == Plus(before, both)
  {
    PlusAssociates(before, head, NOTHING.(marks := [mark]));
  }

  lemma UserAdds(heard: Heard, line: Line)
    requires line.event.User?
    ensures var opens := OpensRound(line.event, heard.rounds);
            var rounds := heard.rounds + if opens then 1 else 0;
            Adds(heard, line) ==
            NOTHING.(heads := if opens then [OpenedBy(line, heard.step + 1, heard.boundary)] else [],
                     marks := if line.event.toolResults == [] || rounds <= 0 then []
                              else [Checkpoint(ToolResultSeen, rounds, line.byteOffset, line.lineNo, heard.step + 1)])
  {
    NoneDated(heard.step + 1);
  }

  lemma OnlyResultsTell(before: State, line: Line)
    requires Steady(before) && OnlyResults(line.event)
    ensures Follows(before, HandleUser(Stepped(before), line), line)
  {
    hide Content, Plus, ApplyToolResults, Adds, Record;
    var st := Stepped(before);
    ResultsTell(st, line.event.toolResults, line);
    var ready := ApplyToolResults(st, line.event.toolResults, line);
    MarkTells(ready, ToolResultSeen, line);
    UserAdds(HeardBy(before), line);
    SameContent(before);
    MarkedTells(Content(before), Implied(st),
                Checkpoint(ToolResultSeen, ready.roundIndex, line.byteOffset, line.lineNo, st.stepIndex), Adds(HeardBy(before), line));
  }

  lemma SameContent(before: State)
    ensures Content(Stepped(before)) == Content(before)
  {
  }

  lemma OpeningTells(before: State, line: Line)
    requires Steady(before) && line.event.User? && !OnlyResults(line.event)
    ensures Follows(before, HandleUser(Stepped(before), line), line)
  {
    hide Content, Plus, ApplyToolResults, Adds, Record, OpenRound, PushCurrent, OpenedBy;
    var st, results := Stepped(before), line.event.toolResults;
    OpenTells(st, line);
    var started := OpenRound(PushCurrent(st), line);
    ResultsTell(started, results, line);
    PlusNothing(Content(started));
    UserAdds(HeardBy(before), line);
    SameContent(before);
    if results != [] {
      var ready := ApplyToolResults(started, results, line);
      MarkTells(ready, ToolResultSeen, line);
      MarkedTells(Content(before), WithHead(OpenedBy(line, st.stepIndex, HeardBy(before).boundary)),
                  Checkpoint(ToolResultSeen, ready.roundIndex, line.byteOffset, line.lineNo, st.stepIndex), Adds(HeardBy(before), line));
    }
  }

  lemma {:induction false} UsesTell(st: State, uses: seq<ToolUse>)
    requires Steady(st) && st.current.Some?
    ensures Content(AddUses(st, uses)) == Content(st) && StillOpen(st, AddUses(st, uses))
    decreases |uses|
  {
    hide Content, Plus;
    if uses != [] {
      var round := st.current.value.round;
      var more := round.(toolCalls := round.toolCalls + [At(st.stepIndex, Call(uses[0].name, uses[0].args, "", ""))]);
      PlusNothing(ToldBy(round));
      PlusNothing(Content(st));
      EditTells(st, more, NOTHING);
      SameRounds(AddUse(st, uses[0]), Edit(st, more));
      UsesTell(AddUse(st, uses[0]), uses[1..]);
    }
  }

  lemma SameRounds(a: State, b: State)
    requires a.rounds == b.rounds && a.current == b.current && a.checkpoints == b.checkpoints
    ensures Content(a) == Content(b)
  {
  }

  lemma ResponseTells(st: State, event: Event)
    requires Steady(st) && st.current.Some? && event.Assistant? && !OnlyThinking(event)
    ensures var next := Respond(st, event);
            && Content(next) == Plus(Content(st), NOTHING.(responses := Answers(event, st.stepIndex, st.pendingThinking)))
            && Steady(next) && next.current.Some? && HeardBy(next) == HeardBy(st).(waiting := [])
  {
    hide Content;
    var round := st.current.value.round;
    var thoughts := st.pendingThinking + Thoughts(event.thinking, st.stepIndex);
    assert Thoughts(event.thinking, st.stepIndex) == OwnThoughts(event, st.stepIndex);
    var own := Answers(event, st.stepIndex, st.pendingThinking);
    SameCalls(event);
    PlusNothing(Content(st));
    if own != [] {
      EditTells(st, round.(responses := round.responses + own), NOTHING.(responses := own));
      SameRounds(Respond(st, event), Edit(st, round.(responses := round.responses + own)));
    }
  }

  lemma SameCalls(event: Event)
    requires event.Assistant?
    ensures NamesAndArgs(event.toolUses) == seq(|event.toolUses|, i requires 0 <= i < |event.toolUses| => (event.toolUses[i].name, event.toolUses[i].args))
    ensures Names(event.toolUses) == seq(|event.toolUses|, i requires 0 <= i < |event.toolUses| => event.toolUses[i].name)
    ensures event.toolUses == [] ==> NamesAndArgs(event.toolUses) == []
  {
  }

  lemma SemanticTells(st: State, event: Event)
    requires Steady(st) && st.current.Some? && event.Assistant?
    ensures var next := AddSemantic(st, event);
            && Content(next) == Plus(Content(st), NOTHING.(semantics := if event.attachments == [] then []
                                     else [At(st.stepIndex, Semantic(event.text, Dated(event.attachments, st.stepIndex)))]))
            && Steady(next) && next.current.Some? && HeardBy(next) == HeardBy(st)
  {
    hide Content;
    PlusNothing(Content(st));
    SameDated(event.attachments, st.stepIndex);
    if event.attachments != [] {
      var round := st.current.value.round;
      var own := [At(st.stepIndex, Semantic(event.text, Dated(event.attachments, st.stepIndex)))];
      EditTells(st, round.(semanticEvents := round.semanticEvents + own), NOTHING.(semantics := own));
    }
  }

  lemma ViewTells(st: State, view: string)
    requires Steady(st)
    ensures var next := AddView(st, view);
            && Content(next) == Plus(Content(st), NOTHING.(views := if st.current.Some? then Dated([view], st.stepIndex) else []))
            && Steady(next) && HeardBy(next) == HeardBy(st)
  {
    hide Content;
    PlusNothing(Content(st));
    if st.current.Some? {
      var round := st.current.value.round;
      var own := Dated([view], st.stepIndex);
      assert own == [At(st.stepIndex, view)];
      EditTells(st, round.(fileViews := round.fileViews + own), NOTHING.(views := own));
    }
  }

  /** Heads, marks, responses and the rest, one after the other. */
  lemma PartsTell(before: Told, heads: seq<Head>, marks: seq<Checkpoint>, responses: seq<At<Response>>, semantics: seq<At<Semantic>>)
    ensures Plus(Plus(Plus(Plus(before, NOTHING.(heads := heads)), NOTHING.(marks := marks)), NOTHING.(responses := responses)),
                 NOTHING.(semantics := semantics))
         == Plus(before, Told(heads, responses, [], semantics, marks))
  {
  }

  lemma MarksOnly(before: Told, heads: seq<Head>, marks: seq<Checkpoint>)
    ensures Plus(Plus(before, NOTHING.(heads := heads)), NOTHING.(marks := marks)) == Plus(before, Told(heads, [], [], [], marks))
  {
  }

  lemma ThinkingTells(before: State, line: Line)
    requires Steady(before) && OnlyThinking(line.event)
    ensures Follows(before, HandleAssistant(Stepped(before), line), line)
  {
    hide Content, Plus, EnsureRound, Record;
    var st := Stepped(before);
    EnsureTells(st, line);
    SameContent(before);
    var ready := EnsureRound(st, line);
    var thought := ready.(pendingThinking := ready.pendingThinking + Thoughts(line.event.thinking, ready.stepIndex));
    assert Thoughts(line.event.thinking, ready.stepIndex) == OwnThoughts(line.event, ready.stepIndex);
    SameRounds(thought, ready);
    MarkTells(thought, Thinking, line);
    NoneDated(st.stepIndex);
    MarksOnly(Content(before), Implied(st).heads,
              [Checkpoint(Thinking, thought.roundIndex, line.byteOffset, line.lineNo, st.stepIndex)]);
  }

  lemma UsesNoted(ready: State, line: Line)
    requires Steady(ready) && ready.current.Some? && line.event.Assistant?
    ensures var used := AddUses(ready, line.event.toolUses);
            var noted := if line.event.toolUses != [] then Record(used, ToolCall, line) else used;
            var marks := if line.event.toolUses == [] then []
                         else [Checkpoint(ToolCall, ready.roundIndex, line.byteOffset, line.lineNo, ready.stepIndex)];
            && Content(noted) == Plus(Content(ready), NOTHING.(marks := marks)) && StillOpen(ready, noted)
  {
    hide Content, Plus, AddUses, Record;
    UsesTell(ready, line.event.toolUses);
    PlusNothing(Content(ready));
    if line.event.toolUses != [] {
      MarkTells(AddUses(ready, line.event.toolUses), ToolCall, line);
    }
  }

  lemma SpeakingTells(before: State, line: Line)
    requires Steady(before) && line.event.Assistant? && !OnlyThinking(line.event)
    ensures Follows(before, HandleAssistant(Stepped(before), line), line)
  {
    hide Content, Plus, EnsureRound, Record, AddUses, Respond, AddSemantic, Answers, Adds;
    var st, event := Stepped(before), line.event;
    EnsureTells(st, line);
    SameContent(before);
    var ready := EnsureRound(st, line);
    UsesNoted(ready, line);
    var used := AddUses(ready, event.toolUses);
    var noted := if event.toolUses != [] then Record(used, ToolCall, line) else used;
    ResponseTells(noted, event);
    SemanticTells(Respond(noted, event), event);
    var marks := if event.toolUses == [] then []
                 else [Checkpoint(ToolCall, ready.roundIndex, line.byteOffset, line.lineNo, ready.stepIndex)];
    var semantics := if event.attachments == [] then []
                     else [At(st.stepIndex, Semantic(event.text, Dated(event.attachments, st.stepIndex)))];
    var responses := Answers(event, st.stepIndex, st.pendingThinking);
    PartsTell(Content(before), Implied(st).heads, marks, responses, semantics);
    SpeakingAdds(HeardBy(before), line, Implied(st).heads, marks, responses, semantics);
  }

  lemma SpeakingAdds(heard: Heard, line: Line, heads: seq<Head>, marks: seq<Checkpoint>, responses: seq<At<Response>>, semantics: seq<At<Semantic>>)
    requires line.event.Assistant? && !OnlyThinking(line.event) && heard.rounds >= 0
    requires var event, step := line.event, heard.step + 1;
             && heads == (if heard.rounds == 0 then [Head(step, NoMessage, [], [], None)] else [])
             && marks == (if event.toolUses == [] then []
                          else [Checkpoint(ToolCall, heard.rounds + |heads|, line.byteOffset, line.lineNo, step)])
             && responses == Answers(event, step, heard.waiting)
             && semantics == if event.attachments == [] then []
                             else [At(step, Semantic(event.text, Dated(event.attachments, step)))]
    ensures Adds(heard, line) == Told(heads, responses, [], semantics, marks)
  {
    hide Answers;
    NoneDated(heard.step + 1);
  }

  lemma ViewedTells(before: State, st: State, view: string, line: Line)
    requires Steady(before) && st == Stepped(before)
    requires line.event == System(view) || line.event == AttachmentLine(false, view)
    ensures Follows(before, AddView(st, view), line)
  {
    hide Content, Plus, AddView;
    ViewTells(st, view);
    SameContent(before);
    assert Shown(line.event) == [view];
  }

  lemma BoundaryTells(before: State, line: Line)
    requires Steady(before) && line.event.CompactBoundary?
    ensures Follows(before, HandleLine(before, line), line)
  {
    hide Content, AddView, Record;
    var event, st := line.event, Stepped(before);
    var next := st.(pending := Some(Pending(Boundary(event.uuid, event.metadata, line.lineNo, line.byteOffset), st.stepIndex)));
    SameRounds(next, before);
    PlusNothing(Content(before));
    if next.current.Some? {
      MarkTells(next, BoundarySeen, line);
    } else {
      NoRecord(next, line);
    }
    ViewTells(Record(next, BoundarySeen, line), event.view);
  }

  lemma NoRecord(st: State, line: Line)
    requires st.current.None?
    ensures Record(st, BoundarySeen, line) == st
  {
  }

  lemma SilentTells(before: State, line: Line)
    requires Steady(before)
    requires line.event.Unreadable? || line.event.Other? || (line.event.AttachmentLine? && line.event.unlisted)
    ensures Follows(before, HandleLine(before, line), line)
  {
    hide Content;
    SameContent(before);
    PlusNothing(Content(before));
    NoneDated(before.stepIndex + 1);
  }

  /** Every line tells what the walk says. */
  lemma LineTells(before: State, line: Line)
    requires Steady(before)
    ensures Follows(before, HandleLine(before, line), line)
  {
    hide Content, Plus, Follows, AddView, HandleUser, HandleAssistant, Steady;
    match line.event
    case User(_, _, _, _, _, _, _, _, _) =>
      if OnlyResults(line.event) { OnlyResultsTell(before, line); } else { OpeningTells(before, line); }
    case Assistant(_, _, _, _) =>
      if OnlyThinking(line.event) { ThinkingTells(before, line); } else { SpeakingTells(before, line); }
    case CompactBoundary(_, _, _) => BoundaryTells(before, line);
    case System(view) => ViewedTells(before, Stepped(before), view, line);
    case AttachmentLine(unlisted, view) =>
      if unlisted { SilentTells(before, line); } else { ViewedTells(before, Stepped(before), view, line); }
    case _ => SilentTells(before, line);
  }

  lemma {:induction false} RunTells(st: State, lines: seq<Line>)
    requires Steady(st)
    ensures Content(Run(st, lines)) == Plus(Content(st), Tells(HeardBy(st), lines)) && Steady(Run(st, lines))
    decreases |lines|
  {
    hide Content, Plus, Steady, HandleLine, Adds, Hears;
    if lines == [] {
      PlusNothing(Content(st));
    } else {
      LineTells(st, lines[0]);
      var next := HandleLine(st, lines[0]);
      RunTells(next, lines[1..]);
      PlusAssociates(Content(st), Adds(HeardBy(st), lines[0]), Tells(HeardBy(next), lines[1..]));
    }
  }

  /** A build holds exactly what its lines tell, in line order: the opening messages with their attachments, annotations and
      compactions, the responses, the views, the assistant's attachments, and a checkpoint for every line that has one. */
  lemma BuildTellsItsLines(lines: seq<Line>)
    ensures var built := PushCurrent(Run(INITIAL, lines));
            ToldByAll(built.rounds).(marks := Marks(built.checkpoints)) == Tells(SILENT, lines)
  {
    hide Run, Tells, ToldByAll, Marks, Plus;
    RunTells(INITIAL, lines);
    PushTells(Run(INITIAL, lines));
    NothingYet();
    PlusNothing(Tells(SILENT, lines));
  }

  lemma NothingYet()
    ensures Content(INITIAL) == NOTHING && Steady(INITIAL) && HeardBy(INITIAL) == SILENT
  {
    assert AllRounds(INITIAL) == [];
  }

  // ---- What that means, collection by collection -------------------------------------------------------

  /** What the responses say, but for those that say nothing. */
  function Spoken(responses: seq<At<Response>>): seq<Said> {
    if responses == [] then []
    else (if responses[0].body.said == Silence then [] else [responses[0].body.said]) + Spoken(responses[1..])
  }

  /** The texts of the assistant lines, and the tool names of those that have no text. */
  function SaidBy(lines: seq<Line>): seq<Said> {
    if lines == [] then []
    else
      var event := lines[0].event;
      (if event.Assistant? && event.text != "" then [Text(event.text)]
       else if event.Assistant? && event.toolUses != [] then [Called(ToolNames(event.toolUses))]
       else []) + SaidBy(lines[1..])
  }

  function ToolNames(uses: seq<ToolUse>): seq<string> {
    if uses == [] then [] else [uses[0].name] + ToolNames(uses[1..])
  }

  function Thought(responses: seq<At<Response>>): seq<Rounds.Thought> {
    if responses == [] then [] else responses[0].body.thinking + Thought(responses[1..])
  }

  /** All thinking of the lines; a sealed part names the number of its line. */
  function ThoughtBy(lines: seq<Line>, step: int): seq<Rounds.Thought> {
    if lines == [] then []
    else (if lines[0].event.Assistant? then OwnThoughts(lines[0].event, step + 1) else []) + ThoughtBy(lines[1..], step + 1)
  }

  /** The thinking behind the last line that answers. */
  function ThoughtSince(lines: seq<Line>, step: int, waiting: seq<Rounds.Thought>): seq<Rounds.Thought>
    decreases |lines|
  {
    if lines == [] then waiting
    else if OnlyThinking(lines[0].event) then ThoughtSince(lines[1..], step + 1, waiting + OwnThoughts(lines[0].event, step + 1))
    else ThoughtSince(lines[1..], step + 1, if lines[0].event.Assistant? then [] else waiting)
  }

  function HeadText(head: Head): string {
    match head.message
    case NoMessage => ""
    case Typed(text) => text
    case Folded(info) => info.text
  }

  function Opened(heads: seq<Head>): seq<string> {
    if heads == [] then [] else (if HeadText(heads[0]) == "" then [] else [HeadText(heads[0])]) + Opened(heads[1..])
  }

  /** The texts of the user lines. */
  function TypedBy(lines: seq<Line>): seq<string> {
    if lines == [] then []
    else (if lines[0].event.User? && lines[0].event.text != "" then [lines[0].event.text] else []) + TypedBy(lines[1..])
  }

  function Sent(semantics: seq<At<Semantic>>): seq<At<string>> {
    if semantics == [] then [] else semantics[0].body.attachments + Sent(semantics[1..])
  }

  /** The attachments of the assistant lines that do more than think. */
  function SentBy(lines: seq<Line>, step: int): seq<At<string>> {
    if lines == [] then []
    else (if lines[0].event.Assistant? && !OnlyThinking(lines[0].event) then Dated(lines[0].event.attachments, step + 1) else [])
         + SentBy(lines[1..], step + 1)
  }

  lemma NamesAre(uses: seq<ToolUse>)
    ensures ToolNames(uses) == seq(|uses|, i requires 0 <= i < |uses| => uses[i].name)
  {
    if uses != [] {
      NamesAre(uses[1..]);
    }
  }

  lemma Front<T>(own: seq<T>, rest: seq<T>)
    ensures own == [] ==> own + rest == rest
    ensures |own| == 1 ==> (own + rest)[0] == own[0] && (own + rest)[1..] == rest
  {
  }

  lemma {:induction false} SpokenAreTheTexts(heard: Heard, lines: seq<Line>)
    ensures Spoken(Tells(heard, lines).responses) == SaidBy(lines)
    decreases |lines|
  {
    if lines != [] {
      hide OpenedBy, OpensRound, Hears, MarkKind, Shown, OwnThoughts;
      var own, rest := Adds(heard, lines[0]).responses, Tells(Hears(heard, lines[0]), lines[1..]).responses;
      SpokenAreTheTexts(Hears(heard, lines[0]), lines[1..]);
      Front(own, rest);
      if lines[0].event.Assistant? { NamesAre(lines[0].event.toolUses); }
    }
  }

  lemma LineThinks(heard: Heard, line: Line)
    ensures Thought(Adds(heard, line).responses) + Hears(heard, line).waiting
         == heard.waiting + if line.event.Assistant? then OwnThoughts(line.event, heard.step + 1) else []
    ensures |Adds(heard, line).responses| <= 1
  {
    hide OpenedBy, OpensRound, MarkKind, Shown, OwnThoughts;
    var own := Adds(heard, line).responses;
    if own != [] { assert own[1..] == []; }
  }

  lemma ThoughtTwice(own: seq<At<Response>>, rest: seq<At<Response>>)
    requires |own| <= 1
    ensures Thought(own + rest) == Thought(own) + Thought(rest)
  {
    Front(own, rest);
    if own != [] { assert own[1..] == []; }
  }

  lemma {:induction false} ThoughtsAreTheLines(heard: Heard, lines: seq<Line>)
    ensures Thought(Tells(heard, lines).responses) + ThoughtSince(lines, heard.step, heard.waiting)
         == heard.waiting + ThoughtBy(lines, heard.step)
    decreases |lines|
  {
    if lines != [] {
      hide Adds, Hears, Thought, OwnThoughts;
      var own, next := Adds(heard, lines[0]), Hears(heard, lines[0]);
      LineThinks(heard, lines[0]);
      WaitsFor(heard, lines[0]);
      var later := Tells(next, lines[1..]);
      ThoughtsAreTheLines(next, lines[1..]);
      ThoughtTwice(own.responses, later.responses);
      Regroup(Thought(own.responses), Thought(later.responses), ThoughtSince(lines[1..], next.step, next.waiting),
              next.waiting, ThoughtBy(lines[1..], next.step), heard.waiting,
              if lines[0].event.Assistant? then OwnThoughts(lines[0].event, heard.step + 1) else []);
    }
  }

  lemma WaitsFor(heard: Heard, line: Line)
    ensures Hears(heard, line).step == heard.step + 1
    ensures Hears(heard, line).waiting
         == if OnlyThinking(line.event) then heard.waiting + OwnThoughts(line.event, heard.step + 1)
            else if line.event.Assistant? then [] else heard.waiting
  {
  }

  lemma Regroup<T>(a: seq<T>, b: seq<T>, since: seq<T>, waiting: seq<T>, later: seq<T>, before: seq<T>, own: seq<T>)
    requires a + waiting == before + own && b + since == waiting + later
    ensures a + b + since == before + (own + later)
  {
    assert a + b + since == a + (b + since) == (a + waiting) + later == before + (own + later);
  }

  lemma {:induction false} HeadsAreTheMessages(heard: Heard, lines: seq<Line>)
    ensures Opened(Tells(heard, lines).heads) == TypedBy(lines)
    decreases |lines|
  {
    if lines != [] {
      hide Answers, MarkKind, Shown, Summarises;
      var own, next := Adds(heard, lines[0]).heads, Hears(heard, lines[0]);
      HeadsAreTheMessages(next, lines[1..]);
      Front(own, Tells(next, lines[1..]).heads);
    }
  }

  lemma LineSends(heard: Heard, line: Line)
    ensures |Adds(heard, line).semantics| <= 1
    ensures Sent(Adds(heard, line).semantics)
         == if line.event.Assistant? && !OnlyThinking(line.event) then Dated(line.event.attachments, heard.step + 1) else []
  {
    hide Answers, MarkKind, Shown, OpenedBy, OpensRound;
    NoneDated(heard.step + 1);
    var own := Adds(heard, line).semantics;
    if own != [] { assert own[1..] == []; }
  }

  lemma SentTwice(own: seq<At<Semantic>>, rest: seq<At<Semantic>>)
    requires |own| <= 1
    ensures Sent(own + rest) == Sent(own) + Sent(rest)
  {
    Front(own, rest);
    if own != [] { assert own[1..] == []; }
  }

  lemma {:induction false} SemanticsAreTheAttachments(heard: Heard, lines: seq<Line>)
    ensures Sent(Tells(heard, lines).semantics) == SentBy(lines, heard.step)
    decreases |lines|
  {
    if lines != [] {
      hide Adds, Hears, Sent, Dated;
      var own, next := Adds(heard, lines[0]).semantics, Hears(heard, lines[0]);
      LineSends(heard, lines[0]);
      WaitsFor(heard, lines[0]);
      SemanticsAreTheAttachments(next, lines[1..]);
      SentTwice(own, Tells(next, lines[1..]).semantics);
    }
  }

  /** Nothing said is lost or invented: the responses of all rounds in order say the texts of the assistant lines, and the tool
      names of those without text; they think all the thinking up to the last line that answers; the rounds open with the
      texts of the user lines; and the attachments are those of the assistant lines. */
  lemma BuildSpeaksItsLines(lines: seq<Line>)
    ensures var told := ToldByAll(PushCurrent(Run(INITIAL, lines)).rounds);
            && Spoken(told.responses) == SaidBy(lines)
            && Thought(told.responses) + ThoughtSince(lines, 0, []) == ThoughtBy(lines, 0)
            && Opened(told.heads) == TypedBy(lines)
            && Sent(told.semantics) == SentBy(lines, 0)
  {
    hide Run, Tells, ToldByAll, PushCurrent, Marks;
    BuildTellsItsLines(lines);
    SpokenAreTheTexts(SILENT, lines);
    ThoughtsAreTheLines(SILENT, lines);
    HeadsAreTheMessages(SILENT, lines);
    SemanticsAreTheAttachments(SILENT, lines);
    assert [] + ThoughtBy(lines, 0) == ThoughtBy(lines, 0);
  }
}
