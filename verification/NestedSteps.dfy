/** Which lines put a step below the step collections of a round, where a shallow rebase does not reach. */
module NestedSteps {
  import opened Basics
  import opened Rounds

  // ---- On the rounds -------------------------------------------------------------------------------

  /** Nothing in the round carries a step below its step collections. */
  predicate Clean(r: Round) {
    && (forall i, j | 0 <= i < |r.responses| && 0 <= j < |r.responses[i].body.thinking| :: r.responses[i].body.thinking[j].Words?)
    && forall i | 0 <= i < |r.semanticEvents| :: r.semanticEvents[i].body.attachments == []
  }

  predicate AllClean(rs: seq<Round>) {
    forall i | 0 <= i < |rs| :: Clean(rs[i])
  }

  predicate StateClean(st: State) {
    AllClean(st.rounds) && (st.current.Some? ==> Clean(st.current.value.round))
  }

  predicate HasSeal(ts: seq<Thought>) {
    exists j :: 0 <= j < |ts| && ts[j].SealedAt?
  }

  // ---- On the lines --------------------------------------------------------------------------------

  predicate HasSealedPart(parts: seq<ThinkingPart>) {
    exists j :: 0 <= j < |parts| && parts[j].Sealed?
  }

  /** An assistant line that only thinks: its thinking waits for the next assistant line that says or does something. */
  predicate OnlyThinks(event: Event) {
    event.Assistant? && event.thinking != [] && event.text == "" && event.toolUses == []
  }

  /** An assistant line that does more than think, with an attachment or a sealed thinking part of its own, or with a
      sealed part still waiting. */
  predicate LineCarries(event: Event, sealed: bool) {
    event.Assistant? && !OnlyThinks(event) && (sealed || HasSealedPart(event.thinking) || event.attachments != [])
  }

  /** Whether a sealed thinking part waits after the line. */
  predicate SealWaits(event: Event, sealed: bool) {
    if OnlyThinks(event) then sealed || HasSealedPart(event.thinking)
    else sealed && !event.Assistant?
  }

  /** One of the lines carries a step; `sealed` says that a sealed thinking part waits before the first. */
  predicate Carries(lines: seq<Line>, sealed: bool)
    decreases |lines|
  {
    lines != [] && (LineCarries(lines[0].event, sealed) || Carries(lines[1..], SealWaits(lines[0].event, sealed)))
  }

  // ---- The two agree -------------------------------------------------------------------------------

  lemma SealsOfParts(ts: seq<Thought>, parts: seq<ThinkingPart>, step: int)
    ensures HasSeal(ts + Thoughts(parts, step)) <==> HasSeal(ts) || HasSealedPart(parts)
  {
    var both := ts + Thoughts(parts, step);
    if HasSeal(ts) {
      var j :| 0 <= j < |ts| && ts[j].SealedAt?;
      assert both[j].SealedAt?;
    }
    if HasSealedPart(parts) {
      var j :| 0 <= j < |parts| && parts[j].Sealed?;
      assert both[|ts| + j].SealedAt?;
    }
  }

  lemma CleanWithResponse(round: Round, response: At<Response>)
    ensures Clean(round.(responses := round.responses + [response])) <==> Clean(round) && !HasSeal(response.body.thinking)
  {
    var more := round.(responses := round.responses + [response]);
    if Clean(more) {
      forall i, j | 0 <= i < |round.responses| && 0 <= j < |round.responses[i].body.thinking|
        ensures round.responses[i].body.thinking[j].Words?
      {
        assert more.responses[i] == round.responses[i];
      }
      assert more.responses[|round.responses|] == response;
    }
  }

  lemma CleanWithSemantic(round: Round, semantic: At<Semantic>)
    ensures Clean(round.(semanticEvents := round.semanticEvents + [semantic])) <==> Clean(round) && semantic.body.attachments == []
  {
    var more := round.(semanticEvents := round.semanticEvents + [semantic]);
    if Clean(more) {
      forall i | 0 <= i < |round.semanticEvents| ensures round.semanticEvents[i].body.attachments == [] {
        assert more.semanticEvents[i] == round.semanticEvents[i];
      }
      assert more.semanticEvents[|round.semanticEvents|] == semantic;
    }
  }

  lemma CleanPushed(st: State)
    ensures StateClean(PushCurrent(st)) <==> StateClean(st)
    ensures AllClean(PushCurrent(st).rounds) <==> StateClean(st)
  {
    if st.current.Some? {
      var last := st.current.value.round.(endStep := st.stepIndex);
      var pushed := PushCurrent(st).rounds;
      assert pushed == st.rounds + [last];
      if AllClean(pushed) {
        forall i | 0 <= i < |st.rounds| ensures Clean(st.rounds[i]) { assert pushed[i] == st.rounds[i]; }
        assert Clean(pushed[|st.rounds|]);
      }
    }
  }

  lemma CleanAnswered(st: State, slot: Slot, r: ToolResult)
    ensures StateClean(Answer(st, slot, r)) <==> StateClean(st)
    ensures Answer(st, slot, r).pendingThinking == st.pendingThinking
  {
    var next := Answer(st, slot, r);
    if next.rounds != st.rounds {
      var k := slot.round - 1;
      assert Clean(next.rounds[k]) <==> Clean(st.rounds[k]);
      forall i | 0 <= i < |st.rounds| && i != k ensures next.rounds[i] == st.rounds[i] {}
    }
  }

  lemma {:induction false} CleanWithResults(st: State, results: seq<ToolResult>, line: Line)
    ensures var next := ApplyToolResults(st, results, line);
            (StateClean(next) <==> StateClean(st)) && next.pendingThinking == st.pendingThinking
    decreases |results|
  {
    hide StateClean, Answer;
    if results != [] {
      CleanWithOne(st, results[0], line);
      CleanWithResults(ApplyToolResult(st, results[0], line), results[1..], line);
    }
  }

  lemma CleanWithOne(st: State, r: ToolResult, line: Line)
    ensures var next := ApplyToolResult(st, r, line);
            (StateClean(next) <==> StateClean(st)) && next.pendingThinking == st.pendingThinking
  {
    hide Answer, AllClean;
    if r.useId != "" && r.useId in st.toolCalls {
      CleanAnswered(st, st.toolCalls[r.useId], r);
    }
  }

  lemma CleanUser(st: State, line: Line)
    requires line.event.User?
    ensures var next := HandleUser(st, line);
            (StateClean(next) <==> StateClean(st)) && next.pendingThinking == st.pendingThinking
  {
    hide ApplyToolResults, AllClean;
    CleanPushed(st);
    CleanWithResults(st, line.event.toolResults, line);
    CleanWithResults(OpenRound(PushCurrent(st), line), line.event.toolResults, line);
  }

  lemma {:induction false} CleanWithUses(st: State, uses: seq<ToolUse>)
    requires st.current.Some?
    ensures var next := AddUses(st, uses);
            (StateClean(next) <==> StateClean(st)) && next.pendingThinking == st.pendingThinking && next.stepIndex == st.stepIndex
    decreases |uses|
  {
    hide AllClean;
    if uses != [] {
      CleanWithUses(AddUse(st, uses[0]), uses[1..]);
    }
  }

  lemma CleanResponded(st: State, event: Event)
    requires event.Assistant? && !OnlyThinks(event) && st.current.Some?
    ensures var next := AddSemantic(Respond(st, event), event);
            && (StateClean(next) <==> StateClean(st) && !LineCarries(event, HasSeal(st.pendingThinking)))
            && !HasSeal(next.pendingThinking)
  {
    hide AllClean;
    var thinking := st.pendingThinking + Thoughts(event.thinking, st.stepIndex);
    SealsOfParts(st.pendingThinking, event.thinking, st.stepIndex);
    var answered := Respond(st, event);
    if answered != st {
      var responses := answered.current.value.round.responses;
      CleanWithResponse(st.current.value.round, responses[|responses| - 1]);
    }
    if event.attachments != [] {
      CleanWithSemantic(answered.current.value.round,
                        At(answered.stepIndex, Semantic(event.text, Attached(event.attachments, answered.stepIndex))));
    }
  }

  /** What one line does to the steps that the rounds carry. */
  lemma LineNests(st: State, line: Line)
    ensures var next, sealed := HandleLine(st, line), HasSeal(st.pendingThinking);
            && (StateClean(next) <==> StateClean(st) && !LineCarries(line.event, sealed))
            && HasSeal(next.pendingThinking) == SealWaits(line.event, sealed)
  {
    hide AllClean, HandleUser, AddUses, HasSeal, HasSealedPart, Respond, AddSemantic;
    var stepped := st.(stepIndex := st.stepIndex + 1);
    match line.event
    case User(_, _, _, _, _, _, _, _, _) => CleanUser(stepped, line);
    case Assistant(_, thinking, uses, _) =>
      var ready := EnsureRound(stepped, line);
      SealsOfParts(ready.pendingThinking, thinking, ready.stepIndex);
      if !OnlyThinks(line.event) {
        CleanWithUses(ready, uses);
        var used := AddUses(ready, uses);
        CleanResponded(if uses != [] then Record(used, ToolCall, line) else used, line.event);
      }
    case _ =>
  }

  lemma {:induction false} RunNests(st: State, lines: seq<Line>)
    ensures StateClean(Run(st, lines)) <==> StateClean(st) && !Carries(lines, HasSeal(st.pendingThinking))
    decreases |lines|
  {
    hide HandleLine, StateClean, HasSeal, LineCarries, SealWaits;
    if lines != [] {
      LineNests(st, lines[0]);
      RunNests(HandleLine(st, lines[0]), lines[1..]);
    }
  }

  /** A build carries a step below its step collections exactly when one of its lines does: when an assistant line that
      does more than think has attachments, or a sealed thinking part on itself or waiting from the lines that only think. */
  lemma BuildsAreCleanIffNoLineCarries(lines: seq<Line>)
    ensures AllClean(PushCurrent(Run(INITIAL, lines)).rounds) <==> !Carries(lines, false)
  {
    hide Run, Carries;
    RunNests(INITIAL, lines);
    CleanPushed(Run(INITIAL, lines));
  }
}
