/** Replaying the rounds builder from a checkpoint instead of rebuilding everything. */
module RoundsReplay {
  import opened Basics
  import opened Rounds

  // ---- Moving a replayed tail to its place: every index and every step, wherever it is written --------

  function Moved<T>(xs: seq<At<T>>, d: int): seq<At<T>> {
    seq(|xs|, i requires 0 <= i < |xs| => At(xs[i].stepIndex + d, xs[i].body))
  }

  function MovedThoughts(ts: seq<Thought>, d: int): seq<Thought> {
    seq(|ts|, i requires 0 <= i < |ts| => if ts[i].SealedAt? then SealedAt(ts[i].step + d) else ts[i])
  }

  function MovedResponses(xs: seq<At<Response>>, d: int): seq<At<Response>> {
    seq(|xs|, i requires 0 <= i < |xs| =>
      At(xs[i].stepIndex + d, xs[i].body.(thinking := MovedThoughts(xs[i].body.thinking, d))))
  }

  function MovedSemantics(xs: seq<At<Semantic>>, d: int): seq<At<Semantic>> {
    seq(|xs|, i requires 0 <= i < |xs| =>
      At(xs[i].stepIndex + d, xs[i].body.(attachments := Moved(xs[i].body.attachments, d))))
  }

  function MovedRound(r: Round, k: int, d: int): Round {
    Round(r.roundIndex + k, r.startStep + d, r.endStep + d, r.userMessage, Moved(r.attachments, d),
          MovedResponses(r.responses, d), Moved(r.toolCalls, d), Moved(r.fileViews, d), r.compaction,
          Moved(r.userMessages, d), MovedSemantics(r.semanticEvents, d))
  }

  function MovedRounds(rs: seq<Round>, k: int, d: int): seq<Round> {
    seq(|rs|, i requires 0 <= i < |rs| => MovedRound(rs[i], k, d))
  }

  function MovedOpen(open: Option<Open>, k: int, d: int): Option<Open> {
    match open
    case None => None
    case Some(o) => Some(Open(MovedRound(o.round, k, d), o.replay.(stepIndex := o.replay.stepIndex + d)))
  }

  function MovedPending(pending: Option<Pending>, d: int): Option<Pending> {
    match pending
    case None => None
    case Some(p) => Some(p.(stepIndex := p.stepIndex + d))
  }

  function MovedCheckpoints(cs: seq<Checkpoint>, k: int, d: int): seq<Checkpoint> {
    seq(|cs|, i requires 0 <= i < |cs| =>
      cs[i].(roundIndex := cs[i].roundIndex + k, sourceStepIndex := cs[i].sourceStepIndex + d))
  }

  // ---- The simulation ------------------------------------------------------------------------------

  /** A full build `f` and a replay `r` that started behind `|kept|` rounds and `d` steps. */
  ghost predicate Sim(f: State, r: State, kept: seq<Round>, oldCheckpoints: seq<Checkpoint>, d: int) {
    var k := |kept|;
    && f.rounds == kept + MovedRounds(r.rounds, k, d)
    && f.current == MovedOpen(r.current, k, d)
    && f.roundIndex == r.roundIndex + k && f.stepIndex == r.stepIndex + d
    && f.pendingThinking == MovedThoughts(r.pendingThinking, d)
    && f.pending == MovedPending(r.pending, d)
    && f.checkpoints == oldCheckpoints + MovedCheckpoints(r.checkpoints, k, d)
    && SimSlots(f.toolCalls, r.toolCalls, k, r.roundIndex)
    && Numbered(r)
  }

  /** Rounds are numbered from one, and the open one comes last. */
  ghost predicate Numbered(r: State) {
    && r.roundIndex == |r.rounds| + (if r.current.Some? then 1 else 0)
    && (r.current.Some? ==> r.current.value.round.roundIndex == r.roundIndex)
  }

  /** The replay knows the same tool uses, except those that were recorded before it started. */
  ghost predicate SimSlots(f: map<string, Slot>, r: map<string, Slot>, k: int, last: int) {
    && (forall id | id in r :: id in f && f[id] == Slot(r[id].round + k, r[id].call) && 1 <= r[id].round <= last)
    && (forall id | id in f && id !in r :: f[id].round <= k)
  }

  /** No result of this line names a tool use of the first `k` rounds. */
  ghost predicate NamesNoneOf(f: map<string, Slot>, event: Event, k: int) {
    event.User? ==> forall t | t in event.toolResults :: t.useId in f ==> f[t.useId].round > k
  }

  lemma MovedAppend<T>(xs: seq<At<T>>, x: At<T>, d: int)
    ensures Moved(xs + [x], d) == Moved(xs, d) + [At(x.stepIndex + d, x.body)]
  {
  }

  lemma ThoughtsMove(parts: seq<ThinkingPart>, step: int, d: int)
    ensures MovedThoughts(Thoughts(parts, step), d) == Thoughts(parts, step + d)
  {
  }

  lemma MovedThoughtsAppend(a: seq<Thought>, b: seq<Thought>, d: int)
    ensures MovedThoughts(a + b, d) == MovedThoughts(a, d) + MovedThoughts(b, d)
  {
  }

  lemma AttachedMove(infos: seq<string>, step: int, d: int)
    ensures Moved(Attached(infos, step), d) == Attached(infos, step + d)
  {
  }

  lemma MovedWithResult(round: Round, call: int, t: ToolResult, k: int, d: int)
    ensures MovedRound(WithResult(round, call, t), k, d) == WithResult(MovedRound(round, k, d), call, t)
  {
    if 0 <= call < |round.toolCalls| {
      var a := MovedRound(WithResult(round, call, t), k, d);
      var b := WithResult(MovedRound(round, k, d), call, t);
      forall i | 0 <= i < |round.toolCalls| ensures a.toolCalls[i] == b.toolCalls[i] {
      }
      assert a.toolCalls == b.toolCalls;
    }
  }

  // ---- Each step of the builder keeps the simulation --------------------------------------------------

  lemma SimRecord(f: State, r: State, kept: seq<Round>, oc: seq<Checkpoint>, d: int, kind: CheckpointKind, line: Line)
    requires Sim(f, r, kept, oc, d)
    ensures Sim(Record(f, kind, line), Record(r, kind, line), kept, oc, d)
  {
    var f', r' := Record(f, kind, line), Record(r, kind, line);
    assert f'.checkpoints == oc + MovedCheckpoints(r'.checkpoints, |kept|, d);
  }

  lemma SimPush(f: State, r: State, kept: seq<Round>, oc: seq<Checkpoint>, d: int)
    requires Sim(f, r, kept, oc, d)
    ensures Sim(PushCurrent(f), PushCurrent(r), kept, oc, d)
  {
    var f', r' := PushCurrent(f), PushCurrent(r);
    assert f'.checkpoints == oc + MovedCheckpoints(r'.checkpoints, |kept|, d);
    assert f'.rounds == kept + MovedRounds(r'.rounds, |kept|, d);
  }

  lemma SimEnsure(f: State, r: State, kept: seq<Round>, oc: seq<Checkpoint>, d: int, line: Line)
    requires Sim(f, r, kept, oc, d)
    ensures Sim(EnsureRound(f, line), EnsureRound(r, line), kept, oc, d)
  {
    if r.current.None? {
      var a := EnsureRound(f, line).current.value.round;
      var b := MovedRound(EnsureRound(r, line).current.value.round, |kept|, d);
      assert a.responses == b.responses && a.attachments == b.attachments && a.toolCalls == b.toolCalls;
      assert a.fileViews == b.fileViews && a.userMessages == b.userMessages && a.semanticEvents == b.semanticEvents;
    }
  }

  /** Writing corresponding versions of the open round. */
  lemma SimEdit(f: State, r: State, kept: seq<Round>, oc: seq<Checkpoint>, d: int, fr: Round, rr: Round)
    requires Sim(f, r, kept, oc, d) && r.current.Some?
    requires fr == MovedRound(rr, |kept|, d) && rr.roundIndex == r.roundIndex
    ensures Sim(Edit(f, fr), Edit(r, rr), kept, oc, d)
  {
  }

  lemma SimAnswer(f: State, r: State, kept: seq<Round>, oc: seq<Checkpoint>, d: int, slot: Slot, t: ToolResult)
    requires Sim(f, r, kept, oc, d) && 1 <= slot.round <= r.roundIndex
    ensures Sim(Answer(f, Slot(slot.round + |kept|, slot.call), t), Answer(r, slot, t), kept, oc, d)
  {
    var k := |kept|;
    if r.current.Some? && r.current.value.round.roundIndex == slot.round {
      MovedWithResult(r.current.value.round, slot.call, t, k, d);
      SimEdit(f, r, kept, oc, d, WithResult(f.current.value.round, slot.call, t), WithResult(r.current.value.round, slot.call, t));
    } else {
      var n := slot.round - 1;
      MovedWithResult(r.rounds[n], slot.call, t, k, d);
      assert f.rounds[n + k] == MovedRound(r.rounds[n], k, d);
      var r' := Answer(r, slot, t);
      assert MovedRounds(r'.rounds, k, d) == MovedRounds(r.rounds, k, d)[n := MovedRound(r'.rounds[n], k, d)];
      assert (kept + MovedRounds(r.rounds, k, d))[n + k := MovedRound(r'.rounds[n], k, d)]
          == kept + MovedRounds(r.rounds, k, d)[n := MovedRound(r'.rounds[n], k, d)];
    }
  }

  /** A call added to a round moves with it. */
  lemma MovedWithCall(round: Round, step: int, call: Call, k: int, d: int)
    ensures MovedRound(round.(toolCalls := round.toolCalls + [At(step, call)]), k, d)
            == MovedRound(round, k, d).(toolCalls := MovedRound(round, k, d).toolCalls + [At(step + d, call)])
  {
    MovedAppend(round.toolCalls, At(step, call), d);
  }

  /** The open rounds correspond. */
  lemma SimOpenRounds(f: State, r: State, kept: seq<Round>, oc: seq<Checkpoint>, d: int)
    requires Sim(f, r, kept, oc, d)
    ensures f.current.Some? <==> r.current.Some?
    ensures r.current.Some? ==> f.current.value.round == MovedRound(r.current.value.round, |kept|, d)
                                && r.current.value.round.roundIndex == r.roundIndex
    ensures f.stepIndex == r.stepIndex + d
  {
    hide MovedRound, MovedRounds;
  }

  /** Where a result goes is the same for both builders. */
  lemma SimKnows(f: State, r: State, kept: seq<Round>, oc: seq<Checkpoint>, d: int, id: string)
    requires Sim(f, r, kept, oc, d) && (id in f.toolCalls ==> f.toolCalls[id].round > |kept|)
    ensures id in f.toolCalls <==> id in r.toolCalls
    ensures id in r.toolCalls ==> f.toolCalls[id] == Slot(r.toolCalls[id].round + |kept|, r.toolCalls[id].call)
                                  && 1 <= r.toolCalls[id].round <= r.roundIndex
  {
    hide MovedRound, MovedRounds;
  }

  lemma SimToolResult(f: State, r: State, kept: seq<Round>, oc: seq<Checkpoint>, d: int, t: ToolResult, line: Line)
    requires Sim(f, r, kept, oc, d) && (t.useId in f.toolCalls ==> f.toolCalls[t.useId].round > |kept|)
    ensures Sim(ApplyToolResult(f, t, line), ApplyToolResult(r, t, line), kept, oc, d)
    ensures ApplyToolResult(f, t, line).toolCalls == f.toolCalls
  {
    hide Sim, MovedRound, MovedRounds;
    SimKnows(f, r, kept, oc, d, t.useId);
    if t.useId != "" && t.useId in r.toolCalls {
      SimAnswer(f, r, kept, oc, d, r.toolCalls[t.useId], t);
    } else {
      SimEnsure(f, r, kept, oc, d, line);
      var f1, r1 := EnsureRound(f, line), EnsureRound(r, line);
      var call := Call("tool_result", t.useId, t.summary, t.full);
      var rr := r1.current.value.round;
      var fr := f1.current.value.round;
      SimOpenRounds(f1, r1, kept, oc, d);
      MovedWithCall(rr, r1.stepIndex, call, |kept|, d);
      SimEdit(f1, r1, kept, oc, d, fr.(toolCalls := fr.toolCalls + [At(f1.stepIndex, call)]),
              rr.(toolCalls := rr.toolCalls + [At(r1.stepIndex, call)]));
    }
  }

  lemma {:induction false} SimToolResults(f: State, r: State, kept: seq<Round>, oc: seq<Checkpoint>, d: int,
                                          ts: seq<ToolResult>, line: Line)
    requires Sim(f, r, kept, oc, d)
    requires forall t | t in ts :: t.useId in f.toolCalls ==> f.toolCalls[t.useId].round > |kept|
    ensures Sim(ApplyToolResults(f, ts, line), ApplyToolResults(r, ts, line), kept, oc, d)
    decreases |ts|
  {
    if ts != [] {
      assert ts[0] in ts && forall t | t in ts[1..] :: t in ts;
      SimToolResult(f, r, kept, oc, d, ts[0], line);
      SimToolResults(ApplyToolResult(f, ts[0], line), ApplyToolResult(r, ts[0], line), kept, oc, d, ts[1..], line);
    }
  }

  lemma SimOpening(line: Line, n: int, step: int, pending: Option<Pending>, k: int, d: int)
    requires line.event.User?
    ensures Some(Opening(line, n + k, step + d, MovedPending(pending, d))) == MovedOpen(Some(Opening(line, n, step, pending)), k, d)
    ensures IsCompactSummary(line.event, MovedPending(pending, d)) == IsCompactSummary(line.event, pending)
  {
    var a := Opening(line, n + k, step + d, MovedPending(pending, d)).round;
    var b := MovedRound(Opening(line, n, step, pending).round, k, d);
    AttachedMove(line.event.attachments, step, d);
    assert a.responses == b.responses && a.toolCalls == b.toolCalls && a.fileViews == b.fileViews;
    assert a.attachments == b.attachments && a.userMessages == b.userMessages && a.semanticEvents == b.semanticEvents;
  }

  lemma SimOpenRound(f: State, r: State, kept: seq<Round>, oc: seq<Checkpoint>, d: int, line: Line)
    requires Sim(f, r, kept, oc, d) && r.current.None? && line.event.User?
    ensures Sim(OpenRound(f, line), OpenRound(r, line), kept, oc, d)
  {
    SimOpening(line, r.roundIndex + 1, r.stepIndex, r.pending, |kept|, d);
  }

  lemma SimUser(f: State, r: State, kept: seq<Round>, oc: seq<Checkpoint>, d: int, line: Line)
    requires Sim(f, r, kept, oc, d) && line.event.User? && NamesNoneOf(f.toolCalls, line.event, |kept|)
    ensures Sim(HandleUser(f, line), HandleUser(r, line), kept, oc, d)
  {
    var ts := line.event.toolResults;
    if OnlyToolResults(line.event) {
      SimToolResults(f, r, kept, oc, d, ts, line);
      SimRecord(ApplyToolResults(f, ts, line), ApplyToolResults(r, ts, line), kept, oc, d, ToolResultSeen, line);
    } else {
      SimPush(f, r, kept, oc, d);
      SimOpenRound(PushCurrent(f), PushCurrent(r), kept, oc, d, line);
      SimFilled(OpenRound(PushCurrent(f), line), OpenRound(PushCurrent(r), line), kept, oc, d, line);
    }
  }

  /** The results that come with the line that opened a round. */
  lemma SimFilled(f: State, r: State, kept: seq<Round>, oc: seq<Checkpoint>, d: int, line: Line)
    requires Sim(f, r, kept, oc, d) && line.event.User? && NamesNoneOf(f.toolCalls, line.event, |kept|)
    ensures var ts := line.event.toolResults;
            var f', r' := ApplyToolResults(f, ts, line), ApplyToolResults(r, ts, line);
            && Sim(f', r', kept, oc, d)
            && Sim(Record(f', ToolResultSeen, line), Record(r', ToolResultSeen, line), kept, oc, d)
  {
    var ts := line.event.toolResults;
    SimToolResults(f, r, kept, oc, d, ts, line);
    SimRecord(ApplyToolResults(f, ts, line), ApplyToolResults(r, ts, line), kept, oc, d, ToolResultSeen, line);
  }

  lemma SimAddUse(f: State, r: State, kept: seq<Round>, oc: seq<Checkpoint>, d: int, use: ToolUse)
    requires Sim(f, r, kept, oc, d) && r.current.Some?
    ensures Sim(AddUse(f, use), AddUse(r, use), kept, oc, d)
  {
    var call := Call(use.name, use.args, "", "");
    var rr, fr := r.current.value.round, f.current.value.round;
    MovedAppend(rr.toolCalls, At(r.stepIndex, call), d);
    SimEdit(f, r, kept, oc, d, fr.(toolCalls := fr.toolCalls + [At(f.stepIndex, call)]),
            rr.(toolCalls := rr.toolCalls + [At(r.stepIndex, call)]));
  }

  lemma {:induction false} SimAddUses(f: State, r: State, kept: seq<Round>, oc: seq<Checkpoint>, d: int, uses: seq<ToolUse>)
    requires Sim(f, r, kept, oc, d) && r.current.Some?
    ensures Sim(AddUses(f, uses), AddUses(r, uses), kept, oc, d)
    decreases |uses|
  {
    if uses != [] {
      SimAddUse(f, r, kept, oc, d, uses[0]);
      SimAddUses(AddUse(f, uses[0]), AddUse(r, uses[0]), kept, oc, d, uses[1..]);
    }
  }

  lemma SimRespond(f: State, r: State, kept: seq<Round>, oc: seq<Checkpoint>, d: int, event: Event)
    requires Sim(f, r, kept, oc, d) && r.current.Some? && event.Assistant?
    ensures Sim(Respond(f, event), Respond(r, event), kept, oc, d)
  {
    var thinking := r.pendingThinking + Thoughts(event.thinking, r.stepIndex);
    var said := if event.text != "" then Text(event.text)
                else if event.toolUses != [] then Called(Names(event.toolUses)) else Silence;
    var item := Response(said, thinking, NamesAndArgs(event.toolUses));
    var moved := item.(thinking := MovedThoughts(thinking, d));
    ThoughtsMove(event.thinking, r.stepIndex, d);
    MovedThoughtsAppend(r.pendingThinking, Thoughts(event.thinking, r.stepIndex), d);
    var rr, fr := r.current.value.round, f.current.value.round;
    assert MovedResponses(rr.responses + [At(r.stepIndex, item)], d)
        == MovedResponses(rr.responses, d) + [At(f.stepIndex, moved)];
    SimEdit(f, r, kept, oc, d, fr.(responses := fr.responses + [At(f.stepIndex, moved)]),
            rr.(responses := rr.responses + [At(r.stepIndex, item)]));
  }

  lemma SimAddSemantic(f: State, r: State, kept: seq<Round>, oc: seq<Checkpoint>, d: int, event: Event)
    requires Sim(f, r, kept, oc, d) && r.current.Some? && event.Assistant?
    ensures Sim(AddSemantic(f, event), AddSemantic(r, event), kept, oc, d)
  {
    var rr, fr := r.current.value.round, f.current.value.round;
    var item := At(r.stepIndex, Semantic(event.text, Attached(event.attachments, r.stepIndex)));
    var moved := At(f.stepIndex, Semantic(event.text, Attached(event.attachments, f.stepIndex)));
    AttachedMove(event.attachments, r.stepIndex, d);
    assert MovedSemantics(rr.semanticEvents + [item], d) == MovedSemantics(rr.semanticEvents, d) + [moved];
    SimEdit(f, r, kept, oc, d, fr.(semanticEvents := fr.semanticEvents + [moved]),
            rr.(semanticEvents := rr.semanticEvents + [item]));
  }

  lemma SimAssistant(f: State, r: State, kept: seq<Round>, oc: seq<Checkpoint>, d: int, line: Line)
    requires Sim(f, r, kept, oc, d) && line.event.Assistant?
    ensures Sim(HandleAssistant(f, line), HandleAssistant(r, line), kept, oc, d)
  {
    var event := line.event;
    SimEnsure(f, r, kept, oc, d, line);
    var f1, r1 := EnsureRound(f, line), EnsureRound(r, line);
    if event.thinking != [] && event.text == "" && event.toolUses == [] {
      ThoughtsMove(event.thinking, r1.stepIndex, d);
      MovedThoughtsAppend(r1.pendingThinking, Thoughts(event.thinking, r1.stepIndex), d);
      SimRecord(f1.(pendingThinking := f1.pendingThinking + Thoughts(event.thinking, f1.stepIndex)),
                r1.(pendingThinking := r1.pendingThinking + Thoughts(event.thinking, r1.stepIndex)), kept, oc, d, Thinking, line);
    } else {
      SimAddUses(f1, r1, kept, oc, d, event.toolUses);
      var f2, r2 := AddUses(f1, event.toolUses), AddUses(r1, event.toolUses);
      SimRecord(f2, r2, kept, oc, d, ToolCall, line);
      var f3 := if event.toolUses != [] then Record(f2, ToolCall, line) else f2;
      var r3 := if event.toolUses != [] then Record(r2, ToolCall, line) else r2;
      SimRespond(f3, r3, kept, oc, d, event);
      SimAddSemantic(Respond(f3, event), Respond(r3, event), kept, oc, d, event);
    }
  }

  lemma SimAddView(f: State, r: State, kept: seq<Round>, oc: seq<Checkpoint>, d: int, view: string)
    requires Sim(f, r, kept, oc, d)
    ensures Sim(AddView(f, view), AddView(r, view), kept, oc, d)
  {
    if r.current.Some? {
      var rr, fr := r.current.value.round, f.current.value.round;
      MovedAppend(rr.fileViews, At(r.stepIndex, view), d);
      SimEdit(f, r, kept, oc, d, fr.(fileViews := fr.fileViews + [At(f.stepIndex, view)]),
              rr.(fileViews := rr.fileViews + [At(r.stepIndex, view)]));
    }
  }

  lemma SimNextStep(f: State, r: State, kept: seq<Round>, oc: seq<Checkpoint>, d: int)
    requires Sim(f, r, kept, oc, d)
    ensures Sim(f.(stepIndex := f.stepIndex + 1), r.(stepIndex := r.stepIndex + 1), kept, oc, d)
    ensures f.stepIndex == r.stepIndex + d
  {
    hide MovedRound, MovedRounds;
  }

  lemma SimNewBoundary(f: State, r: State, kept: seq<Round>, oc: seq<Checkpoint>, d: int, boundary: Boundary)
    requires Sim(f, r, kept, oc, d)
    ensures Sim(f.(pending := Some(Pending(boundary, f.stepIndex))), r.(pending := Some(Pending(boundary, r.stepIndex))), kept, oc, d)
  {
    hide MovedRound, MovedRounds;
  }

  lemma SimLine(f: State, r: State, kept: seq<Round>, oc: seq<Checkpoint>, d: int, line: Line)
    requires Sim(f, r, kept, oc, d) && NamesNoneOf(f.toolCalls, line.event, |kept|)
    ensures Sim(HandleLine(f, line), HandleLine(r, line), kept, oc, d)
  {
    hide Sim, Record, AddView, HandleUser, HandleAssistant;
    var f1, r1 := f.(stepIndex := f.stepIndex + 1), r.(stepIndex := r.stepIndex + 1);
    SimNextStep(f, r, kept, oc, d);
    match line.event
    case Unreadable =>
    case User(_, _, _, _, _, _, _, _, _) => SimUser(f1, r1, kept, oc, d, line);
    case Assistant(_, _, _, _) => SimAssistant(f1, r1, kept, oc, d, line);
    case AttachmentLine(_, view) => SimAddView(f1, r1, kept, oc, d, view);
    case CompactBoundary(uuid, metadata, view) =>
      var boundary := Boundary(uuid, metadata, line.lineNo, line.byteOffset);
      var f2 := f1.(pending := Some(Pending(boundary, f1.stepIndex)));
      var r2 := r1.(pending := Some(Pending(boundary, r1.stepIndex)));
      SimNewBoundary(f1, r1, kept, oc, d, boundary);
      SimRecord(f2, r2, kept, oc, d, BoundarySeen, line);
      SimAddView(Record(f2, BoundarySeen, line), Record(r2, BoundarySeen, line), kept, oc, d, view);
    case System(view) => SimAddView(f1, r1, kept, oc, d, view);
    case Other =>
  }

  /** No line of the run names a tool use of the first `k` rounds at the time it is read. */
  ghost predicate NamesNoneEarlier(f: State, lines: seq<Line>, k: int)
    decreases |lines|
  {
    lines != [] ==> NamesNoneOf(f.toolCalls, lines[0].event, k) && NamesNoneEarlier(HandleLine(f, lines[0]), lines[1..], k)
  }

  lemma {:induction false} SimRun(f: State, r: State, kept: seq<Round>, oc: seq<Checkpoint>, d: int, lines: seq<Line>)
    requires Sim(f, r, kept, oc, d) && NamesNoneEarlier(f, lines, |kept|)
    ensures Sim(Run(f, lines), Run(r, lines), kept, oc, d)
    decreases |lines|
  {
    if lines != [] {
      SimLine(f, r, kept, oc, d, lines[0]);
      SimRun(HandleLine(f, lines[0]), HandleLine(r, lines[0]), kept, oc, d, lines[1..]);
    }
  }
}
