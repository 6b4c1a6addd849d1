/** The incremental reader: old rounds before the checkpoint, replayed and rebased rounds behind it. */
module IncrementalRounds {
  import opened Basics
  import opened NestedSteps
  import opened Rounds
  import opened RoundsReplay

  // ---- What a line does to the round bookkeeping ---------------------------------------------------

  predicate Passive(event: Event) { !event.User? && !event.Assistant? }

  ghost predicate Ordered(st: State) {
    && Numbered(st)
    && (st.current.None? ==> st.rounds == [] && st.checkpoints == [])
    && forall id | id in st.toolCalls :: 1 <= st.toolCalls[id].round <= st.roundIndex
  }

  /** The same round stays open and nothing that a replay depends on changes. */
  ghost predicate SameOpen(a: State, b: State) {
    && a.current.Some? && b.current.Some?
    && b.current.value.replay == a.current.value.replay
    && b.current.value.round.roundIndex == a.current.value.round.roundIndex
    && b.roundIndex == a.roundIndex && b.stepIndex == a.stepIndex && b.pending == a.pending && |b.rounds| == |a.rounds|
  }

  lemma {:induction false} ResultsKeepOpen(st: State, results: seq<ToolResult>, line: Line)
    requires st.current.Some?
    ensures SameOpen(st, ApplyToolResults(st, results, line))
    ensures ApplyToolResults(st, results, line).toolCalls == st.toolCalls
    decreases |results|
  {
    if results != [] {
      ResultsKeepOpen(ApplyToolResult(st, results[0], line), results[1..], line);
    }
  }

  lemma {:induction false} UsesKeepOpen(st: State, uses: seq<ToolUse>)
    requires st.current.Some? && Ordered(st)
    ensures SameOpen(st, AddUses(st, uses)) && Ordered(AddUses(st, uses))
    decreases |uses|
  {
    if uses != [] {
      UsesKeepOpen(AddUse(st, uses[0]), uses[1..]);
    }
  }

  /** Where the round that this line opens would be replayed from. */
  function ReplayOf(st: State, line: Line): Replay {
    if line.event.User? && !OnlyToolResults(line.event) && IsCompactSummary(line.event, st.pending) && st.pending.Some? then
      Replay(st.pending.value.boundary.byteOffset, st.pending.value.boundary.lineNo, st.pending.value.stepIndex)
    else Replay(line.byteOffset, line.lineNo, st.stepIndex + 1)
  }

  predicate Opens(st: State, line: Line) {
    (line.event.User? && !OnlyToolResults(line.event)) || (st.current.None? && !Passive(line.event))
  }

  ghost predicate Effect(st: State, line: Line, next: State) {
    && Ordered(next) && next.stepIndex == st.stepIndex + 1
    && (if Opens(st, line) then
          next.roundIndex == st.roundIndex + 1 && next.current.Some? && next.current.value.replay == ReplayOf(st, line)
        else
          next.roundIndex == st.roundIndex
          && (st.current.None? ==> next.current.None?)
          && (st.current.Some? ==> next.current.Some? && next.current.value.replay == st.current.value.replay))
    && (if line.event.CompactBoundary? then
          next.pending == Some(Pending(Boundary(line.event.uuid, line.event.metadata, line.lineNo, line.byteOffset), next.stepIndex))
        else next.pending == st.pending || next.pending == None)
  }

  lemma UserEffect(st: State, line: Line)
    requires Ordered(st) && line.event.User?
    ensures Effect(st, line, HandleLine(st, line))
  {
    var s1 := st.(stepIndex := st.stepIndex + 1);
    var ts := line.event.toolResults;
    if OnlyToolResults(line.event) {
      var first := ApplyToolResult(s1, ts[0], line);
      ResultsKeepOpen(first, ts[1..], line);
    } else {
      ResultsKeepOpen(OpenRound(PushCurrent(s1), line), ts, line);
    }
  }

  /** What comes behind the tool uses of an assistant line keeps the open round and the bookkeeping. */
  lemma AnswersKeepOpen(st: State, event: Event)
    requires Ordered(st) && st.current.Some? && event.Assistant?
    ensures SameOpen(st, Respond(st, event)) && Ordered(Respond(st, event))
    ensures SameOpen(st, AddSemantic(st, event)) && Ordered(AddSemantic(st, event))
  {
  }

  lemma RecordKeepsOpen(st: State, kind: CheckpointKind, line: Line)
    requires Ordered(st) && st.current.Some?
    ensures SameOpen(st, Record(st, kind, line)) && Ordered(Record(st, kind, line))
  {
  }

  lemma SameOpenTwice(a: State, b: State, c: State)
    requires SameOpen(a, b) && SameOpen(b, c)
    ensures SameOpen(a, c)
  {
  }

  /** An assistant line works in the open round, or in a new one when there is none. */
  lemma AssistantKeepsOpen(st: State, line: Line)
    requires Ordered(st) && line.event.Assistant?
    ensures SameOpen(EnsureRound(st, line), HandleAssistant(st, line)) && Ordered(HandleAssistant(st, line))
  {
    hide SameOpen, Ordered, EnsureRound, AddUses, Respond, AddSemantic, Record;
    var event := line.event;
    var ready := EnsureRound(st, line);
    EnsureIsOrdered(st, line);
    if event.thinking != [] && event.text == "" && event.toolUses == [] {
      var more := ready.(pendingThinking := ready.pendingThinking + Thoughts(event.thinking, ready.stepIndex));
      ThinkingKeepsOpen(ready, more.pendingThinking);
      RecordKeepsOpen(more, Thinking, line);
      SameOpenTwice(ready, more, Record(more, Thinking, line));
    } else {
      UsesKeepOpen(ready, event.toolUses);
      var used := AddUses(ready, event.toolUses);
      RecordKeepsOpen(used, ToolCall, line);
      var noted := if event.toolUses != [] then Record(used, ToolCall, line) else used;
      SameOpenTwice(ready, used, Record(used, ToolCall, line));
      OpenIsOpen(ready, noted);
      AnswersKeepOpen(noted, event);
      SameOpenTwice(ready, noted, Respond(noted, event));
      OpenIsOpen(ready, Respond(noted, event));
      AnswersKeepOpen(Respond(noted, event), event);
      SameOpenTwice(ready, Respond(noted, event), AddSemantic(Respond(noted, event), event));
    }
  }

  lemma OpenIsOpen(a: State, b: State)
    requires SameOpen(a, b)
    ensures b.current.Some?
  {
  }

  lemma ThinkingKeepsOpen(st: State, thinking: seq<Thought>)
    requires Ordered(st) && st.current.Some?
    ensures SameOpen(st, st.(pendingThinking := thinking)) && Ordered(st.(pendingThinking := thinking))
  {
  }

  lemma EnsureIsOrdered(st: State, line: Line)
    requires Ordered(st)
    ensures Ordered(EnsureRound(st, line))
  {
  }

  lemma AssistantEffect(st: State, line: Line)
    requires Ordered(st) && line.event.Assistant?
    ensures Effect(st, line, HandleLine(st, line))
  {
    hide HandleAssistant;
    AssistantKeepsOpen(st.(stepIndex := st.stepIndex + 1), line);
  }

  lemma LineEffect(st: State, line: Line)
    requires Ordered(st)
    ensures Effect(st, line, HandleLine(st, line))
  {
    if line.event.User? {
      UserEffect(st, line);
    } else if line.event.Assistant? {
      AssistantEffect(st, line);
    }
  }

  lemma RunCons(st: State, lines: seq<Line>)
    requires lines != []
    ensures Run(st, lines) == Run(HandleLine(st, lines[0]), lines[1..])
  {
  }

  lemma RunSnoc(lines: seq<Line>)
    requires lines != []
    ensures Run(INITIAL, lines) == HandleLine(Run(INITIAL, lines[..|lines| - 1]), lines[|lines| - 1])
  {
    var n := |lines| - 1;
    assert lines == lines[..n] + [lines[n]];
    RunSplit(INITIAL, lines[..n], [lines[n]]);
    var st := Run(INITIAL, lines[..n]);
    assert Run(st, [lines[n]]) == Run(HandleLine(st, [lines[n]][0]), [lines[n]][1..]);
    assert [lines[n]][1..] == [];
  }

  lemma {:induction false} RunOrdered(lines: seq<Line>)
    ensures Ordered(Run(INITIAL, lines)) && Run(INITIAL, lines).stepIndex == |lines|
    decreases |lines|
  {
    if lines != [] {
      RunOrdered(lines[..|lines| - 1]);
      RunSnoc(lines);
      LineEffect(Run(INITIAL, lines[..|lines| - 1]), lines[|lines| - 1]);
    }
  }

  // ---- Where the open round comes from -------------------------------------------------------------

  /** The pending compaction boundary is a line that was read. */
  lemma {:induction false} PendingLocated(lines: seq<Line>) returns (b: nat)
    requires Run(INITIAL, lines).pending.Some?
    ensures b < |lines| && lines[b].event.CompactBoundary?
    ensures var p := Run(INITIAL, lines).pending.value;
            p.boundary.lineNo == lines[b].lineNo && p.boundary.byteOffset == lines[b].byteOffset && p.stepIndex == b + 1
    decreases |lines|
  {
    if lines == [] { assert false; }
    var n := |lines| - 1;
    RunSnoc(lines);
    RunOrdered(lines[..n]);
    LineEffect(Run(INITIAL, lines[..n]), lines[n]);
    if lines[n].event.CompactBoundary? {
      b := n;
    } else {
      b := PendingLocated(lines[..n]);
    }
  }

  /** The line that opened the last round. */
  function OpeningLine(lines: seq<Line>): (s: nat)
    ensures lines != [] ==> s < |lines|
  {
    if |lines| <= 1 then 0
    else if Opens(Run(INITIAL, lines[..|lines| - 1]), lines[|lines| - 1]) then |lines| - 1
    else OpeningLine(lines[..|lines| - 1])
  }

  /** The replay data of the open round name the line it has to be replayed from: the one that opened it, or the
      compaction boundary in front of it. */
  lemma {:induction false} ReplayLocated(lines: seq<Line>) returns (p: nat)
    requires Run(INITIAL, lines).current.Some?
    ensures var s, st := OpeningLine(lines), Run(INITIAL, lines);
            && p <= s < |lines| && (p < s ==> lines[p].event.CompactBoundary?)
            && st.current.value.replay == Replay(lines[p].byteOffset, lines[p].lineNo, p + 1)
            && Opens(Run(INITIAL, lines[..s]), lines[s])
            && Run(INITIAL, lines[..s]).roundIndex == st.roundIndex - 1
    decreases |lines|
  {
    if lines == [] { assert false; }
    var n := |lines| - 1;
    RunSnoc(lines);
    RunOrdered(lines[..n]);
    var before := Run(INITIAL, lines[..n]);
    LineEffect(before, lines[n]);
    if Opens(before, lines[n]) {
      assert OpeningLine(lines) == n;
      if ReplayOf(before, lines[n]) == Replay(lines[n].byteOffset, lines[n].lineNo, n + 1) {
        p := n;
      } else {
        p := PendingLocated(lines[..n]);
      }
    } else {
      p := ReplayLocated(lines[..n]);
      var s := OpeningLine(lines[..n]);
      assert lines[..n][..s] == lines[..s];
    }
  }

  // ---- From the replay point on, a fresh builder simulates the full one ------------------------------

  /** The rounds and checkpoints that are final when the line behind `prefix` opens a round. */
  function KeptState(prefix: seq<Line>): State {
    var st := Run(INITIAL, prefix);
    PushCurrent(st.(stepIndex := st.stepIndex + 1))
  }

  /** A full build `f` and a fresh builder `r` that waits for the first line that opens a round. */
  ghost predicate Waiting(f: State, r: State, d: int) {
    && r.rounds == [] && r.current.None? && r.toolCalls == map[] && r.roundIndex == 0
    && r.checkpoints == [] && r.pendingThinking == []
    && f.pendingThinking == [] && f.stepIndex == r.stepIndex + d && f.pending == MovedPending(r.pending, d) && Ordered(f)
  }

  lemma PassiveKeepsWaiting(f: State, r: State, d: int, line: Line)
    requires Waiting(f, r, d) && Passive(line.event)
    ensures Waiting(HandleLine(f, line), HandleLine(r, line), d)
  {
    LineEffect(f, line);
  }

  lemma {:induction false} PassiveRun(f: State, r: State, d: int, lines: seq<Line>)
    requires Waiting(f, r, d) && forall l | l in lines :: Passive(l.event)
    ensures Waiting(Run(f, lines), Run(r, lines), d)
    decreases |lines|
  {
    if lines != [] {
      assert lines[0] in lines && forall l | l in lines[1..] :: l in lines;
      PassiveKeepsWaiting(f, r, d, lines[0]);
      PassiveRun(HandleLine(f, lines[0]), HandleLine(r, lines[0]), d, lines[1..]);
    }
  }

  lemma FirstRoundStartsSim(f: State, r: State, d: int)
    requires Waiting(f, r, d) && f.current.None?
    ensures Sim(f, r, [], [], d)
  {
  }

  lemma ClosedRoundsStartSim(f: State, r: State, d: int)
    requires Waiting(f, r, d)
    ensures var k := PushCurrent(f);
            |k.rounds| == f.roundIndex && Sim(k, r, k.rounds, k.checkpoints, d)
  {
  }

  lemma UserStartsSim(f: State, r: State, d: int, line: Line)
    requires Waiting(f, r, d) && line.event.User? && !OnlyToolResults(line.event)
    requires NamesNoneOf(f.toolCalls, line.event, f.roundIndex)
    ensures var k := PushCurrent(f);
            |k.rounds| == f.roundIndex && Sim(HandleUser(f, line), HandleUser(r, line), k.rounds, k.checkpoints, d)
  {
    var k := PushCurrent(f);
    ClosedRoundsStartSim(f, r, d);
    SimOpenRound(k, r, k.rounds, k.checkpoints, d, line);
    SimFilled(OpenRound(k, line), OpenRound(r, line), k.rounds, k.checkpoints, d, line);
  }

  lemma OpeningStartsSim(f: State, r: State, d: int, line: Line)
    requires Waiting(f, r, d) && Opens(f, line) && NamesNoneOf(f.toolCalls, line.event, f.roundIndex)
    ensures var k := PushCurrent(f.(stepIndex := f.stepIndex + 1));
            |k.rounds| == f.roundIndex && Sim(HandleLine(f, line), HandleLine(r, line), k.rounds, k.checkpoints, d)
  {
    if f.current.None? {
      FirstRoundStartsSim(f, r, d);
      SimLine(f, r, [], [], d, line);
    } else {
      UserStartsSim(f.(stepIndex := f.stepIndex + 1), r.(stepIndex := r.stepIndex + 1), d, line);
    }
  }

  /** What must hold at the replay point `p` of the round that line `s` opens for the replay to be exact:
      no thinking is pending, no older compaction boundary is pending, nothing opens a round between the boundary and
      its summary, and no later result names an earlier tool use. */
  ghost predicate Replayable(all: seq<Line>, p: nat, s: nat)
    requires p <= s < |all|
  {
    && Run(INITIAL, all[..p]).pendingThinking == []
    && (all[p].event.CompactBoundary? || Run(INITIAL, all[..p]).pending.None?)
    && (forall j | p <= j < s :: Passive(all[j].event))
    && NamesNoneEarlier(Run(INITIAL, all[..s]), all[s..], Run(INITIAL, all[..s]).roundIndex)
  }

  lemma StartsWaiting(f: State)
    requires Ordered(f) && f.pendingThinking == [] && f.pending.None?
    ensures Waiting(f, INITIAL, f.stepIndex)
  {
  }

  /** From a compaction boundary on, both builders know the same pending boundary. */
  lemma BoundaryStartsWaiting(f: State, line: Line)
    requires Ordered(f) && f.pendingThinking == [] && line.event.CompactBoundary?
    ensures Waiting(HandleLine(f, line), HandleLine(INITIAL, line), f.stepIndex)
  {
    LineEffect(f, line);
  }

  lemma WaitingAtOpening(all: seq<Line>, p: nat, s: nat)
    requires p <= s < |all| && Replayable(all, p, s) && (p < s ==> all[p].event.CompactBoundary?)
    requires Opens(Run(INITIAL, all[..s]), all[s])
    ensures Waiting(Run(INITIAL, all[..s]), Run(INITIAL, all[p..s]), p)
  {
    hide HandleLine, Ordered, NamesNoneEarlier, Waiting;
    var f := Run(INITIAL, all[..p]);
    RunOrdered(all[..p]);
    assert all[p..p] == [];
    if p == s {
      StartsWaiting(f);
    } else {
      var l := all[p];
      assert all[..s] == all[..p] + all[p..s] && all[p..s][0] == l && all[p..s][1..] == all[p + 1..s];
      RunSplit(INITIAL, all[..p], all[p..s]);
      BoundaryStartsWaiting(f, l);
      PassiveRun(HandleLine(f, l), HandleLine(INITIAL, l), p, all[p + 1..s]);
    }
  }

  /** The replay from `p` is the tail of the full build behind the rounds that were final when line `s` was read. */
  lemma ReplaySim(all: seq<Line>, p: nat, s: nat)
    requires p <= s < |all| && Replayable(all, p, s) && (p < s ==> all[p].event.CompactBoundary?)
    requires Opens(Run(INITIAL, all[..s]), all[s])
    ensures var k := KeptState(all[..s]);
            && |k.rounds| == Run(INITIAL, all[..s]).roundIndex
            && Sim(Run(INITIAL, all), Run(INITIAL, all[p..]), k.rounds, k.checkpoints, p)
  {
    hide HandleLine, Run, Sim, Waiting, PushCurrent, Opens;
    WaitingAtOpening(all, p, s);
    var f, r, l := Run(INITIAL, all[..s]), Run(INITIAL, all[p..s]), all[s];
    var k := KeptState(all[..s]);
    assert all[s..][0] == l && all[s..][1..] == all[s + 1..];
    OpeningStartsSim(f, r, p, l);
    SimRun(HandleLine(f, l), HandleLine(r, l), k.rounds, k.checkpoints, p, all[s + 1..]);
    assert all == all[..s] + all[s..] && all[p..] == all[p..s] + all[s..];
    RunSplit(INITIAL, all[..s], all[s..]);
    RunSplit(INITIAL, all[p..s], all[s..]);
    RunCons(f, all[s..]);
    RunCons(r, all[s..]);
  }

  /** The same for the finished builds. */
  lemma FinishedSim(all: seq<Line>, p: nat, s: nat)
    requires p <= s < |all| && Replayable(all, p, s) && (p < s ==> all[p].event.CompactBoundary?)
    requires Opens(Run(INITIAL, all[..s]), all[s])
    ensures var k, full, tail := KeptState(all[..s]), PushCurrent(Run(INITIAL, all)), PushCurrent(Run(INITIAL, all[p..]));
            && |k.rounds| == Run(INITIAL, all[..s]).roundIndex
            && full.rounds == k.rounds + MovedRounds(tail.rounds, |k.rounds|, p)
            && full.checkpoints == k.checkpoints + MovedCheckpoints(tail.checkpoints, |k.rounds|, p)
  {
    ReplaySim(all, p, s);
    var k := KeptState(all[..s]);
    SimPush(Run(INITIAL, all), Run(INITIAL, all[p..]), k.rounds, k.checkpoints, p);
  }

  // ---- The tail reader -----------------------------------------------------------------------------

  datatype TailCheckpoint = TailCheckpoint(replayStartByte: int, replayStartLineNo: int, replayStartStepIndex: int, replaceFromRound: int)

  const FROM_START := TailCheckpoint(0, 1, 1, 1)

  datatype Cache = Cache(rounds: seq<Round>, checkpoint: TailCheckpoint)

  /** The last `round_start` checkpoint, or the fallback. */
  function LastRoundStart(cs: seq<Checkpoint>, fallback: TailCheckpoint): TailCheckpoint {
    if cs == [] then fallback
    else
      var c := cs[|cs| - 1];
      if c.kind == RoundStart then TailCheckpoint(c.sourceByte, c.sourceLineNo, c.sourceStepIndex, c.roundIndex)
      else LastRoundStart(cs[..|cs| - 1], fallback)
  }

  /** A session file as its readable lines: byte offsets grow, and the line at byte 0 has number 1. */
  predicate WellFormed(lines: seq<Line>) {
    && (forall i, j | 0 <= i < j < |lines| :: lines[i].byteOffset < lines[j].byteOffset)
    && forall l | l in lines :: l.byteOffset >= 0 && (l.byteOffset == 0 ==> l.lineNo == 1)
  }

  /** The index of the first line that starts at or behind a byte. */
  function IndexAtByte(lines: seq<Line>, byte: int): (p: nat)
    ensures p <= |lines|
    ensures p < |lines| ==> lines[p].byteOffset >= byte
    ensures forall i | 0 <= i < p :: lines[i].byteOffset < byte
  {
    if lines == [] || lines[0].byteOffset >= byte then 0
    else
      assert forall i | 0 < i < |lines| :: lines[i] == lines[1..][i - 1];
      1 + IndexAtByte(lines[1..], byte)
  }

  /** Reading from the checkpoint's byte numbers the lines from the checkpoint's line number on. */
  function TailLines(lines: seq<Line>, cp: TailCheckpoint): seq<Line> {
    var p := IndexAtByte(lines, cp.replayStartByte);
    var base := if cp.replayStartByte == 0 || p == |lines| then 1 else lines[p].lineNo;
    seq(|lines| - p, i requires 0 <= i < |lines| - p => lines[p + i].(lineNo := lines[p + i].lineNo - base + cp.replayStartLineNo))
  }

  /** `rebaseClaudeCodeRoundTail`: the step collections of a round are moved, what hangs below their items is not. */
  function Rebased(r: Round, k: int, d: int): Round {
    Round(r.roundIndex + k, r.startStep + d, r.endStep + d, r.userMessage, Moved(r.attachments, d),
          Moved(r.responses, d), Moved(r.toolCalls, d), Moved(r.fileViews, d), r.compaction,
          Moved(r.userMessages, d), Moved(r.semanticEvents, d))
  }

  function RebasedRounds(rs: seq<Round>, k: int, d: int): seq<Round> {
    seq(|rs|, i requires 0 <= i < |rs| => Rebased(rs[i], k, d))
  }

  function Full(lines: seq<Line>): Cache {
    var st := PushCurrent(Run(INITIAL, lines));
    Cache(st.rounds, LastRoundStart(st.checkpoints, FROM_START))
  }

  /** The result of the tail reader: the rounds that replace the old ones from `replaceFromRound` on, and where the
      next read starts. */
  function TailRead(lines: seq<Line>, cp: TailCheckpoint): Cache {
    var built := PushCurrent(Run(INITIAL, TailLines(lines, cp)));
    var k, d := cp.replaceFromRound - 1, cp.replayStartStepIndex - 1;
    Cache(RebasedRounds(built.rounds, k, d), LastRoundStart(MovedCheckpoints(built.checkpoints, k, d), cp))
  }

  /** What the reader's caller keeps after an append. */
  function Updated(cache: Cache, lines: seq<Line>): Cache {
    var keep := cache.checkpoint.replaceFromRound - 1;
    var tail := TailRead(lines, cache.checkpoint);
    Cache((if 0 <= keep <= |cache.rounds| then cache.rounds[..keep] else cache.rounds) + tail.rounds, tail.checkpoint)
  }

  /** `readClaudeCodeRoundTail` past its checks: build the tail with a fresh builder, then rebase it. */
  method ReadRoundTail(lines: seq<Line>, cp: TailCheckpoint) returns (result: Cache)
    ensures result == TailRead(lines, cp)
  {
    var rounds, _, checkpoints := BuildRounds(TailLines(lines, cp));
    var roundIndexOffset := cp.replaceFromRound - 1;
    var stepIndexOffset := cp.replayStartStepIndex - 1;
    var rebased: seq<Round> := [];
    for i := 0 to |rounds|
      invariant rebased == RebasedRounds(rounds, roundIndexOffset, stepIndexOffset)[..i]
    {
      rebased := rebased + [Rebased(rounds[i], roundIndexOffset, stepIndexOffset)];
    }
    assert rebased == RebasedRounds(rounds, roundIndexOffset, stepIndexOffset);
    result := Cache(rebased, LastRoundStart(MovedCheckpoints(checkpoints, roundIndexOffset, stepIndexOffset), cp));
  }

  // ---- When the rebased tail is the full one ---------------------------------------------------------

  lemma ThoughtsUnmoved(ts: seq<Thought>, d: int)
    ensures MovedThoughts(ts, d) == ts <==> d == 0 || forall j | 0 <= j < |ts| :: ts[j].Words?
  {
    var ms := MovedThoughts(ts, d);
    if ms == ts {
      forall j | 0 <= j < |ts| ensures d == 0 || ts[j].Words? { assert ms[j] == ts[j]; }
    }
  }

  lemma AttachmentsUnmoved(xs: seq<At<string>>, d: int)
    ensures Moved(xs, d) == xs <==> d == 0 || xs == []
  {
    if xs != [] && d != 0 {
      assert Moved(xs, d)[0] != xs[0];
    }
  }

  lemma RebaseIsExact(r: Round, k: int, d: int)
    ensures Rebased(r, k, d) == MovedRound(r, k, d) <==> d == 0 || Clean(r)
  {
    var a, b := Moved(r.responses, d), MovedResponses(r.responses, d);
    forall i | 0 <= i < |r.responses|
      ensures a[i] == b[i] <==> d == 0 || forall j | 0 <= j < |r.responses[i].body.thinking| :: r.responses[i].body.thinking[j].Words?
    {
      ThoughtsUnmoved(r.responses[i].body.thinking, d);
    }
    var e, g := Moved(r.semanticEvents, d), MovedSemantics(r.semanticEvents, d);
    forall i | 0 <= i < |r.semanticEvents|
      ensures e[i] == g[i] <==> d == 0 || r.semanticEvents[i].body.attachments == []
    {
      AttachmentsUnmoved(r.semanticEvents[i].body.attachments, d);
    }
    if d == 0 || Clean(r) {
      assert a == b && e == g;
    }
    if d != 0 && a == b && e == g {
      forall i | 0 <= i < |r.semanticEvents| ensures r.semanticEvents[i].body.attachments == [] { assert e[i] == g[i]; }
      forall i | 0 <= i < |r.responses|
        ensures forall j | 0 <= j < |r.responses[i].body.thinking| :: r.responses[i].body.thinking[j].Words?
      {
        assert a[i] == b[i];
      }
      assert Clean(r);
    }
  }

  lemma RebaseAllIsExact(rs: seq<Round>, k: int, d: int)
    ensures RebasedRounds(rs, k, d) == MovedRounds(rs, k, d) <==> d == 0 || AllClean(rs)
  {
    var a, b := RebasedRounds(rs, k, d), MovedRounds(rs, k, d);
    forall i | 0 <= i < |rs| ensures a[i] == b[i] <==> d == 0 || Clean(rs[i]) {
      RebaseIsExact(rs[i], k, d);
    }
    if a == b {
      forall i | 0 <= i < |rs| ensures d == 0 || Clean(rs[i]) { assert a[i] == b[i]; }
    }
  }

  // ---- The theorem ---------------------------------------------------------------------------------

  lemma {:induction false} NamesPrefix(f: State, a: seq<Line>, b: seq<Line>, k: int)
    requires NamesNoneEarlier(f, a + b, k)
    ensures NamesNoneEarlier(f, a, k)
    decreases |a|
  {
    if a != [] {
      assert (a + b)[0] == a[0] && (a + b)[1..] == a[1..] + b;
      NamesPrefix(HandleLine(f, a[0]), a[1..], b, k);
    }
  }

  lemma LastIsOpenRound(lines: seq<Line>)
    requires Run(INITIAL, lines).current.Some?
    ensures var open := Run(INITIAL, lines).current.value;
            Full(lines).checkpoint == TailCheckpoint(open.replay.byte, open.replay.lineNo, open.replay.stepIndex, open.round.roundIndex)
  {
    var st := Run(INITIAL, lines);
    var c := Checkpoint(RoundStart, st.current.value.round.roundIndex, st.current.value.replay.byte,
                        st.current.value.replay.lineNo, st.current.value.replay.stepIndex);
    assert PushCurrent(st).checkpoints == st.checkpoints + [c];
  }

  /** Reading from a line of the file by its offset and number gives the lines from there on, numbered as before. */
  lemma TailLinesOf(all: seq<Line>, p: nat, cp: TailCheckpoint)
    requires WellFormed(all) && p < |all|
    requires cp.replayStartByte == all[p].byteOffset && cp.replayStartLineNo == all[p].lineNo
    ensures IndexAtByte(all, cp.replayStartByte) == p && TailLines(all, cp) == all[p..]
  {
    assert all[p] in all;
    var q := IndexAtByte(all, cp.replayStartByte);
    assert q <= p;
  }

  /** The replay point of a full build, and the line that opened its last round. */
  function ReplayPoint(before: seq<Line>): nat {
    IndexAtByte(before, Full(before).checkpoint.replayStartByte)
  }

  lemma ReplayPointLocated(before: seq<Line>)
    requires WellFormed(before) && Run(INITIAL, before).current.Some?
    ensures var p, s, st := ReplayPoint(before), OpeningLine(before), Run(INITIAL, before);
            && p <= s < |before| && (p < s ==> before[p].event.CompactBoundary?)
            && Opens(Run(INITIAL, before[..s]), before[s])
            && Run(INITIAL, before[..s]).roundIndex == st.current.value.round.roundIndex - 1
            && Full(before).checkpoint
               == TailCheckpoint(before[p].byteOffset, before[p].lineNo, p + 1, st.current.value.round.roundIndex)
  {
    var p := ReplayLocated(before);
    RunOrdered(before);
    LastIsOpenRound(before);
    TailLinesOf(before, p, Full(before).checkpoint);
  }

  ghost predicate CanReplay(before: seq<Line>, appended: seq<Line>) {
    var p, s := ReplayPoint(before), OpeningLine(before);
    p <= s < |before + appended| && Replayable(before + appended, p, s)
  }

  /** What the tail builder makes of the lines from the replay point on, before rebasing. */
  function Replayed(before: seq<Line>, appended: seq<Line>): State
    requires ReplayPoint(before) <= |before|
  {
    PushCurrent(Run(INITIAL, (before + appended)[ReplayPoint(before)..]))
  }

  lemma SharedPrefix(before: seq<Line>, appended: seq<Line>, p: nat, s: nat)
    requires p <= s < |before| && Replayable(before + appended, p, s)
    ensures Replayable(before, p, s) && (before + appended)[..s] == before[..s] && (before + appended)[s] == before[s]
    ensures (before + appended)[p] == before[p]
  {
    var all := before + appended;
    assert all[..s] == before[..s] && all[..p] == before[..p] && all[s..] == before[s..] + appended;
    NamesPrefix(Run(INITIAL, before[..s]), before[s..], appended, Run(INITIAL, before[..s]).roundIndex);
    assert forall j | p <= j < s :: all[j] == before[j];
  }

  lemma LastOfLast(a: seq<Checkpoint>, b: seq<Checkpoint>, k: int, d: int, x: TailCheckpoint, y: TailCheckpoint)
    requires b != [] && b[|b| - 1].kind == RoundStart
    ensures LastRoundStart(a + MovedCheckpoints(b, k, d), x) == LastRoundStart(MovedCheckpoints(b, k, d), y)
  {
    var m := MovedCheckpoints(b, k, d);
    assert (a + m)[|a + m| - 1] == m[|m| - 1];
  }

  /** A full build in which a replayed tail can be told apart from what was final before. */
  lemma FullIsKeptPlusReplayed(before: seq<Line>, appended: seq<Line>)
    requires WellFormed(before + appended) && WellFormed(before)
    requires Run(INITIAL, before).current.Some? && CanReplay(before, appended)
    ensures var p, cp, full, tail := ReplayPoint(before), Full(before).checkpoint, Full(before + appended), Replayed(before, appended);
            && 0 <= cp.replaceFromRound - 1 <= |Full(before).rounds| && cp.replayStartStepIndex - 1 == p
            && full.rounds == Full(before).rounds[..cp.replaceFromRound - 1] + MovedRounds(tail.rounds, cp.replaceFromRound - 1, p)
            && full.checkpoint == LastRoundStart(MovedCheckpoints(tail.checkpoints, cp.replaceFromRound - 1, p), cp)
  {
    var all := before + appended;
    ReplayPointLocated(before);
    var p, s := ReplayPoint(before), OpeningLine(before);
    SharedPrefix(before, appended, p, s);
    FinishedSim(before, p, s);
    FinishedSim(all, p, s);
    ReplayHasRound(all, p, s);
    var kept, tail := KeptState(before[..s]), Replayed(before, appended);
    LastOfLast(kept.checkpoints, tail.checkpoints, |kept.rounds|, p, FROM_START, Full(before).checkpoint);
    assert Full(before).rounds[..|kept.rounds|] == kept.rounds;
  }

  /** The tail builder ends with an open round, so its last checkpoint is a round start. */
  lemma ReplayHasRound(all: seq<Line>, p: nat, s: nat)
    requires p <= s < |all| && Replayable(all, p, s) && (p < s ==> all[p].event.CompactBoundary?)
    requires Opens(Run(INITIAL, all[..s]), all[s])
    ensures var cs := PushCurrent(Run(INITIAL, all[p..])).checkpoints;
            cs != [] && cs[|cs| - 1].kind == RoundStart
  {
    hide HandleLine, Run, Sim, Ordered, Replayable, ReplayOf;
    ReplaySim(all, p, s);
    var st := Run(INITIAL, all[..s]);
    RunOrdered(all[..s]);
    LineEffect(st, all[s]);
    var k := KeptState(all[..s]);
    SimOpenRounds(Run(INITIAL, all), Run(INITIAL, all[p..]), k.rounds, k.checkpoints, p);
    assert all == all[..s] + all[s..] && all[s..][0] == all[s];
    RunSplit(INITIAL, all[..s], all[s..]);
    RunCons(st, all[s..]);
    StaysOpen(HandleLine(st, all[s]), all[s..][1..]);
  }

  lemma {:induction false} StaysOpen(st: State, lines: seq<Line>)
    requires Ordered(st) && st.current.Some?
    ensures Run(st, lines).current.Some?
    decreases |lines|
  {
    if lines != [] {
      LineEffect(st, lines[0]);
      StaysOpen(HandleLine(st, lines[0]), lines[1..]);
    }
  }

  /** Main result. After any append that can be replayed, the incremental reader stores the checkpoint of a full
      rebuild, and its rounds are those of a full rebuild if and only if the replay starts at the first line or none of
      the replayed lines carries a step that the rebase does not reach. */
  lemma ReplayIsExact(before: seq<Line>, appended: seq<Line>)
    requires WellFormed(before + appended) && WellFormed(before)
    requires Run(INITIAL, before).current.Some? && CanReplay(before, appended)
    ensures Updated(Full(before), before + appended).checkpoint == Full(before + appended).checkpoint
    ensures ReplayPoint(before) <= |before|
    ensures Updated(Full(before), before + appended).rounds == Full(before + appended).rounds
            <==> ReplayPoint(before) == 0 || !Carries((before + appended)[ReplayPoint(before)..], false)
  {
    hide Run, MovedRounds, RebasedRounds, AllClean, Carries, PushCurrent, LastRoundStart, CanReplay, TailLines, IndexAtByte, MovedCheckpoints, WellFormed;
    var all, cp, p, tail := before + appended, Full(before).checkpoint, ReplayPoint(before), Replayed(before, appended);
    var k := cp.replaceFromRound - 1;
    FullIsKeptPlusReplayed(before, appended);
    ReplayPointLocated(before);
    assert all[p] == before[p];
    TailLinesOf(all, p, cp);
    RebaseAllIsExact(tail.rounds, k, p);
    BuildsAreCleanIffNoLineCarries(all[p..]);
    SameTail(Full(before).rounds[..k], RebasedRounds(tail.rounds, k, p), MovedRounds(tail.rounds, k, p));
  }

  lemma SameTail<T>(kept: seq<T>, a: seq<T>, b: seq<T>)
    ensures kept + a == kept + b <==> a == b
  {
    assert (kept + a)[|kept|..] == a && (kept + b)[|kept|..] == b;
  }

  /** Before the first round there is nothing to keep, and the tail is the whole file. */
  lemma FirstReadIsFull(before: seq<Line>, appended: seq<Line>)
    requires WellFormed(before + appended) && Run(INITIAL, before).current.None?
    ensures Updated(Full(before), before + appended) == Full(before + appended)
  {
    hide Run, RebasedRounds, MovedCheckpoints, LastRoundStart, PushCurrent, TailLines, WellFormed;
    var all := before + appended;
    NoRoundsYet(before);
    WholeTail(all);
    var st := PushCurrent(Run(INITIAL, all));
    NothingMoves(st.rounds, st.checkpoints);
    assert [] + st.rounds == st.rounds;
  }

  lemma NoRoundsYet(before: seq<Line>)
    requires Run(INITIAL, before).current.None?
    ensures Full(before) == Cache([], FROM_START)
  {
    hide Run;
    RunOrdered(before);
  }

  lemma WholeTail(all: seq<Line>)
    requires WellFormed(all)
    ensures TailLines(all, FROM_START) == all
  {
    assert IndexAtByte(all, 0) == 0 by { if all != [] { assert all[0] in all; } }
  }

  lemma NothingMoves(rs: seq<Round>, cs: seq<Checkpoint>)
    ensures RebasedRounds(rs, 0, 0) == rs && MovedCheckpoints(cs, 0, 0) == cs
  {
    forall i | 0 <= i < |rs| ensures Rebased(rs[i], 0, 0) == rs[i] {
      var r := rs[i];
      assert Moved(r.attachments, 0) == r.attachments && Moved(r.responses, 0) == r.responses;
      assert Moved(r.toolCalls, 0) == r.toolCalls && Moved(r.fileViews, 0) == r.fileViews;
      assert Moved(r.userMessages, 0) == r.userMessages && Moved(r.semanticEvents, 0) == r.semanticEvents;
    }
  }

  function Joined(appends: seq<seq<Line>>): seq<Line> {
    if appends == [] then [] else appends[0] + Joined(appends[1..])
  }

  /** One append that meets the hypotheses of `ReplayIsExact` on its exact side. */
  ghost predicate ReplaysExactly(before: seq<Line>, appended: seq<Line>) {
    && WellFormed(before) && WellFormed(before + appended)
    && (Run(INITIAL, before).current.Some? ==>
          && CanReplay(before, appended) && ReplayPoint(before) <= |before|
          && (ReplayPoint(before) == 0 || !Carries((before + appended)[ReplayPoint(before)..], false)))
  }

  ghost predicate AllReplayable(before: seq<Line>, appends: seq<seq<Line>>)
    decreases |appends|
  {
    appends != [] ==> ReplaysExactly(before, appends[0]) && AllReplayable(before + appends[0], appends[1..])
  }

  lemma OneAppend(before: seq<Line>, appended: seq<Line>)
    requires ReplaysExactly(before, appended)
    ensures Updated(Full(before), before + appended) == Full(before + appended)
  {
    if Run(INITIAL, before).current.Some? {
      ReplayIsExact(before, appended);
    } else {
      FirstReadIsFull(before, appended);
    }
  }

  function Follow(cache: Cache, before: seq<Line>, appends: seq<seq<Line>>): Cache
    decreases |appends|
  {
    if appends == [] then cache else Follow(Updated(cache, before + appends[0]), before + appends[0], appends[1..])
  }

  lemma FollowOne(cache: Cache, next: Cache, before: seq<Line>, appends: seq<seq<Line>>)
    requires appends != [] && Updated(cache, before + appends[0]) == next
    ensures Follow(cache, before, appends) == Follow(next, before + appends[0], appends[1..])
    ensures before + Joined(appends) == before + appends[0] + Joined(appends[1..])
  {
    hide Updated;
    assert before + (appends[0] + Joined(appends[1..])) == before + appends[0] + Joined(appends[1..]);
  }

  /** Following a growing file append by append ends where one full build of the final file ends. */
  lemma {:induction false} FollowingIsRebuilding(before: seq<Line>, appends: seq<seq<Line>>)
    requires AllReplayable(before, appends)
    ensures Follow(Full(before), before, appends) == Full(before + Joined(appends))
    decreases |appends|
  {
    if appends == [] {
      assert before + [] == before;
    } else {
      OneAppend(before, appends[0]);
      FollowOne(Full(before), Full(before + appends[0]), before, appends);
      FollowingIsRebuilding(before + appends[0], appends[1..]);
    }
  }

  // ---- The rebase does miss something ----------------------------------------------------------------

  function PlainUser(text: string): Event {
    User(text, [], [], [], false, "", "", false, "")
  }

  const EXAMPLE_BEFORE: seq<Line> := [Line(PlainUser("first"), 1, 0), Line(PlainUser("second"), 2, 10)]
  const EXAMPLE_APPEND: seq<Line> := [Line(Assistant("seen", [], [], ["image"]), 3, 20)]

  lemma RunTwo(st: State, a: Line, b: Line)
    ensures Run(st, [a]) == HandleLine(st, a) && Run(st, [a, b]) == HandleLine(HandleLine(st, a), b)
  {
    assert [a][1..] == [] && [a, b][1..] == [b];
    assert Run(HandleLine(st, a), []) == HandleLine(st, a);
    assert Run(HandleLine(st, a), [b]) == Run(HandleLine(HandleLine(st, a), b), [b][1..]) && [b][1..] == [];
  }

  lemma ExampleRuns()
    ensures var one := Run(INITIAL, [EXAMPLE_BEFORE[0]]);
            && Opens(INITIAL, EXAMPLE_BEFORE[0]) && Opens(one, EXAMPLE_BEFORE[1])
            && one.pending.None? && one.pendingThinking == [] && one.toolCalls == map[] && one.roundIndex == 1
            && HandleLine(one, EXAMPLE_BEFORE[1]).toolCalls == map[]
    ensures Run(INITIAL, EXAMPLE_BEFORE).current.Some?
    ensures Run(INITIAL, EXAMPLE_BEFORE).current.value.replay == Replay(10, 2, 2)
  {
    RunTwo(INITIAL, EXAMPLE_BEFORE[0], EXAMPLE_BEFORE[1]);
  }

  /** A reply with an image to the second of two messages: after the append, the image of the replayed round keeps the
      step of the replay, so the incremental rounds differ from the rebuilt ones. */
  lemma AttachmentStepsAreNotRebased()
    ensures ReplayPoint(EXAMPLE_BEFORE) == 1 && CanReplay(EXAMPLE_BEFORE, EXAMPLE_APPEND)
    ensures Updated(Full(EXAMPLE_BEFORE), EXAMPLE_BEFORE + EXAMPLE_APPEND).rounds != Full(EXAMPLE_BEFORE + EXAMPLE_APPEND).rounds
  {
    hide Run, Full, Updated, CanReplay, ReplayPoint, Carries, WellFormed;
    ExampleReplays();
    ReplayIsExact(EXAMPLE_BEFORE, EXAMPLE_APPEND);
    ExampleCarries();
    assert (EXAMPLE_BEFORE + EXAMPLE_APPEND)[1..] == [EXAMPLE_BEFORE[1], EXAMPLE_APPEND[0]];
  }

  lemma ExampleReplays()
    ensures WellFormed(EXAMPLE_BEFORE) && WellFormed(EXAMPLE_BEFORE + EXAMPLE_APPEND)
    ensures Run(INITIAL, EXAMPLE_BEFORE).current.Some? && ReplayPoint(EXAMPLE_BEFORE) == 1
    ensures CanReplay(EXAMPLE_BEFORE, EXAMPLE_APPEND)
  {
    hide Run, Full, PushCurrent, HandleLine, Opens, TailLines, IndexAtByte, NamesNoneEarlier;
    var before, appended := EXAMPLE_BEFORE, EXAMPLE_APPEND;
    var all := before + appended;
    ExampleRuns();
    LastIsOpenRound(before);
    TailLinesOf(before, 1, Full(before).checkpoint);
    assert before[..1] == [before[0]] && all[..1] == [before[0]];
    assert OpeningLine(before) == 1;
    assert all[1..] == [before[1], appended[0]];
    ExampleNames(Run(INITIAL, [before[0]]));
  }

  lemma ExampleNames(one: State)
    ensures NamesNoneEarlier(one, [EXAMPLE_BEFORE[1], EXAMPLE_APPEND[0]], 1)
  {
    var a, b := EXAMPLE_BEFORE[1], EXAMPLE_APPEND[0];
    assert [a, b][1..] == [b] && [b][1..] == [];
    assert NamesNoneEarlier(HandleLine(one, a), [b], 1);
  }

  lemma ExampleCarries()
    ensures Carries([EXAMPLE_BEFORE[1], EXAMPLE_APPEND[0]], false)
  {
    assert Carries([EXAMPLE_BEFORE[1], EXAMPLE_APPEND[0]][1..], false);
  }
}
