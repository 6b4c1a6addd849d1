/** The tool calls of all rounds in order, told by a desk that knows nothing of rounds: uses are put down in line order, and
    each result is written to the last use with its name, or put down itself. */
module RoundsCalls {
  import opened Basics
  import opened Rounds

  // ---- The desk --------------------------------------------------------------------------------------

  datatype Desk = Desk(step: int, calls: seq<At<Call>>, places: map<string, nat>)

  const BARE: Desk := Desk(0, [], map[])

  function Use(desk: Desk, use: ToolUse): Desk {
    Desk(desk.step, desk.calls + [At(desk.step, Call(use.name, use.args, "", ""))],
         if use.id == "" then desk.places else desk.places[use.id := |desk.calls|])
  }

  function Result(desk: Desk, r: ToolResult): Desk {
    if r.useId in desk.places && desk.places[r.useId] < |desk.calls| then
      var item := desk.calls[desk.places[r.useId]];
      desk.(calls := desk.calls[desk.places[r.useId] := At(item.stepIndex, Call(item.body.name, item.body.args, r.summary, r.full))])
    else desk.(calls := desk.calls + [At(desk.step, Call("tool_result", r.useId, r.summary, r.full))])
  }

  function Uses(desk: Desk, uses: seq<ToolUse>): Desk
    decreases |uses|
  {
    if uses == [] then desk else Uses(Use(desk, uses[0]), uses[1..])
  }

  function Results(desk: Desk, results: seq<ToolResult>): Desk
    decreases |results|
  {
    if results == [] then desk else Results(Result(desk, results[0]), results[1..])
  }

  function Put(desk: Desk, line: Line): Desk {
    var next := desk.(step := desk.step + 1);
    if line.event.User? then Results(next, line.event.toolResults)
    else if line.event.Assistant? then Uses(next, line.event.toolUses)
    else next
  }

  function PutAll(desk: Desk, lines: seq<Line>): Desk
    decreases |lines|
  {
    if lines == [] then desk else PutAll(Put(desk, lines[0]), lines[1..])
  }

  // ---- The calls of a state --------------------------------------------------------------------------

  type Calls = seq<At<Call>>

  function Flat(lists: seq<Calls>): Calls {
    if lists == [] then [] else Flat(lists[..|lists| - 1]) + lists[|lists| - 1]
  }

  function ListsOf(rounds: seq<Round>): seq<Calls> {
    seq(|rounds|, i requires 0 <= i < |rounds| => rounds[i].toolCalls)
  }

  function CallsOf(rounds: seq<Round>): Calls {
    Flat(ListsOf(rounds))
  }

  function Lists(st: State): seq<Calls> {
    ListsOf(st.rounds) + if st.current.Some? then [st.current.value.round.toolCalls] else []
  }

  predicate SlotIn(lists: seq<Calls>, slot: Slot) {
    1 <= slot.round <= |lists| && 0 <= slot.call < |lists[slot.round - 1]|
  }

  function PlaceOf(lists: seq<Calls>, slot: Slot): nat
    requires SlotIn(lists, slot)
  {
    |Flat(lists[..slot.round - 1])| + slot.call
  }

  /** The open round is the last; before the first round there is no use. */
  predicate Numbered(st: State) {
    match st.current
    case None => st.rounds == [] && st.roundIndex == 0 && st.toolCalls == map[]
    case Some(open) => st.roundIndex == open.round.roundIndex == |st.rounds| + 1
  }

  /** The desk holds the calls of all rounds, each recorded use at its place. */
  ghost predicate Kept(lists: seq<Calls>, slots: map<string, Slot>, desk: Desk) {
    && desk.calls == Flat(lists) && desk.places.Keys == slots.Keys && "" !in slots
    && forall id | id in slots :: SlotIn(lists, slots[id]) && desk.places[id] == PlaceOf(lists, slots[id])
  }

  ghost predicate Rel(st: State, desk: Desk) {
    Numbered(st) && desk.step == st.stepIndex && Kept(Lists(st), st.toolCalls, desk)
  }

  // ---- Lists -----------------------------------------------------------------------------------------

  lemma FlatSnoc(lists: seq<Calls>, last: Calls)
    ensures Flat(lists + [last]) == Flat(lists) + last
  {
    assert (lists + [last])[..|lists|] == lists;
  }

  lemma FlatFront(lists: seq<Calls>, more: Calls)
    requires lists != []
    ensures Flat(lists[|lists| - 1 := lists[|lists| - 1] + more]) == Flat(lists) + more
  {
    var n := |lists| - 1;
    var changed := lists[n := lists[n] + more];
    assert changed[..n] == lists[..n];
  }

  /** A place in the lists is a place in the flat list, and an update there is an update here. */
  lemma {:induction false} FlatUpdate(lists: seq<Calls>, slot: Slot, item: At<Call>)
    requires SlotIn(lists, slot)
    ensures PlaceOf(lists, slot) < |Flat(lists)| && Flat(lists)[PlaceOf(lists, slot)] == lists[slot.round - 1][slot.call]
    ensures Flat(lists[slot.round - 1 := lists[slot.round - 1][slot.call := item]]) == Flat(lists)[PlaceOf(lists, slot) := item]
    decreases |lists|
  {
    var n, k := |lists| - 1, slot.round - 1;
    var changed := lists[k := lists[k][slot.call := item]];
    if k < n {
      FlatUpdate(lists[..n], slot, item);
      assert lists[..n][..k] == lists[..k] && changed[..n] == lists[..n][k := lists[k][slot.call := item]];
    } else {
      assert changed[..n] == lists[..n];
    }
  }

  lemma {:induction false} SameLengths(a: seq<Calls>, b: seq<Calls>)
    requires |a| == |b| && forall i | 0 <= i < |a| :: |a[i]| == |b[i]|
    ensures |Flat(a)| == |Flat(b)|
  {
    if a != [] { SameLengths(a[..|a| - 1], b[..|b| - 1]); }
  }

  /** Lists that only grow at their end keep every place. */
  lemma PlaceKept(a: seq<Calls>, b: seq<Calls>, slot: Slot)
    requires SlotIn(a, slot) && |a| <= |b| && (forall i | 0 <= i < |a| :: |a[i]| <= |b[i]|)
    requires forall i | 0 <= i < slot.round - 1 :: |a[i]| == |b[i]|
    ensures SlotIn(b, slot) && PlaceOf(b, slot) == PlaceOf(a, slot)
  {
    SameLengths(a[..slot.round - 1], b[..slot.round - 1]);
  }

  lemma KeptGrown(a: seq<Calls>, b: seq<Calls>, slots: map<string, Slot>, desk: Desk, next: Desk)
    requires Kept(a, slots, desk) && next.places == desk.places && next.calls == Flat(b)
    requires |a| <= |b| && (forall i | 0 <= i < |a| :: |a[i]| <= |b[i]|) && (forall i | 0 <= i < |a| - 1 :: |a[i]| == |b[i]|)
    ensures Kept(b, slots, next)
  {
    hide Flat;
    forall id | id in slots
      ensures SlotIn(b, slots[id]) && next.places[id] == PlaceOf(b, slots[id])
    {
      PlaceKept(a, b, slots[id]);
    }
  }

  // ---- The builder's steps ---------------------------------------------------------------------------

  lemma AddedToOpen(st: State, round: Round, call: At<Call>)
    requires st.current.Some? && round.toolCalls == st.current.value.round.toolCalls + [call]
    ensures var next := Lists(Edit(st, round));
            && next == Lists(st)[|Lists(st)| - 1 := Lists(st)[|Lists(st)| - 1] + [call]] && Flat(next) == Flat(Lists(st)) + [call]
            && |next| == |st.rounds| + 1 == |Lists(st)|
  {
    hide Flat;
    FlatFront(Lists(st), [call]);
  }

  lemma EnsuredRel(st: State, desk: Desk, line: Line)
    requires Rel(st, desk)
    ensures Rel(EnsureRound(st, line), desk) && Lists(EnsureRound(st, line)) != []
  {
    if st.current.None? {
      assert Lists(st) == [] && Lists(EnsureRound(st, line)) == [[]];
      FlatSnoc([], []);
    }
  }

  lemma UseRel(st: State, desk: Desk, use: ToolUse)
    requires Rel(st, desk) && st.current.Some?
    ensures Rel(AddUse(st, use), Use(desk, use))
  {
    hide Flat, Lists;
    var round := st.current.value.round;
    var call := At(st.stepIndex, Call(use.name, use.args, "", ""));
    var edited := Edit(st, round.(toolCalls := round.toolCalls + [call]));
    AddedToOpen(st, edited.current.value.round, call);
    KeptGrown(Lists(st), Lists(edited), st.toolCalls, desk, desk.(calls := desk.calls + [call]));
    SameLists(edited, AddUse(st, use));
    if use.id != "" { UsePlaced(st, edited, desk, use, call); }
  }

  lemma SameLists(a: State, b: State)
    requires a.rounds == b.rounds && a.current == b.current
    ensures Lists(a) == Lists(b)
  {
  }

  lemma UsePlaced(st: State, edited: State, desk: Desk, use: ToolUse, call: At<Call>)
    requires Numbered(st) && st.current.Some? && desk.calls == Flat(Lists(st))
    requires Lists(edited) == Lists(st)[|Lists(st)| - 1 := Lists(st)[|Lists(st)| - 1] + [call]] && |Lists(st)| == |st.rounds| + 1
    ensures var round := st.current.value.round;
            var slot := Slot(round.roundIndex, |round.toolCalls|);
            SlotIn(Lists(edited), slot) && PlaceOf(Lists(edited), slot) == |desk.calls|
  {
    var n := |st.rounds|;
    assert Lists(st)[n] == st.current.value.round.toolCalls;
    assert Lists(edited)[..n] == Lists(st)[..n];
  }

  lemma {:induction false} UsesRel(st: State, desk: Desk, uses: seq<ToolUse>)
    requires Rel(st, desk) && st.current.Some?
    ensures Rel(AddUses(st, uses), Uses(desk, uses))
    decreases |uses|
  {
    hide Rel, Use;
    if uses != [] {
      UseRel(st, desk, uses[0]);
      UsesRel(AddUse(st, uses[0]), Use(desk, uses[0]), uses[1..]);
    }
  }

  /** A result of a recorded use is one update of the lists. */
  lemma AnsweredLists(st: State, slot: Slot, r: ToolResult)
    requires Numbered(st) && SlotIn(Lists(st), slot)
    ensures var k, lists, next := slot.round - 1, Lists(st), Answer(st, slot, r);
            var item := lists[k][slot.call];
            && Lists(next) == lists[k := lists[k][slot.call := At(item.stepIndex, Call(item.body.name, item.body.args, r.summary, r.full))]]
            && Numbered(next) && next.toolCalls == st.toolCalls && next.stepIndex == st.stepIndex && next.current.Some? == st.current.Some?
  {
    var k, next := slot.round - 1, Answer(st, slot, r);
    var item: At<Call> := Lists(st)[k][slot.call];
    var changed := At(item.stepIndex, Call(item.body.name, item.body.args, r.summary, r.full));
    assert Lists(next) == Lists(st)[k := Lists(st)[k][slot.call := changed]];
  }

  lemma AnswerRel(st: State, desk: Desk, r: ToolResult)
    requires Rel(st, desk) && r.useId in st.toolCalls
    ensures Rel(Answer(st, st.toolCalls[r.useId], r), Result(desk, r)) && Answer(st, st.toolCalls[r.useId], r).current.Some? == st.current.Some?
  {
    hide Flat, Lists, Answer;
    var slot, lists := st.toolCalls[r.useId], Lists(st);
    AnsweredLists(st, slot, r);
    var item: At<Call> := lists[slot.round - 1][slot.call];
    var changed := At(item.stepIndex, Call(item.body.name, item.body.args, r.summary, r.full));
    FlatUpdate(lists, slot, changed);
    var next := lists[slot.round - 1 := lists[slot.round - 1][slot.call := changed]];
    forall id | id in st.toolCalls
      ensures SlotIn(next, st.toolCalls[id]) && PlaceOf(next, st.toolCalls[id]) == PlaceOf(lists, st.toolCalls[id])
    {
      PlaceKept(lists, next, st.toolCalls[id]);
    }
  }

  lemma StrayRel(st: State, desk: Desk, r: ToolResult, line: Line)
    requires Rel(st, desk) && r.useId !in st.toolCalls
    ensures Rel(ApplyToolResult(st, r, line), Result(desk, r)) && ApplyToolResult(st, r, line).current.Some?
  {
    hide Flat, Lists;
    EnsuredRel(st, desk, line);
    var ready := EnsureRound(st, line);
    var round, call := ready.current.value.round, At(ready.stepIndex, Call("tool_result", r.useId, r.summary, r.full));
    AddedToOpen(ready, round.(toolCalls := round.toolCalls + [call]), call);
    KeptGrown(Lists(ready), Lists(ApplyToolResult(st, r, line)), st.toolCalls, desk, desk.(calls := desk.calls + [call]));
  }

  lemma {:induction false} ResultsRel(st: State, desk: Desk, results: seq<ToolResult>, line: Line)
    requires Rel(st, desk)
    ensures Rel(ApplyToolResults(st, results, line), Results(desk, results))
    ensures st.current.Some? ==> ApplyToolResults(st, results, line).current.Some?
    decreases |results|
  {
    if results != [] {
      ResultRel(st, desk, results[0], line);
      hide Rel, Result, ApplyToolResult;
      ResultsRel(ApplyToolResult(st, results[0], line), Result(desk, results[0]), results[1..], line);
    }
  }

  lemma ResultRel(st: State, desk: Desk, r: ToolResult, line: Line)
    requires Rel(st, desk)
    ensures Rel(ApplyToolResult(st, r, line), Result(desk, r))
    ensures st.current.Some? ==> ApplyToolResult(st, r, line).current.Some?
  {
    hide Lists, Flat, Answer, Result, SlotIn, PlaceOf;
    if r.useId in st.toolCalls {
      AnswerRel(st, desk, r);
    } else {
      StrayRel(st, desk, r, line);
    }
  }

  lemma OpenedRel(st: State, desk: Desk, line: Line)
    requires Rel(st, desk) && line.event.User?
    ensures Rel(OpenRound(PushCurrent(st), line), desk) && OpenRound(PushCurrent(st), line).current.Some?
  {
    hide Flat, Kept;
    var next := OpenRound(PushCurrent(st), line);
    assert Lists(next) == Lists(st) + [[]];
    EmptyList(Lists(st), st.toolCalls, desk);
  }

  lemma EmptyList(lists: seq<Calls>, slots: map<string, Slot>, desk: Desk)
    requires Kept(lists, slots, desk)
    ensures Kept(lists + [[]], slots, desk)
  {
    hide Flat;
    FlatSnoc(lists, []);
    assert Flat(lists) + [] == Flat(lists);
    KeptGrown(lists, lists + [[]], slots, desk, desk);
  }

  /** Whatever leaves the tool calls alone. */
  lemma Untouched(a: State, b: State, desk: Desk)
    requires Rel(a, desk) && Lists(a) == Lists(b) && a.toolCalls == b.toolCalls && a.stepIndex == b.stepIndex && Numbered(b)
    ensures Rel(b, desk)
  {
  }

  lemma UserRel(st: State, desk: Desk, line: Line)
    requires Rel(st, desk) && line.event.User?
    ensures Rel(HandleUser(st, line), Results(desk, line.event.toolResults))
  {
    hide Kept, Lists, ApplyToolResults, OpenRound, PushCurrent, Results;
    var results := line.event.toolResults;
    if OnlyToolResults(line.event) {
      ResultsRel(st, desk, results, line);
      var ready := ApplyToolResults(st, results, line);
      SameLists(ready, Record(ready, ToolResultSeen, line));
    } else {
      OpenedRel(st, desk, line);
      var started := OpenRound(PushCurrent(st), line);
      ResultsRel(started, desk, results, line);
      var ready := ApplyToolResults(started, results, line);
      SameLists(ready, Record(ready, ToolResultSeen, line));
    }
  }

  lemma RespondedLists(st: State, event: Event)
    requires st.current.Some? && event.Assistant?
    ensures var next := AddSemantic(Respond(st, event), event);
            && Lists(next) == Lists(st) && next.toolCalls == st.toolCalls && next.stepIndex == st.stepIndex
            && (Numbered(st) ==> Numbered(next))
  {
  }

  lemma AssistantRel(st: State, desk: Desk, line: Line)
    requires Rel(st, desk) && line.event.Assistant?
    ensures Rel(HandleAssistant(st, line), Uses(desk, line.event.toolUses))
  {
    hide Kept, Lists, EnsureRound, AddUses, Respond, AddSemantic;
    EnsuredRel(st, desk, line);
    var ready, event := EnsureRound(st, line), line.event;
    UsesRel(ready, desk, event.toolUses);
    if event.thinking != [] && event.text == "" && event.toolUses == [] {
      SameLists(ready, HandleAssistant(st, line));
    } else {
      var used := AddUses(ready, event.toolUses);
      var noted := if event.toolUses != [] then Record(used, ToolCall, line) else used;
      SameLists(used, noted);
      RespondedLists(noted, event);
    }
  }

  lemma ViewedRel(st: State, desk: Desk, view: string)
    requires Rel(st, desk)
    ensures Rel(AddView(st, view), desk)
  {
    assert Lists(AddView(st, view)) == Lists(st);
  }

  lemma LineRel(before: State, desk: Desk, line: Line)
    requires Rel(before, desk)
    ensures Rel(HandleLine(before, line), Put(desk, line))
  {
    hide Kept, Lists, HandleUser, HandleAssistant, AddView, Results, Uses;
    var st, next := before.(stepIndex := before.stepIndex + 1), desk.(step := desk.step + 1);
    SameLists(before, st);
    Stepped(before, desk);
    match line.event
    case User(_, _, _, _, _, _, _, _, _) => UserRel(st, next, line);
    case Assistant(_, _, _, _) => AssistantRel(st, next, line);
    case AttachmentLine(_, view) => ViewedRel(st, next, view);
    case CompactBoundary(uuid, metadata, view) =>
      var noted := Record(st.(pending := Some(Pending(Boundary(uuid, metadata, line.lineNo, line.byteOffset), st.stepIndex))), BoundarySeen, line);
      SameLists(st, noted);
      ViewedRel(noted, next, view);
    case System(view) => ViewedRel(st, next, view);
    case _ =>
  }

  lemma Stepped(before: State, desk: Desk)
    requires Rel(before, desk)
    ensures Rel(before.(stepIndex := before.stepIndex + 1), desk.(step := desk.step + 1))
  {
    hide Flat;
    SameLists(before, before.(stepIndex := before.stepIndex + 1));
  }

  lemma {:induction false} RunRel(st: State, desk: Desk, lines: seq<Line>)
    requires Rel(st, desk)
    ensures Rel(Run(st, lines), PutAll(desk, lines))
    decreases |lines|
  {
    hide Rel, HandleLine, Put;
    if lines != [] {
      LineRel(st, desk, lines[0]);
      RunRel(HandleLine(st, lines[0]), Put(desk, lines[0]), lines[1..]);
    }
  }

  /** The tool calls of all rounds of a build in order, with their steps, arguments and results, are those of the desk. */
  lemma BuildCallsItsLines(lines: seq<Line>)
    ensures CallsOf(PushCurrent(Run(INITIAL, lines)).rounds) == PutAll(BARE, lines).calls
  {
    hide Run, PutAll, Flat;
    NothingPut();
    RunRel(INITIAL, BARE, lines);
    var st := Run(INITIAL, lines);
    assert ListsOf(PushCurrent(st).rounds) == Lists(st);
  }

  lemma NothingPut()
    ensures Rel(INITIAL, BARE)
  {
    assert Lists(INITIAL) == [];
  }

  // ---- What that means -------------------------------------------------------------------------------

  /** Every name has a place of its own. */
  ghost predicate Tidy(desk: Desk) {
    && "" !in desk.places && (forall id | id in desk.places :: desk.places[id] < |desk.calls|)
    && forall a, b | a in desk.places && b in desk.places && desk.places[a] == desk.places[b] :: a == b
  }

  function Noted(calls: Calls): seq<(string, string)> {
    seq(|calls|, i requires 0 <= i < |calls| => (calls[i].body.name, calls[i].body.args))
  }

  /** The uses of a line, or its results that name no use so far. */
  function NotedBy(event: Event, known: set<string>): seq<(string, string)> {
    if event.User? then StrayResults(event.toolResults, known) else if event.Assistant? then UsePairs(event.toolUses) else []
  }

  function UsePairs(uses: seq<ToolUse>): seq<(string, string)> {
    if uses == [] then [] else [(uses[0].name, uses[0].args)] + UsePairs(uses[1..])
  }

  function StrayResults(results: seq<ToolResult>, known: set<string>): seq<(string, string)> {
    if results == [] then []
    else (if results[0].useId in known then [] else [("tool_result", results[0].useId)]) + StrayResults(results[1..], known)
  }

  function KnownBy(event: Event, known: set<string>): set<string> {
    if event.Assistant? then known + (set use | use in event.toolUses && use.id != "" :: use.id) else known
  }

  function AllNoted(lines: seq<Line>, known: set<string>): seq<(string, string)>
    decreases |lines|
  {
    if lines == [] then [] else NotedBy(lines[0].event, known) + AllNoted(lines[1..], KnownBy(lines[0].event, known))
  }

  lemma Thrice<T>(a: seq<T>, b: seq<T>, c: seq<T>)
    ensures a + b + c == a + (b + c)
  {
  }

  lemma ResultNotes(desk: Desk, r: ToolResult)
    requires Tidy(desk)
    ensures var next := Result(desk, r);
            && Tidy(next) && next.places == desk.places && next.step == desk.step && |next.calls| >= |desk.calls|
            && Noted(next.calls) == Noted(desk.calls) + if r.useId in desk.places then [] else [("tool_result", r.useId)]
  {
  }

  lemma {:induction false} ResultsNote(desk: Desk, results: seq<ToolResult>)
    requires Tidy(desk)
    ensures var next := Results(desk, results);
            && Tidy(next) && next.places == desk.places && next.step == desk.step && |next.calls| >= |desk.calls|
            && Noted(next.calls) == Noted(desk.calls) + StrayResults(results, desk.places.Keys)
    decreases |results|
  {
    hide Tidy, Noted, Result;
    if results == [] {
      assert Noted(desk.calls) + [] == Noted(desk.calls);
    } else {
      ResultNotes(desk, results[0]);
      ResultsNote(Result(desk, results[0]), results[1..]);
      Thrice(Noted(desk.calls), if results[0].useId in desk.places then [] else [("tool_result", results[0].useId)],
             StrayResults(results[1..], desk.places.Keys));
    }
  }

  lemma UseNotes(desk: Desk, use: ToolUse)
    requires Tidy(desk)
    ensures var next := Use(desk, use);
            && Tidy(next) && next.places.Keys == desk.places.Keys + (if use.id == "" then {} else {use.id}) && next.step == desk.step
            && Noted(next.calls) == Noted(desk.calls) + [(use.name, use.args)]
  {
  }

  lemma {:induction false} UsesNote(desk: Desk, uses: seq<ToolUse>)
    requires Tidy(desk)
    ensures var next := Uses(desk, uses);
            && Tidy(next) && next.step == desk.step
            && next.places.Keys == desk.places.Keys + (set use | use in uses && use.id != "" :: use.id)
            && Noted(next.calls) == Noted(desk.calls) + UsePairs(uses)
    decreases |uses|
  {
    hide Tidy, Noted, Use;
    if uses == [] {
      assert Noted(desk.calls) + [] == Noted(desk.calls);
    } else {
      UseNotes(desk, uses[0]);
      UsesNote(Use(desk, uses[0]), uses[1..]);
      assert uses == [uses[0]] + uses[1..];
      Thrice(Noted(desk.calls), [(uses[0].name, uses[0].args)], UsePairs(uses[1..]));
    }
  }

  lemma {:induction false} AllAreNoted(desk: Desk, lines: seq<Line>)
    requires Tidy(desk)
    ensures Tidy(PutAll(desk, lines)) && Noted(PutAll(desk, lines).calls) == Noted(desk.calls) + AllNoted(lines, desk.places.Keys)
    decreases |lines|
  {
    hide Tidy, Noted, StrayResults, Uses, Results;
    if lines != [] {
      LineNotes(desk, lines[0]);
      AllAreNoted(Put(desk, lines[0]), lines[1..]);
    }
  }

  lemma LineNotes(desk: Desk, line: Line)
    requires Tidy(desk)
    ensures var next := Put(desk, line);
            && Tidy(next) && next.places.Keys == KnownBy(line.event, desk.places.Keys)
            && Noted(next.calls) == Noted(desk.calls) + NotedBy(line.event, desk.places.Keys)
  {
    hide Noted, Uses, Results;
    var next := desk.(step := desk.step + 1);
    if line.event.User? {
      ResultsNote(next, line.event.toolResults);
    } else if line.event.Assistant? {
      UsesNote(next, line.event.toolUses);
    }
  }

  /** The calls of all rounds in order are the uses of the assistant lines and the results that name no earlier use. */
  lemma BuildNotesItsLines(lines: seq<Line>)
    ensures Noted(CallsOf(PushCurrent(Run(INITIAL, lines)).rounds)) == AllNoted(lines, {})
  {
    hide Run, PutAll, CallsOf, PushCurrent, AllNoted;
    BuildCallsItsLines(lines);
    AllAreNoted(BARE, lines);
    assert Noted([]) == [] && BARE.places.Keys == {};
  }

  // ---- The last result stands ------------------------------------------------------------------------

  function WithAnswer(item: At<Call>, r: ToolResult): At<Call> {
    item.(body := item.body.(resultSummary := r.summary, resultFull := r.full))
  }

  function LastOf(item: At<Call>, results: seq<ToolResult>, id: string): At<Call>
    decreases |results|
  {
    if results == [] then item
    else LastOf(if results[0].useId == id then WithAnswer(item, results[0]) else item, results[1..], id)
  }

  /** A call with the last result that names it in the lines. */
  function Answered(item: At<Call>, lines: seq<Line>, id: string): At<Call>
    decreases |lines|
  {
    if lines == [] then item
    else Answered(if lines[0].event.User? then LastOf(item, lines[0].event.toolResults, id) else item, lines[1..], id)
  }

  predicate NotUsed(lines: seq<Line>, id: string) {
    forall l | l in lines && l.event.Assistant? :: forall use | use in l.event.toolUses :: use.id != id
  }

  lemma {:induction false} ResultsAnswer(desk: Desk, results: seq<ToolResult>, id: string)
    requires Tidy(desk) && id in desk.places
    ensures var next, p := Results(desk, results), desk.places[id];
            && Tidy(next) && next.places == desk.places && p < |next.calls| && next.calls[p] == LastOf(desk.calls[p], results, id)
    decreases |results|
  {
    hide Tidy, Result;
    TidyPlace(desk, id);
    if results != [] {
      ResultNotes(desk, results[0]);
      ResultAnswers(desk, results[0], id);
      ResultsAnswer(Result(desk, results[0]), results[1..], id);
    }
  }

  lemma TidyPlace(desk: Desk, id: string)
    requires Tidy(desk) && id in desk.places
    ensures desk.places[id] < |desk.calls|
  {
  }

  lemma ResultAnswers(desk: Desk, r: ToolResult, id: string)
    requires Tidy(desk) && id in desk.places
    ensures var next, p := Result(desk, r), desk.places[id];
            p < |next.calls| && next.calls[p] == if r.useId == id then WithAnswer(desk.calls[p], r) else desk.calls[p]
  {
  }

  lemma {:induction false} OthersUsed(desk: Desk, uses: seq<ToolUse>, id: string)
    requires Tidy(desk) && id in desk.places && forall use | use in uses :: use.id != id
    ensures var next, p := Uses(desk, uses), desk.places[id];
            && Tidy(next) && id in next.places && next.places[id] == p && p < |next.calls| && next.calls[p] == desk.calls[p]
    decreases |uses|
  {
    hide Tidy;
    TidyPlace(desk, id);
    if uses != [] {
      UseNotes(desk, uses[0]);
      OthersUsed(Use(desk, uses[0]), uses[1..], id);
    }
  }

  lemma {:induction false} LinesAnswer(desk: Desk, lines: seq<Line>, id: string)
    requires Tidy(desk) && id in desk.places && NotUsed(lines, id)
    ensures var next, p := PutAll(desk, lines), desk.places[id];
            p < |next.calls| && p < |desk.calls| && next.calls[p] == Answered(desk.calls[p], lines, id)
    decreases |lines|
  {
    hide Tidy, Results, Uses;
    TidyPlace(desk, id);
    if lines != [] {
      var line, stepped := lines[0], desk.(step := desk.step + 1);
      Restepped(desk);
      if line.event.User? {
        ResultsAnswer(stepped, line.event.toolResults, id);
      } else if line.event.Assistant? {
        assert line in lines;
        OthersUsed(stepped, line.event.toolUses, id);
      }
      LinesAnswer(Put(desk, line), lines[1..], id);
    }
  }

  lemma Restepped(desk: Desk)
    requires Tidy(desk)
    ensures Tidy(desk.(step := desk.step + 1))
  {
  }

  lemma {:induction false} PutSplit(desk: Desk, a: seq<Line>, b: seq<Line>)
    ensures PutAll(desk, a + b) == PutAll(PutAll(desk, a), b)
    decreases |a|
  {
    hide Put;
    if a == [] {
      assert a + b == b;
    } else {
      assert (a + b)[1..] == a[1..] + b;
      PutSplit(Put(desk, a[0]), a[1..], b);
    }
  }

  lemma {:induction false} UsePut(desk: Desk, uses: seq<ToolUse>, i: nat)
    requires Tidy(desk) && i < |uses| && uses[i].id != "" && forall j | i < j < |uses| :: uses[j].id != uses[i].id
    ensures var next, p := Uses(desk, uses), |desk.calls| + i;
            && Tidy(next) && uses[i].id in next.places && next.places[uses[i].id] == p && p < |next.calls|
            && next.calls[p] == At(desk.step, Call(uses[i].name, uses[i].args, "", ""))
    decreases |uses|
  {
    hide Tidy;
    UseNotes(desk, uses[0]);
    var next := Use(desk, uses[0]);
    if i == 0 {
      assert next.calls[|desk.calls|] == At(desk.step, Call(uses[0].name, uses[0].args, "", ""));
      OthersUsed(next, uses[1..], uses[0].id);
    } else {
      UsePut(next, uses[1..], i - 1);
    }
  }

  /** A tool use whose name is not used again: behind the calls of the lines before it, in all rounds together, stands its own
      call, with the step of its line and the last result that names it. */
  lemma UseIsAnswered(before: seq<Line>, line: Line, after: seq<Line>, i: nat)
    requires line.event.Assistant? && i < |line.event.toolUses|
    requires var uses := line.event.toolUses;
             uses[i].id != "" && (forall j | i < j < |uses| :: uses[j].id != uses[i].id) && NotUsed(after, uses[i].id)
    ensures var use, calls := line.event.toolUses[i], CallsOf(PushCurrent(Run(INITIAL, before + [line] + after)).rounds);
            var p := |CallsOf(PushCurrent(Run(INITIAL, before)).rounds)| + i;
            p < |calls| && calls[p] == Answered(At(|before| + 1, Call(use.name, use.args, "", "")), after, use.id)
  {
    hide Run, PutAll, CallsOf, PushCurrent, Uses, NotUsed, Answered, Tidy;
    var id := line.event.toolUses[i].id;
    BuildCallsItsLines(before);
    BuildCallsItsLines(before + [line] + after);
    PutSplit(BARE, before + [line], after);
    PutSplit(BARE, before, [line]);
    BareIsTidy();
    AllAreNoted(BARE, before);
    StepsPut(BARE, before);
    var desk := PutAll(BARE, before);
    Restepped(desk);
    UsePut(desk.(step := desk.step + 1), line.event.toolUses, i);
    PutOne(desk, line);
    LinesAnswer(PutAll(desk, [line]), after, id);
  }

  lemma BareIsTidy()
    ensures Tidy(BARE)
  {
  }

  lemma PutOne(desk: Desk, line: Line)
    ensures PutAll(desk, [line]) == Put(desk, line)
  {
    hide Put;
    assert [line][1..] == [];
    assert PutAll(Put(desk, line), []) == Put(desk, line);
  }

  lemma {:induction false} StepsPut(desk: Desk, lines: seq<Line>)
    requires Tidy(desk)
    ensures PutAll(desk, lines).step == desk.step + |lines|
    decreases |lines|
  {
    hide Tidy, Results, Uses;
    if lines != [] {
      LineSteps(desk, lines[0]);
      LineNotes(desk, lines[0]);
      StepsPut(Put(desk, lines[0]), lines[1..]);
    }
  }

  lemma LineSteps(desk: Desk, line: Line)
    requires Tidy(desk)
    ensures Put(desk, line).step == desk.step + 1
  {
    hide Tidy;
    Restepped(desk);
    var next := desk.(step := desk.step + 1);
    if line.event.User? {
      ResultsNote(next, line.event.toolResults);
    } else if line.event.Assistant? {
      UsesNote(next, line.event.toolUses);
    }
  }
}
