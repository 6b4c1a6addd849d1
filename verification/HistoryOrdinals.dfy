/** The ordinal checks inside `readCodexHistoryWindow`, in both reading directions. */
module HistoryOrdinals {
  import opened Basics
  import opened Lines

  /** The `ordinal` member of a parsed record. `Malformed` stands for anything that is not a safe integer. */
  datatype Ordinal = Missing | Null | Number(value: int) | Malformed

  datatype Bound = Unbounded | Exclusive(end: int)

  datatype Previous = NoneYet | Last(value: int)

  predicate Safe(n: int) { -(MAX_SAFE_INTEGER as int) <= n <= MAX_SAFE_INTEGER }

  /** A missing or null ordinal takes the next expected one; a malformed one has no value the check accepts. */
  function Resolved(o: Ordinal, expected: int): int {
    match o
    case Missing => expected
    case Null => expected
    case Number(v) => v
    case Malformed => MAX_SAFE_INTEGER + 1
  }

  predicate StepAccepted(o: Ordinal, previous: Previous, expected: int, explicit: bool, backward: bool, start: nat) {
    var v := Resolved(o, expected);
    && !(explicit && o.Missing?)
    && Safe(v) && 0 <= v && start <= v && Safe(v + 1)
    && (previous.Last? ==> if backward then v < previous.value else previous.value < v)
  }

  /** The rest of a segment in visiting order, with the end check of a forward walk after its last record. */
  predicate ForwardRun(ords: seq<Ordinal>, previous: Previous, expected: int, explicit: bool, start: nat, end: Bound) {
    if ords == [] then end.Exclusive? ==> expected == end.end
    else
      && StepAccepted(ords[0], previous, expected, explicit, false, start)
      && ForwardRun(ords[1..], Last(Resolved(ords[0], expected)), Resolved(ords[0], expected) + 1, explicit, start, end)
  }

  predicate BackwardRun(ords: seq<Ordinal>, previous: Previous, expected: int, start: nat) {
    ords != [] ==>
      && StepAccepted(ords[0], previous, expected, true, true, start)
      && BackwardRun(ords[1..], Last(Resolved(ords[0], expected)), Resolved(ords[0], expected) + 1, start)
  }

  predicate ForwardAccepts(chronological: seq<Ordinal>, explicit: bool, start: nat, end: Bound) {
    ForwardRun(chronological, NoneYet, start, explicit, start, end)
  }

  /** The end check of a backward walk looks at the first record it visits, so at none in an empty segment. */
  predicate BackwardAccepts(visited: seq<Ordinal>, start: nat, end: Bound) {
    && BackwardRun(visited, NoneYet, start, start)
    && (visited != [] && end.Exclusive? ==> Resolved(visited[0], start) == end.end - 1)
  }

  /** The loop of the reader, over the records in the order in which they are visited. */
  method CheckOrdinals(visited: seq<Ordinal>, explicit: bool, backward: bool, start: nat, end: Bound) returns (accepted: bool)
    requires backward ==> explicit
    ensures accepted <==> if backward then BackwardAccepts(visited, start, end)
                          else ForwardAccepts(visited, explicit, start, end)
  {
    var previous, expected, boundaryChecked, i := NoneYet, start as int, false, 0;
    while i < |visited|
      invariant 0 <= i <= |visited| && (boundaryChecked <==> i > 0)
      invariant !backward ==> (ForwardAccepts(visited, explicit, start, end)
                               <==> ForwardRun(visited[i..], previous, expected, explicit, start, end))
      invariant backward ==> (BackwardRun(visited, NoneYet, start, start)
                              <==> BackwardRun(visited[i..], previous, expected, start))
      invariant backward && i > 0 && end.Exclusive? ==> Resolved(visited[0], start) == end.end - 1
      invariant i == 0 ==> previous == NoneYet && expected == start
    {
      var o := visited[i];
      var ordinal := Resolved(o, expected);
      assert visited[i..][0] == o && visited[i..][1..] == visited[i + 1..];
      if (explicit && o.Missing?) || !Safe(ordinal) || ordinal < 0 || ordinal < start || !Safe(ordinal + 1)
         || (previous.Last? && if backward then ordinal >= previous.value else ordinal <= previous.value) {
        return false;
      }
      if !boundaryChecked && backward && end.Exclusive? && ordinal != end.end - 1 {
        return false;
      }
      previous, expected, boundaryChecked := Last(ordinal), ordinal + 1, true;
      i := i + 1;
    }
    assert visited[i..] == [];
    accepted := backward || !end.Exclusive? || expected == end.end;
  }

  // ---- What the two walks accept -------------------------------------------------------------------

  predicate InRange(o: Ordinal, start: nat) {
    o.Number? && start <= o.value < MAX_SAFE_INTEGER
  }

  predicate Below(a: Ordinal, b: Ordinal) {
    a.Number? && b.Number? && a.value < b.value
  }

  /** Every ordinal is present, in range, and larger than the one before. */
  predicate Increasing(ords: seq<Ordinal>, start: nat) {
    && (forall i | 0 <= i < |ords| :: InRange(ords[i], start))
    && forall i | 0 < i < |ords| :: Below(ords[i - 1], ords[i])
  }

  predicate Decreasing(ords: seq<Ordinal>, start: nat) {
    && (forall i | 0 <= i < |ords| :: InRange(ords[i], start))
    && forall i | 0 < i < |ords| :: Below(ords[i], ords[i - 1])
  }

  predicate NoNull(ords: seq<Ordinal>) {
    forall o | o in ords :: o != Null
  }

  lemma IncreasingCons(ords: seq<Ordinal>, start: nat)
    requires ords != []
    ensures Increasing(ords, start) <==>
            InRange(ords[0], start) && Increasing(ords[1..], start) && (|ords| > 1 ==> Below(ords[0], ords[1]))
  {
    var rest := ords[1..];
    assert forall i | 0 <= i < |rest| :: rest[i] == ords[i + 1];
    if Increasing(rest, start) {
      forall i | 1 < i < |ords| ensures Below(ords[i - 1], ords[i]) { assert Below(rest[i - 1 - 1], rest[i - 1]); }
    }
    if Increasing(ords, start) {
      forall i | 0 < i < |rest| ensures Below(rest[i - 1], rest[i]) { assert Below(ords[i + 1 - 1], ords[i + 1]); }
    }
  }

  lemma DecreasingCons(ords: seq<Ordinal>, start: nat)
    requires ords != []
    ensures Decreasing(ords, start) <==>
            InRange(ords[0], start) && Decreasing(ords[1..], start) && (|ords| > 1 ==> Below(ords[1], ords[0]))
  {
    var rest := ords[1..];
    assert forall i | 0 <= i < |rest| :: rest[i] == ords[i + 1];
    if Decreasing(rest, start) {
      forall i | 1 < i < |ords| ensures Below(ords[i], ords[i - 1]) { assert Below(rest[i - 1], rest[i - 1 - 1]); }
    }
    if Decreasing(ords, start) {
      forall i | 0 < i < |rest| ensures Below(rest[i], rest[i - 1]) { assert Below(ords[i + 1], ords[i + 1 - 1]); }
    }
  }

  lemma {:induction false} ForwardMeaning(ords: seq<Ordinal>, previous: Previous, expected: int, start: nat, end: Bound)
    requires NoNull(ords)
    ensures ForwardRun(ords, previous, expected, true, start, end) <==>
            && Increasing(ords, start)
            && (previous.Last? && ords != [] ==> previous.value < ords[0].value)
            && (end.Exclusive? ==> end.end == if ords == [] then expected else ords[|ords| - 1].value + 1)
  {
    if ords != [] {
      assert ords[0] in ords;
      assert forall o | o in ords[1..] :: o in ords;
      IncreasingCons(ords, start);
      ForwardMeaning(ords[1..], Last(Resolved(ords[0], expected)), Resolved(ords[0], expected) + 1, start, end);
    }
  }

  lemma {:induction false} BackwardMeaning(ords: seq<Ordinal>, previous: Previous, expected: int, start: nat)
    requires NoNull(ords)
    ensures BackwardRun(ords, previous, expected, start) <==>
            && Decreasing(ords, start)
            && (previous.Last? && ords != [] ==> ords[0].value < previous.value)
  {
    if ords != [] {
      assert ords[0] in ords;
      assert forall o | o in ords[1..] :: o in ords;
      DecreasingCons(ords, start);
      BackwardMeaning(ords[1..], Last(Resolved(ords[0], expected)), Resolved(ords[0], expected) + 1, start);
    }
  }

  lemma DecreasingBackwards(ords: seq<Ordinal>, start: nat)
    ensures Decreasing(Reversed(ords), start) <==> Increasing(ords, start)
  {
    var back := Reversed(ords);
    var n := |ords|;
    forall k | 0 <= k < n ensures back[k] == ords[n - 1 - k] && ords[k] == back[n - 1 - k] {
      ReversedIndex(ords, k);
      ReversedIndex(ords, n - 1 - k);
    }
    if Increasing(ords, start) {
      forall i | 0 < i < n ensures Below(back[i], back[i - 1]) {
        assert Below(ords[n - i - 1], ords[n - i]);
      }
    }
    if Decreasing(back, start) {
      forall k | 0 <= k < n ensures InRange(ords[k], start) {
        assert InRange(back[n - 1 - k], start);
      }
      forall i | 0 < i < n ensures Below(ords[i - 1], ords[i]) {
        assert Below(back[n - i], back[n - i - 1]);
      }
    }
  }

  /** A null ordinal resolves to one more than the record visited before, so a backward walk never accepts it. */
  lemma {:induction false} BackwardRejectsNull(ords: seq<Ordinal>, last: int, start: nat)
    requires !NoNull(ords)
    ensures !BackwardRun(ords, Last(last), last + 1, start)
  {
    if ords[0] != Null {
      assert ords == [ords[0]] + ords[1..];
      var v := Resolved(ords[0], last + 1);
      BackwardRejectsNull(ords[1..], v, start);
    }
  }

  lemma {:induction false} BackwardStaysInRange(ords: seq<Ordinal>, last: int, start: nat)
    requires ords != [] && BackwardRun(ords, Last(last), last + 1, start)
    ensures start < last
  {
  }

  lemma BackwardRejectsNullAnywhere(visited: seq<Ordinal>, start: nat)
    requires |visited| > 1 && !NoNull(visited)
    ensures !BackwardRun(visited, NoneYet, start, start)
  {
    var v := Resolved(visited[0], start);
    if visited[0] != Null {
      assert visited == [visited[0]] + visited[1..];
      BackwardRejectsNull(visited[1..], v, start);
    } else if BackwardRun(visited, NoneYet, start, start) {
      BackwardStaysInRange(visited[1..], start, start);
    }
  }

  lemma OneRecord(o: Ordinal, start: nat, end: Bound)
    ensures BackwardAccepts([o], start, end) <==> ForwardAccepts([o], true, start, end)
  {
    var v := Resolved(o, start);
    assert [o][1..] == [];
    assert BackwardRun([], Last(v), v + 1, start);
    assert ForwardRun([], Last(v), v + 1, true, start, end) <==> (end.Exclusive? ==> v + 1 == end.end);
    assert ForwardAccepts([o], true, start, end) <==>
           StepAccepted(o, NoneYet, start, true, false, start) && ForwardRun([o][1..], Last(v), v + 1, true, start, end);
  }

  /** The promise, and exactly where it fails: the two walks agree on every non-empty explicit segment, except that
      the forward walk fills in a null ordinal where the backward walk of two or more records rejects it. */
  lemma DirectionsAgree(chronological: seq<Ordinal>, start: nat, end: Bound)
    requires chronological != []
    ensures BackwardAccepts(Reversed(chronological), start, end) <==>
            ForwardAccepts(chronological, true, start, end) && (|chronological| == 1 || NoNull(chronological))
  {
    var back := Reversed(chronological);
    ReversedIndex(chronological, 0);
    ReversedMembers(chronological);
    if |chronological| == 1 {
      assert chronological == [chronological[0]] && back == [chronological[0]];
      OneRecord(chronological[0], start, end);
    } else if NoNull(chronological) {
      AgreeWithoutNull(chronological, back, start, end);
    } else {
      hide BackwardRun, ForwardAccepts, Resolved;
      BackwardRejectsNullAnywhere(back, start);
    }
  }

  lemma AgreeWithoutNull(chronological: seq<Ordinal>, back: seq<Ordinal>, start: nat, end: Bound)
    requires chronological != [] && back == Reversed(chronological) && NoNull(chronological)
    ensures BackwardAccepts(back, start, end) <==> ForwardAccepts(chronological, true, start, end)
  {
    hide BackwardRun, ForwardRun, Increasing, Decreasing, Reversed;
    ReversedIndex(chronological, 0);
    ReversedMembers(chronological);
    ForwardMeaning(chronological, NoneYet, start, start, end);
    BackwardMeaning(back, NoneYet, start, start);
    DecreasingBackwards(chronological, start);
    if Increasing(chronological, start) { LastInRange(chronological, start); }
  }

  lemma LastInRange(ords: seq<Ordinal>, start: nat)
    requires Increasing(ords, start) && ords != []
    ensures InRange(ords[|ords| - 1], start)
  {
  }

  /** The disagreement is real: two records, the second with a null ordinal. */
  lemma NullOrdinalSplitsTheDirections()
    ensures ForwardAccepts([Number(0), Null], true, 0, Exclusive(2))
    ensures !BackwardAccepts(Reversed([Number(0), Null]), 0, Exclusive(2))
  {
    assert [Number(0), Null][1..] == [Null] && [Null][1..] == [];
    DirectionsAgree([Number(0), Null], 0, Exclusive(2));
    assert Null in [Number(0), Null];
  }

  /** An empty segment has no last record: the backward walk then accepts whatever end was adopted. */
  lemma EmptySegment(start: nat, end: Bound)
    ensures BackwardAccepts([], start, end)
    ensures ForwardAccepts([], true, start, end) <==> (end.Exclusive? ==> end.end == start)
  {
  }
}
