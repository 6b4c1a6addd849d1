/** The validator of a history segment's ordinals: all explicit or all counted, decided by the first record. */
module OrdinalValidator {
  import opened Basics

  datatype Mode = Explicit | Legacy

  /** A record as the validator sees it: no object, an object without an ordinal, or one whose ordinal is a whole number or
      something else. */
  datatype Record = NoObject | NoOrdinal | Ordinal(value: int) | OtherOrdinal

  function ModeOf(r: Record): Mode {
    if r.NoOrdinal? then Legacy else Explicit
  }

  // ---- What is accepted ------------------------------------------------------------------------------

  /** The mode that the surroundings ask for: an expected one, or explicit behind an explicit part. */
  predicate ModeAllowed(mode: Mode, expected: Option<Mode>, previous: Option<Mode>) {
    && (expected.Some? ==> mode == expected.value)
    && (previous == Some(Explicit) ==> mode == Explicit)
  }

  predicate Usable(r: Record) { r.Ordinal? && 0 <= r.value < MAX_SAFE_INTEGER }

  /** Explicit ordinals start where the segment starts and grow. */
  ghost predicate Explicits(records: seq<Record>, start: nat) {
    && (forall i | 0 <= i < |records| :: Usable(records[i]))
    && (records != [] ==> records[0].value == start)
    && (forall i, j | 0 <= i < j < |records| :: records[i].value < records[j].value)
  }

  /** Records without ordinals are counted from the start, as far as numbers go. */
  ghost predicate Counted(records: seq<Record>, start: nat) {
    (forall i | 0 <= i < |records| :: records[i].NoOrdinal?) && (records != [] ==> start + |records| <= MAX_SAFE_INTEGER)
  }

  ghost predicate Acceptable(records: seq<Record>, start: nat, expected: Option<Mode>, previous: Option<Mode>) {
    || records == []
    || (ModeAllowed(Explicit, expected, previous) && Explicits(records, start))
    || (ModeAllowed(Legacy, expected, previous) && Counted(records, start))
  }

  /** What is accepted, for a segment that is not empty: either all ordinals are there, from the start on and growing, and
      legacy records were not asked for, or none is there, their count fits, and nothing around the segment is explicit. */
  lemma AcceptedSegments(records: seq<Record>, start: nat, expected: Option<Mode>, previous: Option<Mode>)
    requires records != []
    ensures Acceptable(records, start, expected, previous) <==>
            if records[0].Ordinal? then
              && expected != Some(Legacy) && records[0].value == start
              && (forall r | r in records :: r.Ordinal? && start <= r.value < MAX_SAFE_INTEGER)
              && (forall i | 0 < i < |records| :: records[i - 1].value < records[i].value)
            else
              && expected != Some(Explicit) && previous != Some(Explicit)
              && start + |records| <= MAX_SAFE_INTEGER && forall r | r in records :: r == NoOrdinal
  {
    if records[0].Ordinal? && records[0].value == start && (forall i | 0 <= i < |records| :: records[i].Ordinal?)
       && forall i | 0 < i < |records| :: records[i - 1].value < records[i].value {
      StepsRise(records);
    }
    assert forall i | 0 <= i < |records| :: records[i] in records;
  }

  lemma {:induction false} StepsRise(records: seq<Record>)
    requires forall i | 0 <= i < |records| :: records[i].Ordinal?
    requires forall i | 0 < i < |records| :: records[i - 1].value < records[i].value
    ensures forall i, j | 0 <= i < j < |records| :: records[i].value < records[j].value
  {
    if records != [] {
      var rest := records[..|records| - 1];
      StepsRise(rest);
      forall i, j | 0 <= i < j < |records| ensures records[i].value < records[j].value {
        if j == |records| - 1 {
          assert i < j - 1 ==> rest[i].value < rest[j - 1].value;
        } else {
          assert rest[i].value < rest[j].value;
        }
      }
    }
  }

  /** The ordinal behind the last record. */
  function Next(records: seq<Record>, start: nat): int {
    if records == [] then start
    else if records[|records| - 1].Ordinal? then records[|records| - 1].value + 1
    else start + |records|
  }

  // ---- The validator ---------------------------------------------------------------------------------

  class Validator {
    const start: nat
    const expected: Option<Mode>
    const previous: Option<Mode>
    var mode: Option<Mode>
    var nextOrdinal: int
    var count: nat

    /** The validator has accepted exactly these records. */
    ghost predicate Accepted(records: seq<Record>)
      reads this
    {
      && Acceptable(records, start, expected, previous) && start <= MAX_SAFE_INTEGER
      && count == |records| && nextOrdinal == Next(records, start)
      && mode == if records == [] then None else Some(ModeOf(records[0]))
    }

    constructor (start: nat, expected: Option<Mode>, previous: Option<Mode>)
      requires start <= MAX_SAFE_INTEGER
      ensures Accepted([]) && this.start == start && this.expected == expected && this.previous == previous
    {
      this.start, this.expected, this.previous := start, expected, previous;
      mode, nextOrdinal, count := None, start, 0;
    }

    /** One more record is accepted iff the records with it are acceptable. */
    method Add(r: Record, ghost before: seq<Record>) returns (ok: bool)
      requires Accepted(before)
      modifies this
      ensures ok <==> Acceptable(before + [r], start, expected, previous)
      ensures ok ==> Accepted(before + [r])
    {
      hide Explicits, Counted;
      ExplicitsSnoc(before, r, start);
      CountedSnoc(before, r, start);
      if before != [] { KindOf(before, start); }
      assert (before + [r])[0] == if before == [] then r else before[0];
      if r.NoObject? { return false; }
      var own := ModeOf(r);
      if mode.None? {
        if (expected.Some? && own != expected.value) || (previous == Some(Explicit) && own == Legacy) { return false; }
        mode := Some(own);
      } else if mode != Some(own) {
        return false;
      }
      if own == Explicit {
        if !r.Ordinal? || r.value < 0 || r.value >= MAX_SAFE_INTEGER { return false; }
        if (count == 0 && r.value != start) || r.value < nextOrdinal { return false; }
        nextOrdinal := r.value + 1;
      } else {
        if nextOrdinal + 1 > MAX_SAFE_INTEGER { return false; }
        nextOrdinal := nextOrdinal + 1;
      }
      count := count + 1;
      ok := true;
    }

    method Finish(end: Option<int>, ghost records: seq<Record>) returns (ok: bool)
      requires Accepted(records)
      ensures ok <==> end.None? || end.value == Next(records, start)
    {
      ok := end.None? || nextOrdinal == end.value;
    }
  }

  /** One more explicit ordinal. */
  lemma ExplicitsSnoc(before: seq<Record>, r: Record, start: nat)
    ensures Explicits(before + [r], start) <==>
            Explicits(before, start) && Usable(r) && (if before == [] then r.value == start else r.value >= Next(before, start))
    ensures before == [] ==> Explicits(before, start)
    ensures before != [] && Explicits(before, start) ==> before[0].Ordinal? && Next(before, start) >= 0
  {
    var all := before + [r];
    var n := |before|;
    assert forall i | 0 <= i < n :: all[i] == before[i];
    if Explicits(all, start) {
      assert all[n] == r;
      assert Explicits(before, start);
      if n > 0 { assert all[n - 1].value < all[n].value; }
    }
    if Explicits(before, start) && Usable(r) && n > 0 && r.value >= Next(before, start) {
      forall i, j | 0 <= i < j < |all|
        ensures all[i].value < all[j].value
      {
        if j == n && i < n - 1 { assert before[i].value < before[n - 1].value; }
      }
    }
  }

  /** One more record without an ordinal. */
  lemma CountedSnoc(before: seq<Record>, r: Record, start: nat)
    ensures Counted(before + [r], start) <==>
            r.NoOrdinal? && (forall i | 0 <= i < |before| :: before[i].NoOrdinal?) && start + |before| + 1 <= MAX_SAFE_INTEGER
  {
    var all := before + [r];
    assert forall i | 0 <= i < |before| :: all[i] == before[i];
    assert all[|before|] == r;
  }

  /** The two kinds exclude each other. */
  lemma KindOf(records: seq<Record>, start: nat)
    requires records != []
    ensures Explicits(records, start) ==> records[0].Ordinal?
    ensures Counted(records, start) ==> Next(records, start) == start + |records| <= MAX_SAFE_INTEGER && forall i | 0 <= i < |records| :: records[i].NoOrdinal?
  {
  }

  /** A whole segment is accepted iff it is acceptable and ends where it should. */
  method Validate(records: seq<Record>, start: nat, expected: Option<Mode>, previous: Option<Mode>, end: Option<int>)
    returns (ok: bool)
    requires start <= MAX_SAFE_INTEGER
    ensures ok <==> Acceptable(records, start, expected, previous) && (end.None? || end.value == Next(records, start))
  {
    var validator := new Validator(start, expected, previous);
    for i := 0 to |records|
      invariant validator.Accepted(records[..i]) && validator.start == start
      invariant validator.expected == expected && validator.previous == previous
    {
      assert records[..i + 1] == records[..i] + [records[i]];
      ok := validator.Add(records[i], records[..i]);
      if !ok {
        RefusedForGood(records, i + 1, start, expected, previous);
        return;
      }
    }
    assert records[..|records|] == records;
    ok := validator.Finish(end, records);
  }

  lemma RefusedForGood(records: seq<Record>, n: nat, start: nat, expected: Option<Mode>, previous: Option<Mode>)
    requires 0 < n <= |records|
    ensures Acceptable(records, start, expected, previous) ==> Acceptable(records[..n], start, expected, previous)
  {
  }
}
