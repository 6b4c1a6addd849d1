/** Byte sequences cut at LF: the one reference that every line reader of the project is proved against,
    whichever direction it walks in and however its input is cut into blocks. */
module Lines {

  type Byte = b: int | 0 <= b < 256

  const LF: Byte := 10

  /** A line as a half-open range of byte positions, without its LF. */
  datatype Span = Span(start: nat, end: nat, terminated: bool)

  function Flatten<T>(parts: seq<seq<T>>): (r: seq<T>) {
    if parts == [] then [] else parts[0] + Flatten(parts[1..])
  }

  function Reversed<T>(s: seq<T>): (r: seq<T>)
    ensures |r| == |s|
  {
    if s == [] then [] else Reversed(s[1..]) + [s[0]]
  }

  lemma {:induction false} FlattenAppend<T>(parts: seq<seq<T>>, more: seq<seq<T>>)
    ensures Flatten(parts + more) == Flatten(parts) + Flatten(more)
  {
    if parts == [] {
      assert parts + more == more;
    } else {
      assert (parts + more)[1..] == parts[1..] + more;
      FlattenAppend(parts[1..], more);
    }
  }

  lemma FlattenSnoc<T>(parts: seq<seq<T>>, i: nat)
    requires i < |parts|
    ensures Flatten(parts[..i + 1]) == Flatten(parts[..i]) + parts[i]
  {
    assert parts[..i + 1] == parts[..i] + [parts[i]];
    FlattenAppend(parts[..i], [parts[i]]);
    assert Flatten([parts[i]]) == parts[i];
  }

  lemma {:induction false} ReversedAppend<T>(a: seq<T>, b: seq<T>)
    ensures Reversed(a + b) == Reversed(b) + Reversed(a)
  {
    if a == [] {
      assert a + b == b;
    } else {
      assert (a + b)[1..] == a[1..] + b;
      ReversedAppend(a[1..], b);
    }
  }

  lemma {:induction false} ReversedIndex<T>(s: seq<T>, k: nat)
    requires k < |s|
    ensures Reversed(s)[k] == s[|s| - 1 - k]
  {
    if k < |s| - 1 {
      ReversedIndex(s[1..], k);
    }
  }

  lemma {:induction false} ReversedMembers<T>(s: seq<T>)
    ensures forall x :: x in Reversed(s) <==> x in s
  {
    if s != [] {
      ReversedMembers(s[1..]);
      assert forall x :: x in s <==> x == s[0] || x in s[1..];
    }
  }

  lemma SliceOfSlice<T>(s: seq<T>, a: nat, b: nat, i: nat, j: nat)
    requires a <= b <= |s| && i <= j <= b - a
    ensures s[a..b][i..j] == s[a + i..a + j]
  {
    var whole := s[a..b];
    forall k | 0 <= k < j - i
      ensures whole[i..j][k] == s[a + i..a + j][k]
    {
      assert whole[i..j][k] == whole[i + k] == s[a + (i + k)];
      assert s[a + i..a + j][k] == s[(a + i) + k];
    }
  }

  lemma Glue<T>(s: seq<T>, a: nat, b: nat, c: nat)
    requires a <= b <= c <= |s|
    ensures s[a..b] + s[b..c] == s[a..c]
  {
  }

  predicate NoLf(s: seq<Byte>, from: nat, to: nat)
    requires from <= to <= |s|
  {
    forall k | from <= k < to :: s[k] != LF
  }

  /** The first LF at or after `from`, or the length when there is none. */
  function NextLf(s: seq<Byte>, from: nat): (i: nat)
    requires from <= |s|
    ensures from <= i <= |s| && NoLf(s, from, i)
    ensures i < |s| ==> s[i] == LF
    decreases |s| - from
  {
    if from == |s| || s[from] == LF then from else NextLf(s, from + 1)
  }

  /** The lines of `s` from position `start` on. A last line without LF counts only when it is not empty. */
  function SpansFrom(s: seq<Byte>, start: nat): (spans: seq<Span>)
    requires start <= |s|
    ensures forall p | p in spans :: start <= p.start <= p.end <= |s|
    decreases |s| - start
  {
    var end := NextLf(s, start);
    if end < |s| then [Span(start, end, true)] + SpansFrom(s, end + 1)
    else if start < end then [Span(start, end, false)]
    else []
  }

  function Spans(s: seq<Byte>): (spans: seq<Span>)
    ensures forall p | p in spans :: p.start <= p.end <= |s|
  {
    SpansFrom(s, 0)
  }

  /** What it means for a range to be a line of `s`, without walking `s` in any direction. */
  predicate IsLine(s: seq<Byte>, p: Span) {
    && p.start <= p.end <= |s|
    && (p.start == 0 || s[p.start - 1] == LF)
    && NoLf(s, p.start, p.end)
    && if p.terminated then p.end < |s| && s[p.end] == LF else p.start < p.end == |s|
  }

  predicate LineStart(s: seq<Byte>, at: nat) {
    at <= |s| && (at == 0 || s[at - 1] == LF)
  }

  /** A range without LF that ends at an LF or at the end is the first line from its start. */
  lemma SpanStep(s: seq<Byte>, a: nat, b: nat)
    requires a <= b <= |s| && NoLf(s, a, b) && (b < |s| ==> s[b] == LF)
    ensures SpansFrom(s, a) ==
            if b < |s| then [Span(a, b, true)] + SpansFrom(s, b + 1)
            else if a < b then [Span(a, b, false)] else []
  {
    assert NextLf(s, a) == b;
  }

  /** A line that starts at or after a line start is the first line from there or lies behind its LF. */
  lemma FirstLineOrLater(s: seq<Byte>, start: nat, p: Span)
    requires LineStart(s, start) && IsLine(s, p) && start <= p.start
    ensures var end := NextLf(s, start);
            p == Span(start, end, end < |s|) || (end < |s| && end + 1 <= p.start)
  {
    if p.start > NextLf(s, start) {
      assert NextLf(s, start) < |s|;
    }
  }

  lemma {:induction false} ListedIffLine(s: seq<Byte>, start: nat, p: Span)
    requires LineStart(s, start)
    ensures p in SpansFrom(s, start) <==> IsLine(s, p) && start <= p.start
    decreases |s| - start
  {
    var end := NextLf(s, start);
    if IsLine(s, p) && start <= p.start {
      FirstLineOrLater(s, start, p);
    }
    if end < |s| {
      ListedIffLine(s, end + 1, p);
    }
  }

  lemma {:induction false} SpansAscend(s: seq<Byte>, start: nat)
    requires start <= |s|
    ensures Ascending(SpansFrom(s, start))
    decreases |s| - start
  {
    hide NoLf;
    var end := NextLf(s, start);
    if end < |s| {
      SpansAscend(s, end + 1);
      AscendingCons(Span(start, end, true), SpansFrom(s, end + 1));
    }
  }

  /** The list holds exactly the lines of `s`, each once, in file order. */
  lemma SpansAreTheLines(s: seq<Byte>, start: nat)
    requires LineStart(s, start)
    ensures forall p :: p in SpansFrom(s, start) <==> IsLine(s, p) && start <= p.start
    ensures Ascending(SpansFrom(s, start))
  {
    hide IsLine, SpansFrom, Ascending;
    SpansAscend(s, start);
    forall p
      ensures p in SpansFrom(s, start) <==> IsLine(s, p) && start <= p.start
    {
      ListedIffLine(s, start, p);
    }
  }

  predicate Ascending(spans: seq<Span>) {
    forall i, j | 0 <= i < j < |spans| :: spans[i].end < spans[j].start
  }

  lemma AscendingCons(first: Span, rest: seq<Span>)
    requires Ascending(rest) && forall p | p in rest :: first.end < p.start
    ensures Ascending([first] + rest)
  {
    var spans := [first] + rest;
    forall i, j | 0 <= i < j < |spans|
      ensures spans[i].end < spans[j].start
    {
      assert spans[j] == rest[j - 1];
      if i > 0 { assert spans[i] == rest[i - 1]; }
    }
  }

  /** Every line start cuts the list of lines in two. */
  lemma {:induction false} SpansCut(s: seq<Byte>, a: nat, b: nat)
    requires a <= b && LineStart(s, b) && a <= |s|
    requires LineStart(s, a)
    ensures |SpansFrom(s, b)| <= |SpansFrom(s, a)|
    ensures SpansFrom(s, a)[|SpansFrom(s, a)| - |SpansFrom(s, b)|..] == SpansFrom(s, b)
    decreases b - a
  {
    if a < b {
      var end := NextLf(s, a);
      assert s[b - 1] == LF;
      assert end <= b - 1;
      SpansCut(s, end + 1, b);
      var rest := SpansFrom(s, end + 1);
      assert SpansFrom(s, a) == [Span(a, end, true)] + rest;
    }
  }
}
