/** The two record readers of `codex-history-window.ts`: one from the end of a segment backwards, one forwards. */
module HistoryWindow {
  import opened Basics
  import opened Lines

  datatype RecordSlice = RecordSlice(raw: seq<Byte>, startByte: nat, endByte: nat, terminated: bool)

  datatype Fault = ShortRead | ReadByteLimit | RecordByteLimit | ArchiveUnverified | BoundaryMismatch

  datatype Limits = Limits(maxRecordBytes: nat, maxReadBytes: nat)

  // ---- Reference: the non-empty lines of the bytes -------------------------------------------------

  function RecordOf(s: seq<Byte>, p: Span): RecordSlice
    requires p.start <= p.end <= |s|
  {
    RecordSlice(s[p.start..p.end], p.start, if p.terminated then p.end + 1 else p.end, p.terminated)
  }

  function RecordsOf(s: seq<Byte>, spans: seq<Span>): (r: seq<RecordSlice>)
    requires forall p | p in spans :: p.start <= p.end <= |s|
  {
    if spans == [] then []
    else (if spans[0].start < spans[0].end then [RecordOf(s, spans[0])] else []) + RecordsOf(s, spans[1..])
  }

  function RecordsFrom(s: seq<Byte>, start: nat): seq<RecordSlice>
    requires start <= |s|
  {
    RecordsOf(s, SpansFrom(s, start))
  }

  function Records(s: seq<Byte>): seq<RecordSlice> {
    RecordsFrom(s, 0)
  }

  predicate Fits(records: seq<RecordSlice>, maximum: nat) {
    forall r | r in records :: |r.raw| <= maximum
  }

  /** A record is exactly a non-empty line with its own bytes and offsets. */
  lemma {:induction false} RecordsOfMembers(s: seq<Byte>, spans: seq<Span>, r: RecordSlice)
    requires forall p | p in spans :: p.start <= p.end <= |s|
    ensures r in RecordsOf(s, spans) <==> exists p :: p in spans && p.start < p.end && r == RecordOf(s, p)
  {
    if spans != [] {
      RecordsOfMembers(s, spans[1..], r);
      if r in RecordsOf(s, spans[1..]) {
        var p :| p in spans[1..] && p.start < p.end && r == RecordOf(s, p);
        assert p in spans;
      }
      assert forall p :: p in spans <==> p == spans[0] || p in spans[1..];
    }
  }

  lemma RecordsAreTheNonEmptyLines(s: seq<Byte>, r: RecordSlice)
    ensures r in Records(s) <==> exists p :: IsLine(s, p) && p.start < p.end && r == RecordOf(s, p)
  {
    SpansAreTheLines(s, 0);
    RecordsOfMembers(s, Spans(s), r);
  }

  lemma RecordStep(s: seq<Byte>, a: nat, b: nat)
    requires a <= b <= |s| && NoLf(s, a, b) && (b < |s| ==> s[b] == LF)
    ensures RecordsFrom(s, a) ==
            (if a < b then [RecordSlice(s[a..b], a, if b < |s| then b + 1 else b, b < |s|)] else [])
            + if b < |s| then RecordsFrom(s, b + 1) else []
  {
    hide SpansFrom, NoLf, RecordsOf;
    SpanStep(s, a, b);
    RecordsOfNone(s);
    if b < |s| {
      assert SpansFrom(s, a) == [Span(a, b, true)] + SpansFrom(s, b + 1);
      RecordsOfCons(s, Span(a, b, true), SpansFrom(s, b + 1));
    } else if a < b {
      assert SpansFrom(s, a) == [Span(a, b, false)] + [];
      RecordsOfCons(s, Span(a, b, false), []);
    }
  }

  lemma RecordsOfCons(s: seq<Byte>, p: Span, rest: seq<Span>)
    requires p.start <= p.end <= |s| && forall q | q in rest :: q.start <= q.end <= |s|
    ensures forall q | q in [p] + rest :: q.start <= q.end <= |s|
    ensures RecordsOf(s, [p] + rest) == (if p.start < p.end then [RecordOf(s, p)] else []) + RecordsOf(s, rest)
  {
    hide RecordOf;
    assert ([p] + rest)[1..] == rest;
  }

  lemma RecordsOfNone(s: seq<Byte>)
    ensures RecordsOf(s, []) == []
  {
  }

  lemma {:induction false} RecordsOfSplit(s: seq<Byte>, x: seq<Span>, y: seq<Span>)
    requires forall p | p in x + y :: p.start <= p.end <= |s|
    ensures forall p | p in x :: p in x + y
    ensures forall p | p in y :: p in x + y
    ensures RecordsOf(s, x + y) == RecordsOf(s, x) + RecordsOf(s, y)
  {
    hide RecordOf;
    assert forall p | p in x :: p in x + y;
    assert forall p | p in y :: p in x + y;
    if x == [] {
      assert x + y == y;
    } else {
      assert (x + y)[1..] == x[1..] + y;
      RecordsOfSplit(s, x[1..], y);
    }
  }

  /** From any line start on, the records are a suffix of all the records. */
  lemma RecordsCut(s: seq<Byte>, b: nat) returns (before: seq<RecordSlice>)
    requires LineStart(s, b)
    ensures Records(s) == before + RecordsFrom(s, b)
  {
    SpansCut(s, 0, b);
    var k := |Spans(s)| - |SpansFrom(s, b)|;
    assert Spans(s) == Spans(s)[..k] + SpansFrom(s, b);
    RecordsOfSplit(s, Spans(s)[..k], SpansFrom(s, b));
    before := RecordsOf(s, Spans(s)[..k]);
  }

  /** A stretch without LF up to a line end lies inside one record. */
  lemma {:induction false} CoveringRecord(s: seq<Byte>, start: nat, q: nat, lineEnd: nat)
    requires start <= q < lineEnd <= |s| && NoLf(s, q, lineEnd) && (lineEnd < |s| ==> s[lineEnd] == LF)
    ensures exists r :: r in RecordsFrom(s, start) && |r.raw| >= lineEnd - q
    decreases |s| - start
  {
    hide RecordsFrom;
    var end := NextLf(s, start);
    RecordStep(s, start, end);
    if end < q {
      CoveringRecord(s, end + 1, q, lineEnd);
      var r :| r in RecordsFrom(s, end + 1) && |r.raw| >= lineEnd - q;
      assert r in RecordsFrom(s, start);
    } else {
      assert end == lineEnd;
      assert RecordsFrom(s, start)[0].raw == s[start..end];
    }
  }

  // ---- The backward reader -------------------------------------------------------------------------

  /** The local state of the backward generator: the pieces of the line under the cursor, last piece first. */
  datatype Behind = Behind(parts: seq<seq<Byte>>, length: nat, endByte: nat, terminated: bool, yielded: seq<RecordSlice>)

  /** The bytes from `from` to `lineEnd` hold no LF, those from `right` on are kept, and everything after the line
      has been yielded. */
  ghost predicate Scanned(s: seq<Byte>, st: Behind, from: nat, right: nat, lineEnd: nat, maximum: nat) {
    && from <= right <= lineEnd <= st.endByte <= |s| && NoLf(s, from, lineEnd)
    && (if st.terminated then st.endByte == lineEnd + 1 && s[lineEnd] == LF else lineEnd == st.endByte == |s|)
    && Joined(st.parts) == s[right..lineEnd] && st.length == lineEnd - right <= maximum
    && st.yielded == Reversed(RecordsFrom(s, st.endByte)) && Fits(st.yielded, maximum)
  }

  /** Pieces were pushed back to front. */
  function Joined(parts: seq<seq<Byte>>): seq<Byte> {
    Flatten(Reversed(parts))
  }

  lemma JoinedPush(parts: seq<seq<Byte>>, piece: seq<Byte>)
    ensures Joined(parts + [piece]) == piece + Joined(parts)
  {
    ReversedAppend(parts, [piece]);
    assert Reversed([piece]) == [piece];
  }

  lemma PrependRecord(s: seq<Byte>, a: nat, lineEnd: nat, endByte: nat, terminated: bool)
    requires a <= lineEnd <= endByte <= |s| && NoLf(s, a, lineEnd)
    requires if terminated then endByte == lineEnd + 1 && s[lineEnd] == LF else lineEnd == endByte == |s|
    ensures Reversed(RecordsFrom(s, a)) == Reversed(RecordsFrom(s, endByte))
            + if a < lineEnd then [RecordSlice(s[a..lineEnd], a, endByte, terminated)] else []
  {
    RecordStep(s, a, lineEnd);
    if !terminated {
      RecordStep(s, endByte, endByte);
      assert RecordsFrom(s, endByte) == [];
    }
    var own := if a < lineEnd then [RecordSlice(s[a..lineEnd], a, endByte, terminated)] else [];
    assert RecordsFrom(s, a) == own + RecordsFrom(s, endByte);
    assert Reversed(own) == own;
    ReversedAppend(own, RecordsFrom(s, endByte));
  }

  lemma PrefixOfReversed(s: seq<Byte>, b: nat)
    requires LineStart(s, b) || b == |s|
    ensures Reversed(RecordsFrom(s, b)) <= Reversed(Records(s))
  {
    if LineStart(s, b) {
      var before := RecordsCut(s, b);
      ReversedAppend(before, RecordsFrom(s, b));
    } else {
      RecordStep(s, b, b);
    }
  }

  /** A line whose kept part is already too long makes the read fail and leaves a prefix yielded. */
  lemma TooLong(s: seq<Byte>, a: nat, lineEnd: nat, endByte: nat, terminated: bool, maximum: nat)
    requires a <= lineEnd <= endByte <= |s| && NoLf(s, a, lineEnd) && lineEnd - a > maximum
    requires if terminated then endByte == lineEnd + 1 && s[lineEnd] == LF else lineEnd == endByte == |s|
    ensures !Fits(Records(s), maximum) && Reversed(RecordsFrom(s, endByte)) <= Reversed(Records(s))
  {
    CoveringRecord(s, 0, a, lineEnd);
    PrefixOfReversed(s, endByte);
  }

  /** Puts a piece in front of the kept bytes; an empty piece is not stored. */
  function Push(st: Behind, piece: seq<Byte>): (r: Behind)
    ensures Joined(r.parts) == piece + Joined(st.parts) && r.length == st.length + |piece|
    ensures r.endByte == st.endByte && r.terminated == st.terminated && r.yielded == st.yielded
  {
    JoinedPush(st.parts, piece);
    if |piece| > 0 then st.(parts := st.parts + [piece], length := st.length + |piece|) else st
  }

  /** The LF in front of the line was found: the line is yielded unless it is empty, and the next one starts. */
  function Close(st: Behind, lineStart: nat): Behind {
    Behind([], 0, lineStart, true,
           if st.length > 0 then st.yielded + [RecordSlice(Joined(st.parts), lineStart, st.endByte, st.terminated)]
           else st.yielded)
  }

  lemma PushKeeps(s: seq<Byte>, st: Behind, from: nat, right: nat, lineEnd: nat, maximum: nat, piece: seq<Byte>)
    requires Scanned(s, st, from, right, lineEnd, maximum) && piece == s[from..right]
    ensures Push(st, piece).length <= maximum ==> Scanned(s, Push(st, piece), from, from, lineEnd, maximum)
    ensures Push(st, piece).length > maximum ==>
              !Fits(Records(s), maximum) && st.yielded <= Reversed(Records(s))
  {
    Glue(s, from, right, lineEnd);
    if Push(st, piece).length > maximum {
      TooLong(s, from, lineEnd, st.endByte, st.terminated, maximum);
    }
  }

  lemma CloseKeeps(s: seq<Byte>, st: Behind, k: nat, lineEnd: nat, maximum: nat)
    requires Scanned(s, st, k + 1, k + 1, lineEnd, maximum) && s[k] == LF
    ensures Scanned(s, Close(st, k + 1), k, k, k, maximum)
  {
    PrependRecord(s, k + 1, lineEnd, st.endByte, st.terminated);
  }

  /** One block, from its last byte to its first. The block is the view of the file from `start` to `cursor`. */
  method ScanBlock(s: seq<Byte>, start: nat, cursor: nat, before: Behind, maximum: nat, ghost lineEnd0: nat)
    returns (st: Behind, tooLong: bool, ghost lineEnd: nat)
    requires start <= cursor && Scanned(s, before, cursor, cursor, lineEnd0, maximum)
    ensures !tooLong ==> Scanned(s, st, start, start, lineEnd, maximum)
    ensures tooLong ==> !Fits(Records(s), maximum) && st.yielded <= Reversed(Records(s))
  {
    st, tooLong, lineEnd := before, false, lineEnd0;
    var right := cursor;
    var index := cursor;
    while index > start
      invariant start <= index <= right <= cursor
      invariant Scanned(s, st, index, right, lineEnd, maximum)
    {
      index := index - 1;
      if s[index] != LF { continue; }
      PushKeeps(s, st, index + 1, right, lineEnd, maximum, s[index + 1..right]);
      st := Push(st, s[index + 1..right]);
      if st.length > maximum {
        tooLong := true;
        return;
      }
      CloseKeeps(s, st, index, lineEnd, maximum);
      st := Close(st, index + 1);
      right := index;
      lineEnd := index;
    }
    PushKeeps(s, st, start, right, lineEnd, maximum, s[start..right]);
    st := Push(st, s[start..right]);
    tooLong := st.length > maximum;
  }

  /** Reads the first `end` bytes of `file` backwards in blocks of `block` bytes. */
  method ReverseRecords(file: seq<Byte>, end: nat, block: nat, limits: Limits, alreadyRead: nat)
    returns (yielded: seq<RecordSlice>, fault: Option<Fault>, bytesRead: nat)
    requires block > 0
    ensures fault.None? <==>
            (end <= |file| && (end > 0 ==> alreadyRead + end <= limits.maxReadBytes)
             && Fits(Records(file[..end]), limits.maxRecordBytes))
    ensures fault.None? ==> yielded == Reversed(Records(file[..end])) && bytesRead == alreadyRead + end
    ensures end <= |file| ==> yielded <= Reversed(Records(file[..end]))
    ensures end > |file| <==> fault == Some(ShortRead)
    ensures fault == Some(ShortRead) ==> yielded == []
    ensures fault == Some(ReadByteLimit) ==> alreadyRead + end > limits.maxReadBytes
    ensures fault == Some(RecordByteLimit) ==> end <= |file| && !Fits(Records(file[..end]), limits.maxRecordBytes)
    ensures fault != Some(ArchiveUnverified) && fault != Some(BoundaryMismatch)
  {
    hide Scanned, Records, Reversed, Fits, Joined;
    fault, bytesRead := None, alreadyRead;
    var cursor: nat := end;
    var st := Behind([], 0, cursor, false, []);
    ghost var lineEnd: nat := end;
    ghost var s := if end <= |file| then file[..end] else file;
    ScannedAtEnd(s, limits.maxRecordBytes);
    while cursor > 0
      invariant cursor <= end && (end > |file| ==> cursor == end && st.yielded == [])
      invariant end <= |file| ==> s == file[..end] && Scanned(s, st, cursor, cursor, lineEnd, limits.maxRecordBytes)
      invariant bytesRead == alreadyRead + (end - cursor)
      invariant cursor < end ==> bytesRead <= limits.maxReadBytes
    {
      var start := if cursor > block then cursor - block else 0;
      if cursor > |file| {
        return st.yielded, Some(ShortRead), bytesRead;
      }
      bytesRead := bytesRead + (cursor - start);
      ScannedYields(s, st, cursor, cursor, lineEnd, limits.maxRecordBytes);
      if bytesRead > limits.maxReadBytes {
        return st.yielded, Some(ReadByteLimit), bytesRead;
      }
      var tooLong;
      st, tooLong, lineEnd := ScanBlock(file[..end], start, cursor, st, limits.maxRecordBytes, lineEnd);
      if tooLong {
        return st.yielded, Some(RecordByteLimit), bytesRead;
      }
      cursor := start;
    }
    yielded := st.yielded;
    if st.length > 0 {
      yielded := yielded + [RecordSlice(Joined(st.parts), 0, st.endByte, st.terminated)];
    }
    if end <= |file| { ScannedAll(s, st, lineEnd, limits.maxRecordBytes); }
  }

  lemma ScannedAtEnd(s: seq<Byte>, maximum: nat)
    ensures Scanned(s, Behind([], 0, |s|, false, []), |s|, |s|, |s|, maximum)
  {
    RecordStep(s, |s|, |s|);
  }

  lemma ScannedYields(s: seq<Byte>, st: Behind, from: nat, right: nat, lineEnd: nat, maximum: nat)
    requires Scanned(s, st, from, right, lineEnd, maximum)
    ensures st.yielded <= Reversed(Records(s))
  {
    hide RecordsFrom, Records;
    PrefixOfReversed(s, st.endByte);
  }

  lemma ScannedAll(s: seq<Byte>, st: Behind, lineEnd: nat, maximum: nat)
    requires Scanned(s, st, 0, 0, lineEnd, maximum)
    ensures Fits(Records(s), maximum)
    ensures Reversed(Records(s)) == if st.length > 0 then st.yielded + [RecordSlice(Joined(st.parts), 0, st.endByte, st.terminated)]
                                    else st.yielded
  {
    hide RecordsFrom;
    PrependRecord(s, 0, lineEnd, st.endByte, st.terminated);
    ReversedMembers(Records(s));
  }

  // ---- The forward reader --------------------------------------------------------------------------

  function Sum(sizes: seq<nat>): nat {
    if sizes == [] then 0 else sizes[0] + Sum(sizes[1..])
  }

  lemma {:induction false} SumSnoc(sizes: seq<nat>, i: nat)
    requires i < |sizes|
    ensures Sum(sizes[..i + 1]) == Sum(sizes[..i]) + sizes[i] <= Sum(sizes)
  {
    if i > 0 {
      assert sizes[..i + 1][1..] == sizes[1..][..i] && sizes[..i][1..] == sizes[1..][..i - 1];
      SumSnoc(sizes[1..], i - 1);
    } else {
      assert sizes[..1] == [sizes[0]] && sizes[..0] == [];
      assert Sum(sizes[..1]) == sizes[0] + Sum([]);
    }
  }

  /** The bytes of a segment: everything the stream delivers, cut at the adopted end when there is one. */
  function Adopted(input: seq<Byte>, endByte: Option<nat>): seq<Byte> {
    if endByte.Some? && endByte.value < |input| then input[..endByte.value] else input
  }

  /** The local state of the forward generator: the line that started at `byte` is kept in `parts`. */
  datatype Ahead = Ahead(parts: seq<seq<Byte>>, length: nat, byte: nat, yielded: seq<RecordSlice>)

  ghost predicate Kept(s: seq<Byte>, st: Ahead, kept: nat, pos: nat, maximum: nat) {
    && st.byte <= kept <= pos <= |s| && NoLf(s, st.byte, pos)
    && Flatten(st.parts) == s[st.byte..kept] && st.length == kept - st.byte <= maximum
    && Records(s) == st.yielded + RecordsFrom(s, st.byte) && Fits(st.yielded, maximum)
  }

  /** Puts a piece behind the kept bytes. */
  function Append(st: Ahead, piece: seq<Byte>): (r: Ahead)
    ensures Flatten(r.parts) == Flatten(st.parts) + piece && r.length == st.length + |piece|
    ensures r.byte == st.byte && r.yielded == st.yielded
  {
    FlattenAppend(st.parts, [piece]);
    assert Flatten([piece]) == piece;
    st.(parts := st.parts + [piece], length := st.length + |piece|)
  }

  function Finish(st: Ahead, raw: seq<Byte>): Ahead {
    Ahead([], 0, st.byte + |raw| + 1,
          if |raw| > 0 then st.yielded + [RecordSlice(raw, st.byte, st.byte + |raw| + 1, true)] else st.yielded)
  }

  lemma AppendKeeps(s: seq<Byte>, st: Ahead, kept: nat, pos: nat, maximum: nat)
    requires Kept(s, st, kept, pos, maximum)
    ensures Flatten(Append(st, s[kept..pos]).parts) == s[st.byte..pos]
    ensures st.length + (pos - kept) <= maximum ==> Kept(s, Append(st, s[kept..pos]), pos, pos, maximum)
    ensures st.length + (pos - kept) > maximum ==> !Fits(Records(s), maximum)
  {
    Glue(s, st.byte, kept, pos);
    if st.length + (pos - kept) > maximum {
      var end := NextLf(s, st.byte);
      CoveringRecord(s, st.byte, st.byte, end);
    }
  }

  lemma FitsSnoc(records: seq<RecordSlice>, record: RecordSlice, maximum: nat)
    requires Fits(records, maximum) && |record.raw| <= maximum
    ensures Fits(records + [record], maximum)
  {
  }

  /** A byte that is no LF stays part of the line. */
  lemma KeptAdvances(s: seq<Byte>, st: Ahead, kept: nat, pos: nat, maximum: nat)
    requires Kept(s, st, kept, pos, maximum) && pos < |s| && s[pos] != LF
    ensures Kept(s, st, kept, pos + 1, maximum)
  {
  }

  lemma KeptAtStart(s: seq<Byte>, maximum: nat)
    ensures Kept(s, Ahead([], 0, 0, []), 0, 0, maximum)
  {
    assert [] + RecordsFrom(s, 0) == Records(s);
  }

  lemma KeptYields(s: seq<Byte>, st: Ahead, kept: nat, pos: nat, maximum: nat)
    requires Kept(s, st, kept, pos, maximum)
    ensures st.yielded <= Records(s) && st.byte <= kept <= pos <= |s| && st.length <= maximum
  {
  }

  lemma FinishKeeps(s: seq<Byte>, st: Ahead, pos: nat, maximum: nat)
    requires Kept(s, st, pos, pos, maximum) && pos < |s| && s[pos] == LF
    ensures Kept(s, Finish(st, s[st.byte..pos]), pos + 1, pos + 1, maximum)
  {
    hide Fits, RecordsFrom;
    RecordStep(s, st.byte, pos);
    var record := RecordSlice(s[st.byte..pos], st.byte, pos + 1, true);
    FitsSnoc(st.yielded, record, maximum);
    assert st.yielded + [record] + RecordsFrom(s, pos + 1) == st.yielded + ([record] + RecordsFrom(s, pos + 1));
    assert st.yielded + ([] + RecordsFrom(s, pos + 1)) == st.yielded + RecordsFrom(s, pos + 1);
    assert s[pos + 1..pos + 1] == [];
  }

  /** One block, the view of the adopted bytes from `start` to `cursor`. */
  method ScanAhead(s: seq<Byte>, start: nat, cursor: nat, before: Ahead, maximum: nat)
    returns (st: Ahead, tooLong: bool)
    requires start <= cursor <= |s| && Kept(s, before, start, start, maximum)
    ensures !tooLong ==> Kept(s, st, cursor, cursor, maximum)
    ensures tooLong ==> !Fits(Records(s), maximum) && st.yielded <= Records(s)
  {
    hide Kept, Append, Fits, NoLf, RecordsFrom;
    st, tooLong := before, false;
    var left := start;
    var index := start;
    while index < cursor
      invariant start <= left <= index <= cursor
      invariant Kept(s, st, left, index, maximum)
    {
      if s[index] == LF {
        KeptYields(s, st, left, index, maximum);
        AppendKeeps(s, st, left, index, maximum);
        var line := Append(st, s[left..index]);
        if line.length > maximum {
          tooLong := true;
          return;
        }
        FinishKeeps(s, line, index, maximum);
        st := Finish(st, Flatten(line.parts));
        left := index + 1;
      } else {
        KeptAdvances(s, st, left, index, maximum);
      }
      index := index + 1;
    }
    KeptYields(s, st, left, cursor, maximum);
    AppendKeeps(s, st, left, cursor, maximum);
    if left < cursor {
      st := Append(st, s[left..cursor]);
    }
    tooLong := st.length > maximum;
  }

  /** Reads the bytes that the stream delivers in blocks of the given sizes. */
  method ForwardRecords(input: seq<Byte>, sizes: seq<nat>, endByte: Option<nat>, compressed: bool, archiveComplete: bool,
                        limits: Limits, alreadyRead: nat)
    returns (yielded: seq<RecordSlice>, fault: Option<Fault>, bytesRead: nat)
    requires Sum(sizes) == |input| && forall n | n in sizes :: n > 0
    ensures fault.None? <==>
            (&& (input != [] ==> alreadyRead + |input| <= limits.maxReadBytes)
             && Fits(Records(Adopted(input, endByte)), limits.maxRecordBytes)
             && (compressed ==> archiveComplete)
             && (endByte.Some? ==> |input| >= endByte.value))
    ensures fault.None? ==> yielded == Records(Adopted(input, endByte)) && bytesRead == alreadyRead + |input|
    ensures yielded <= Records(Adopted(input, endByte))
    ensures fault == Some(ReadByteLimit) ==> alreadyRead + |input| > limits.maxReadBytes
    ensures fault == Some(RecordByteLimit) ==> !Fits(Records(Adopted(input, endByte)), limits.maxRecordBytes)
    ensures var wholeRead := (input != [] ==> alreadyRead + |input| <= limits.maxReadBytes)
                             && Fits(Records(Adopted(input, endByte)), limits.maxRecordBytes);
            && (fault == Some(ArchiveUnverified) <==> wholeRead && compressed && !archiveComplete)
            && (fault == Some(BoundaryMismatch) <==>
                  wholeRead && (compressed ==> archiveComplete) && endByte.Some? && |input| < endByte.value)
    ensures fault != Some(ShortRead)
  {
    hide Kept, Records, RecordsFrom, Fits, NoLf;
    fault, bytesRead := None, alreadyRead;
    var s := Adopted(input, endByte);
    KeptAtStart(s, limits.maxRecordBytes);
    var st := Ahead([], 0, 0, []);
    var consumed: nat := 0;
    var i := 0;
    while i < |sizes|
      invariant 0 <= i <= |sizes| && consumed == Sum(sizes[..i]) <= |input| && (i > 0 ==> consumed > 0)
      invariant Kept(s, st, Min(consumed, |s|), Min(consumed, |s|), limits.maxRecordBytes)
      invariant bytesRead == alreadyRead + consumed && (i > 0 ==> bytesRead <= limits.maxReadBytes)
    {
      SumSnoc(sizes, i);
      assert sizes[i] in sizes;
      KeptYields(s, st, Min(consumed, |s|), Min(consumed, |s|), limits.maxRecordBytes);
      bytesRead := bytesRead + sizes[i];
      if bytesRead > limits.maxReadBytes {
        return st.yielded, Some(ReadByteLimit), bytesRead;
      }
      var from := consumed;
      consumed := consumed + sizes[i];
      var tooLong;
      st, tooLong := ScanAhead(s, Min(from, |s|), Min(consumed, |s|), st, limits.maxRecordBytes);
      if tooLong {
        return st.yielded, Some(RecordByteLimit), bytesRead;
      }
      i := i + 1;
    }
    assert sizes[..i] == sizes;
    LastRecord(s, st, limits.maxRecordBytes);
    yielded := if st.length > 0 then st.yielded + [RecordSlice(Flatten(st.parts), st.byte, st.byte + st.length, false)]
               else st.yielded;
    if compressed && !archiveComplete {
      fault := Some(ArchiveUnverified);
    } else if endByte.Some? && st.byte + st.length != endByte.value {
      fault := Some(BoundaryMismatch);
    }
  }

  lemma LastRecord(s: seq<Byte>, st: Ahead, maximum: nat)
    requires Kept(s, st, |s|, |s|, maximum)
    ensures Fits(Records(s), maximum) && st.byte + st.length == |s|
    ensures Records(s) == if st.length > 0
                          then st.yielded + [RecordSlice(Flatten(st.parts), st.byte, st.byte + st.length, false)]
                          else st.yielded
  {
    RecordStep(s, st.byte, |s|);
  }

  /** Walking back and forth over the same bytes gives the same records. */
  lemma {:induction false} ReversedTwice<T>(s: seq<T>)
    ensures Reversed(Reversed(s)) == s
  {
    if s != [] {
      ReversedTwice(s[1..]);
      ReversedAppend(Reversed(s[1..]), [s[0]]);
      assert Reversed([s[0]]) == [s[0]];
    }
  }

  /** What the file stream of the forward reader delivers for a segment that ends at `end`: its range includes its last
      byte, so that an empty segment of a file that is not empty still brings one byte. */
  function Delivered(file: seq<Byte>, end: nat): seq<Byte> {
    file[..Min(|file|, Max(1, end))]
  }

  /** Both readers over the same segment of a plain file: the adopted bytes, or else the size the file had. Inside the
      file they fail together, and when both succeed, the one yields what the other yields in reverse, unless the file was
      empty when its size was taken and has since begun with a record. */
  method ReadBothWays(file: seq<Byte>, size: nat, endByte: Option<nat>, block: nat, sizes: seq<nat>, limits: Limits, alreadyRead: nat)
    returns (backward: seq<RecordSlice>, forward: seq<RecordSlice>, backwardFault: Option<Fault>, forwardFault: Option<Fault>)
    requires block > 0
    requires Sum(sizes) == |Delivered(file, endByte.GetOr(size))| && forall n | n in sizes :: n > 0
    ensures 0 < endByte.GetOr(size) <= |file| ==> (backwardFault.None? <==> forwardFault.None?)
    ensures backwardFault.None? && forwardFault.None? ==>
              (Reversed(backward) == forward <==> !(endByte.None? && size == 0 && file != [] && file[0] != LF))
  {
    hide Records, Fits, Reversed;
    var end := endByte.GetOr(size);
    var input := Delivered(file, end);
    var read;
    backward, backwardFault, read := ReverseRecords(file, end, block, limits, alreadyRead);
    forward, forwardFault, read := ForwardRecords(input, sizes, endByte, false, false, limits, alreadyRead);
    if end <= |file| {
      ReversedTwice(Records(file[..end]));
      if end > 0 || endByte == Some(0) {
        assert Adopted(input, endByte) == file[..end];
      } else {
        RecordsOfOne(input);
      }
    }
  }

  /** The records of at most one byte. */
  lemma RecordsOfOne(s: seq<Byte>)
    requires |s| <= 1
    ensures Records([]) == [] && (Records(s) == [] <==> s == [] || s[0] == LF)
  {
    RecordStep([], 0, 0);
    if |s| == 1 && s[0] != LF {
      RecordStep(s, 0, 1);
    } else {
      RecordStep(s, 0, 0);
      if s != [] { RecordStep(s, 1, 1); }
    }
  }
}
