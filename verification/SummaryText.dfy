/** The text side of the summary write-back: cutting a memory file at its front matter, dropping the two summary fields,
    writing them anew, and reading them back. A file is the list of its lines, cut at LF, the only line terminator. */
module SummaryText {
  import opened Basics

  /** A line without its LF. The last line of a file that ends in LF is empty. */
  type Line = string

  const MARK: Line := "---"
  const SUMMARY: string := "autoSummary"
  const PROVENANCE: string := "autoSummaryProvenance"

  /** A file from its first mark on: the lines between the marks, and the closing mark with all that follows. */
  datatype Parts = Parts(metadata: seq<Line>, suffix: seq<Line>)

  predicate NoMark(lines: seq<Line>, from: nat, end: nat)
    requires from <= end <= |lines|
  {
    forall k | from <= k < end :: lines[k] != MARK
  }

  /** The first mark at or behind a position. */
  function NextMark(lines: seq<Line>, i: nat): (j: nat)
    requires i <= |lines|
    ensures i <= j <= |lines| && NoMark(lines, i, j) && (j < |lines| ==> lines[j] == MARK)
    decreases |lines| - i
  {
    if i == |lines| || lines[i] == MARK then i else NextMark(lines, i + 1)
  }

  /** `splitAutoSummaryFile`: a mark with a line end, anywhere in the file, and the next mark behind it. */
  function SplitFile(lines: seq<Line>): Option<Parts> {
    var opening := NextMark(lines, 0);
    if opening + 1 >= |lines| then None
    else
      var closing := NextMark(lines, opening + 1);
      if closing == |lines| then None else Some(Parts(lines[opening + 1..closing], lines[closing..]))
  }

  predicate Continues(line: Line) { line != "" && (line[0] == ' ' || line[0] == '\t') }

  predicate Starts(line: Line, key: string) { key + ":" <= line }

  predicate IsField(line: Line, keys: set<string>) {
    exists k :: k in keys && Starts(line, k)
  }

  /** The lines behind the continuation of a field. */
  function Behind(lines: seq<Line>): (rest: seq<Line>)
    ensures |rest| <= |lines| && forall l | l in rest :: l in lines
  {
    if lines != [] && Continues(lines[0]) then Behind(lines[1..]) else lines
  }

  /** The replacement that drops every field with one of the keys, continuation lines included. */
  function Without(lines: seq<Line>, keys: set<string>): (kept: seq<Line>)
    ensures forall l | l in kept :: l in lines && !IsField(l, keys)
    decreases |lines|
  {
    if lines == [] then []
    else if IsField(lines[0], keys) then Without(Behind(lines[1..]), keys)
    else [lines[0]] + Without(lines[1..], keys)
  }

  /** `stripAutoSummaryFields`. */
  function Strip(metadata: seq<Line>): seq<Line> {
    Without(metadata, {SUMMARY, PROVENANCE})
  }

  function Indented(lines: seq<Line>): seq<Line> {
    if lines == [] then [] else ["  " + lines[0]] + Indented(lines[1..])
  }

  /** The new fields: a summary, if one was made, and always its provenance. */
  function NewFields(summary: Option<seq<Line>>, provenance: string): seq<Line> {
    (if summary.Some? then [SUMMARY + ": >"] + Indented(summary.value) else []) + [PROVENANCE + ": " + provenance]
  }

  /** `patchSummary`; none stands for its error on a file without front matter. */
  function Patch(lines: seq<Line>, summary: Option<seq<Line>>, provenance: string): Option<seq<Line>> {
    var parts := SplitFile(lines);
    if parts.None? then None
    else
      var kept := if summary.None? then Without(parts.value.metadata, {PROVENANCE}) else Strip(parts.value.metadata);
      Some([MARK] + (kept + NewFields(summary, provenance)) + parts.value.suffix)
  }

  /** What the source fingerprint is computed from, besides the opening mark. */
  function Source(lines: seq<Line>): Option<Parts> {
    var parts := SplitFile(lines);
    if parts.None? then None else Some(parts.value.(metadata := Strip(parts.value.metadata)))
  }

  // ---- The source survives a patch -------------------------------------------------------------------

  lemma {:induction false} NextMarkIs(lines: seq<Line>, i: nat, j: nat)
    requires i <= j <= |lines| && NoMark(lines, i, j) && (j < |lines| ==> lines[j] == MARK)
    ensures NextMark(lines, i) == j
    decreases j - i
  {
    if i < j {
      NextMarkIs(lines, i + 1, j);
    }
  }

  /** Lines between two marks split into themselves. */
  lemma SplitOf(metadata: seq<Line>, suffix: seq<Line>)
    requires MARK !in metadata && suffix != [] && suffix[0] == MARK
    ensures SplitFile([MARK] + metadata + suffix) == Some(Parts(metadata, suffix))
  {
    var lines := [MARK] + metadata + suffix;
    NextMarkIs(lines, 0, 0);
    assert lines[1..|metadata| + 1] == metadata;
    assert forall k | 1 <= k <= |metadata| :: lines[k] == metadata[k - 1];
    NextMarkIs(lines, 1, |metadata| + 1);
    assert lines[|metadata| + 1..] == suffix;
  }

  lemma {:induction false} IndentedContinues(lines: seq<Line>, more: seq<Line>)
    ensures Behind(Indented(lines) + more) == Behind(more)
    ensures MARK !in Indented(lines)
  {
    if lines != [] {
      var all := Indented(lines) + more;
      assert all[1..] == Indented(lines[1..]) + more;
      IndentedContinues(lines[1..], more);
    } else {
      assert Indented(lines) + more == more;
    }
  }

  lemma FieldDropped(line: Line, key: string, more: seq<Line>, keys: set<string>)
    requires key in keys && Starts(line, key)
    ensures Without([line] + more, keys) == Without(Behind(more), keys)
  {
    assert ([line] + more)[1..] == more;
  }

  /** Nothing of the new fields survives stripping. */
  lemma NewFieldsAreStripped(summary: Option<seq<Line>>, provenance: string)
    ensures Strip(NewFields(summary, provenance)) == []
    ensures MARK !in NewFields(summary, provenance)
  {
    hide Without, Indented;
    var last := PROVENANCE + ": " + provenance;
    assert Starts(last, PROVENANCE) by { assert last[..22] == PROVENANCE + ":"; }
    FieldDropped(last, PROVENANCE, [], {SUMMARY, PROVENANCE});
    NothingLeft();
    assert [last] + [] == [last];
    if summary.Some? {
      var first := SUMMARY + ": >";
      assert Starts(first, SUMMARY) by { assert first[..12] == SUMMARY + ":"; }
      IndentedContinues(summary.value, [last]);
      FieldDropped(first, SUMMARY, Indented(summary.value) + [last], {SUMMARY, PROVENANCE});
      assert [first] + Indented(summary.value) + [last] == [first] + (Indented(summary.value) + [last]);
      assert !Continues(last);
      assert Behind([last]) == [last];
    } else {
      assert NewFields(summary, provenance) == [last];
    }
  }

  lemma NothingLeft()
    ensures Without(Behind([]), {SUMMARY, PROVENANCE}) == []
  {
  }

  predicate NoLeadingContinuation(lines: seq<Line>) {
    lines == [] || !Continues(lines[0])
  }

  lemma {:induction false} StaysUnindented(lines: seq<Line>, keys: set<string>)
    requires NoLeadingContinuation(lines)
    ensures NoLeadingContinuation(Without(lines, keys))
    decreases |lines|
  {
    if lines != [] && IsField(lines[0], keys) {
      BehindIsUnindented(lines[1..]);
      StaysUnindented(Behind(lines[1..]), keys);
    }
  }

  lemma {:induction false} BehindIsUnindented(lines: seq<Line>)
    ensures NoLeadingContinuation(Behind(lines))
  {
    if lines != [] && Continues(lines[0]) {
      BehindIsUnindented(lines[1..]);
    }
  }

  /** A field line never continues another one. */
  lemma FieldIsUnindented(line: Line, keys: set<string>)
    requires IsField(line, keys) && keys <= {SUMMARY, PROVENANCE}
    ensures !Continues(line)
  {
    var k :| k in keys && Starts(line, k);
    assert line[0] == (k + ":")[0] == 'a';
  }

  /** Dropping some fields first makes no difference: no continuation line can slip behind another field. */
  lemma {:induction false} StripTwice(lines: seq<Line>, some: set<string>, all: set<string>)
    requires some <= all <= {SUMMARY, PROVENANCE}
    ensures Without(Without(lines, some), all) == Without(lines, all)
    ensures Without(Behind(Without(lines, some)), all) == Without(Behind(lines), all)
    decreases |lines|
  {
    hide IsField, Continues;
    if lines == [] {
    } else if IsField(lines[0], some) {
      FieldOfMore(lines[0], some, all);
      FieldIsUnindented(lines[0], some);
      BehindIsUnindented(lines[1..]);
      StaysUnindented(Behind(lines[1..]), some);
      StripTwice(Behind(lines[1..]), some, all);
    } else {
      StripTwice(lines[1..], some, all);
      assert ([lines[0]] + Without(lines[1..], some))[1..] == Without(lines[1..], some);
    }
  }

  lemma FieldOfMore(line: Line, some: set<string>, all: set<string>)
    requires IsField(line, some) && some <= all
    ensures IsField(line, all)
  {
  }

  /** A patch changes nothing that the source fingerprint sees: same lines behind the mark, same lines left after stripping.
      It always finds front matter where the fingerprint does. */
  lemma PatchKeepsTheSource(lines: seq<Line>, summary: Option<seq<Line>>, provenance: string)
    ensures Patch(lines, summary, provenance).Some? <==> Source(lines).Some?
    ensures Source(lines).Some? ==> Source(Patch(lines, summary, provenance).value) == Source(lines)
  {
    hide Without, NewFields;
    if SplitFile(lines).Some? {
      var parts := SplitFile(lines).value;
      var dropped := if summary.None? then {PROVENANCE} else {SUMMARY, PROVENANCE};
      var kept := Without(parts.metadata, dropped);
      var fields := NewFields(summary, provenance);
      NewFieldsAreStripped(summary, provenance);
      SplitOf(kept + fields, parts.suffix);
      StripTwice(parts.metadata, dropped, {SUMMARY, PROVENANCE});
      NewFieldsStart(summary, provenance);
      WithoutAppend(kept, fields, {SUMMARY, PROVENANCE});
      assert Strip(kept) + [] == Strip(kept);
    }
  }

  lemma {:induction false} BehindAppend(lines: seq<Line>, more: seq<Line>)
    requires NoLeadingContinuation(more)
    ensures Behind(lines + more) == Behind(lines) + more
  {
    if lines == [] {
      assert lines + more == more;
    } else if Continues(lines[0]) {
      assert (lines + more)[1..] == lines[1..] + more;
      BehindAppend(lines[1..], more);
    }
  }

  lemma {:induction false} WithoutAppend(lines: seq<Line>, more: seq<Line>, keys: set<string>)
    requires NoLeadingContinuation(more)
    ensures Without(lines + more, keys) == Without(lines, keys) + Without(more, keys)
    decreases |lines|
  {
    hide IsField, Continues, NoLeadingContinuation;
    if lines == [] {
      assert lines + more == more;
      assert [] + Without(more, keys) == Without(more, keys);
    } else {
      assert (lines + more)[1..] == lines[1..] + more;
      if IsField(lines[0], keys) {
        BehindAppend(lines[1..], more);
        WithoutAppend(Behind(lines[1..]), more, keys);
      } else {
        WithoutAppend(lines[1..], more, keys);
        assert [lines[0]] + (Without(lines[1..], keys) + Without(more, keys))
            == [lines[0]] + Without(lines[1..], keys) + Without(more, keys);
      }
    }
  }

  lemma NewFieldsStart(summary: Option<seq<Line>>, provenance: string)
    ensures NoLeadingContinuation(NewFields(summary, provenance))
  {
    var first := NewFields(summary, provenance)[0];
    assert first[0] == 'a';
  }

  // ---- The summary can be read back ------------------------------------------------------------------

  predicate WordChar(c: char) { 'a' <= c <= 'z' || 'A' <= c <= 'Z' || '0' <= c <= '9' || c == '_' }

  function WordRun(line: Line): (n: nat)
    ensures n <= |line| && (forall i | 0 <= i < n :: WordChar(line[i])) && (n < |line| ==> !WordChar(line[n]))
  {
    if line == "" || !WordChar(line[0]) then 0 else 1 + WordRun(line[1..])
  }

  /** The key of a line, and what follows its colon. */
  function KeyOf(line: Line): Option<(string, string)> {
    var n := WordRun(line);
    if n == 0 || n == |line| || line[n] != ':' then None else Some((line[..n], line[n + 1..]))
  }

  predicate White(c: char) {
    '\t' <= c <= '\r' || c == ' ' || c == '\U{00A0}' || c == '\U{1680}' || '\U{2000}' <= c <= '\U{200A}'
    || c == '\U{2028}' || c == '\U{2029}' || c == '\U{202F}' || c == '\U{205F}' || c == '\U{3000}' || c == '\U{FEFF}'
  }

  function Trim(s: string): string {
    if s == "" then ""
    else if White(s[0]) then Trim(s[1..])
    else if White(s[|s| - 1]) then Trim(s[..|s| - 1])
    else s
  }

  /** A value on its own line, still to be interpreted, or the text of a block. */
  datatype Field = Plain(value: string) | Block(text: string)

  /** The local variables of `parseMemoryFile` in its loop. */
  datatype Reader = Reader(key: string, block: string, fields: map<string, Field>)

  function Flushed(r: Reader): Reader {
    if r.key != "" && r.block != "" then Reader("", "", r.fields[r.key := Block(r.block)]) else r
  }

  function ReadLine(r: Reader, line: Line): Reader {
    if r.key != "" && "  " <= line then r.(block := r.block + (if r.block != "" then "\n" else "") + line[2..])
    else
      var flushed := Flushed(r);
      match KeyOf(line)
      case None => flushed
      case Some((key, rest)) =>
        var value := Trim(rest);
        if value == ">" || value == "|" then flushed.(key := key, block := "")
        else flushed.(fields := flushed.fields[key := Plain(value)])
  }

  function ReadLines(r: Reader, lines: seq<Line>): Reader
    decreases |lines|
  {
    if lines == [] then r else ReadLines(ReadLine(r, lines[0]), lines[1..])
  }

  /** `parseMemoryFile`, fields only: the file starts with a mark, and the next mark but one line has a line end. */
  function ReadFile(lines: seq<Line>): Option<map<string, Field>> {
    if |lines| < 2 || lines[0] != MARK then None
    else
      var closing := NextMark(lines, 2);
      if closing + 1 >= |lines| then None
      else Some(Flushed(ReadLines(Reader("", "", map[]), lines[1..closing])).fields)
  }

  lemma {:induction false} ReadAppend(r: Reader, lines: seq<Line>, more: seq<Line>)
    ensures ReadLines(r, lines + more) == ReadLines(ReadLines(r, lines), more)
    decreases |lines|
  {
    hide ReadLine;
    if lines == [] {
      assert lines + more == more;
    } else {
      assert (lines + more)[1..] == lines[1..] + more;
      ReadAppend(ReadLine(r, lines[0]), lines[1..], more);
    }
  }

  /** Lines without a summary field never put one into the fields. */
  lemma {:induction false} NoSummaryRead(r: Reader, lines: seq<Line>)
    requires SUMMARY !in r.fields && r.key != SUMMARY && forall l | l in lines :: !Starts(l, SUMMARY)
    ensures SUMMARY !in ReadLines(r, lines).fields && ReadLines(r, lines).key != SUMMARY
    decreases |lines|
  {
    hide Trim;
    if lines != [] {
      KeyStarts(lines[0]);
      NoSummaryRead(ReadLine(r, lines[0]), lines[1..]);
    }
  }

  lemma KeyStarts(line: Line)
    ensures KeyOf(line).Some? && KeyOf(line).value.0 == SUMMARY ==> Starts(line, SUMMARY)
  {
    if KeyOf(line).Some? && KeyOf(line).value.0 == SUMMARY {
      assert line[..11] == SUMMARY && line[11] == ':';
      assert line[..12] == SUMMARY + ":";
    }
  }

  function Joined(lines: seq<Line>): string {
    if lines == [] then "" else if |lines| == 1 then lines[0] else lines[0] + "\n" + Joined(lines[1..])
  }

  /** The lines from the first one that is not empty. */
  function FromText(lines: seq<Line>): seq<Line> {
    if lines != [] && lines[0] == "" then FromText(lines[1..]) else lines
  }

  function Gathered(block: string, lines: seq<Line>): string
    decreases |lines|
  {
    if lines == [] then block else Gathered(block + (if block != "" then "\n" else "") + lines[0], lines[1..])
  }

  lemma {:induction false} BlockRead(r: Reader, lines: seq<Line>)
    requires r.key != ""
    ensures ReadLines(r, Indented(lines)) == r.(block := Gathered(r.block, lines))
    decreases |lines|
  {
    if lines != [] {
      var line := "  " + lines[0];
      assert line[..2] == "  " && line[2..] == lines[0];
      BlockRead(ReadLine(r, line), lines[1..]);
    }
  }

  lemma {:induction false} GatheredIsJoined(block: string, lines: seq<Line>)
    ensures block != "" && lines != [] ==> Gathered(block, lines) == block + "\n" + Joined(lines)
    ensures block == "" ==> Gathered(block, lines) == Joined(FromText(lines))
    decreases |lines|
  {
    if lines != [] {
      var next := block + (if block != "" then "\n" else "") + lines[0];
      GatheredIsJoined(next, lines[1..]);
      if block == "" { assert next == lines[0]; }
    }
  }

  lemma {:induction false} JoinedText(lines: seq<Line>)
    ensures FromText(lines) == [] <==> Joined(FromText(lines)) == ""
  {
    if lines != [] && lines[0] == "" {
      JoinedText(lines[1..]);
    }
  }

  lemma {:induction false} WordRunOf(key: string, rest: string)
    requires (forall i | 0 <= i < |key| :: WordChar(key[i])) && (rest == "" || !WordChar(rest[0]))
    ensures WordRun(key + rest) == |key|
  {
    if key == "" {
      assert key + rest == rest;
    } else {
      assert (key + rest)[1..] == key[1..] + rest;
      WordRunOf(key[1..], rest);
    }
  }

  lemma KeyOfField(key: string, rest: string)
    requires key != "" && forall i | 0 <= i < |key| :: WordChar(key[i])
    ensures KeyOf(key + ":" + rest) == Some((key, rest))
  {
    WordRunOf(key, ":" + rest);
    assert key + ":" + rest == key + (":" + rest);
    assert (key + ":" + rest)[..|key|] == key && (key + ":" + rest)[|key| + 1..] == rest;
  }

  lemma TrimOfMark()
    ensures Trim(" >") == ">"
  {
    assert " >"[1..] == ">";
  }

  /** The line that opens the summary block. */
  lemma OpeningRead(r: Reader)
    requires r.key != SUMMARY
    ensures ReadLine(r, SUMMARY + ": >") == Reader(SUMMARY, "", Flushed(r).fields)
  {
    var line := SUMMARY + ": >";
    assert line == SUMMARY + ":" + " >";
    KeyOfField(SUMMARY, " >");
    TrimOfMark();
    assert line[0] == 'a';
  }

  /** A value that does not open a block, as no JSON object does. */
  predicate OneLine(value: string) {
    Trim(" " + value) != ">" && Trim(" " + value) != "|"
  }

  /** The line behind the summary block closes it. */
  lemma ClosingRead(r: Reader, provenance: string)
    requires r.key == SUMMARY && SUMMARY !in r.fields
    ensures var fields := Flushed(ReadLine(r, PROVENANCE + ": " + provenance)).fields;
            && (r.block == "" ==> SUMMARY !in fields)
            && (r.block != "" ==> SUMMARY in fields && fields[SUMMARY] == Block(r.block))
            && (OneLine(provenance) ==> PROVENANCE in fields && fields[PROVENANCE] == Plain(Trim(" " + provenance)))
  {
    hide Trim;
    var line := PROVENANCE + ": " + provenance;
    assert line == PROVENANCE + ":" + (" " + provenance);
    KeyOfField(PROVENANCE, " " + provenance);
    assert line[0] == 'a';
  }

  /** What the new fields put into the record of a reader that has seen no summary. */
  lemma NewFieldsRead(r: Reader, summary: seq<Line>, provenance: string)
    requires SUMMARY !in r.fields && r.key != SUMMARY
    ensures var fields := Flushed(ReadLines(r, NewFields(Some(summary), provenance))).fields;
            && (FromText(summary) == [] ==> SUMMARY !in fields)
            && (FromText(summary) != [] ==> SUMMARY in fields && fields[SUMMARY] == Block(Joined(FromText(summary))))
            && (OneLine(provenance) ==> PROVENANCE in fields && fields[PROVENANCE] == Plain(Trim(" " + provenance)))
  {
    hide OneLine, Trim, ReadLine, Indented, FromText, Joined, Gathered;
    var first, last := SUMMARY + ": >", PROVENANCE + ": " + provenance;
    ReadAppend(r, [first] + Indented(summary), [last]);
    ReadAppend(r, [first], Indented(summary));
    ReadOne(r, first);
    OpeningRead(r);
    BlockRead(ReadLine(r, first), summary);
    GatheredIsJoined("", summary);
    JoinedText(summary);
    var open := ReadLines(r, [first] + Indented(summary));
    ReadOne(open, last);
    ClosingRead(open, provenance);
  }

  lemma ReadOne(r: Reader, line: Line)
    ensures ReadLines(r, [line]) == ReadLine(r, line)
  {
    hide ReadLine;
    assert [line][1..] == [];
    assert ReadLines(ReadLine(r, line), []) == ReadLine(r, line);
  }

  /** A file that can be read also splits, with something behind the closing mark and nothing before the opening one. */
  lemma ReadableSplits(lines: seq<Line>)
    requires ReadFile(lines).Some?
    ensures SplitFile(lines).Some? && |SplitFile(lines).value.suffix| >= 2
    ensures lines == [MARK] + SplitFile(lines).value.metadata + SplitFile(lines).value.suffix
  {
    NextMarkIs(lines, 0, 0);
    var closing := NextMark(lines, 2);
    if lines[1] == MARK {
      NextMarkIs(lines, 1, 1);
    } else {
      NextMarkIs(lines, 1, closing);
    }
  }

  /** Lines between the marks are what is read. */
  lemma ReadBetween(metadata: seq<Line>, suffix: seq<Line>)
    requires metadata != [] && MARK !in metadata && |suffix| >= 2 && suffix[0] == MARK
    ensures ReadFile([MARK] + metadata + suffix) == Some(Flushed(ReadLines(Reader("", "", map[]), metadata)).fields)
  {
    hide ReadLines;
    var lines := [MARK] + metadata + suffix;
    var closing := |metadata| + 1;
    assert lines[1..closing] == metadata;
    assert forall k | 1 <= k <= |metadata| :: lines[k] == metadata[k - 1];
    NextMarkIs(lines, 2, closing);
  }

  /** Reading a patched file gives provenance and summary back, but for empty lines at its start; a summary of empty lines is not
      read at all. So the text comes back exactly when its first line is not empty. */
  lemma SummaryIsReadBack(lines: seq<Line>, summary: seq<Line>, provenance: string)
    requires ReadFile(lines).Some? && summary != []
    ensures var patched := Patch(lines, Some(summary), provenance);
            && patched.Some? && ReadFile(patched.value).Some?
            && var fields := ReadFile(patched.value).value;
               && (FromText(summary) == [] ==> SUMMARY !in fields)
               && (FromText(summary) != [] ==> SUMMARY in fields && fields[SUMMARY] == Block(Joined(FromText(summary))))
               && (SUMMARY in fields && fields[SUMMARY] == Block(Joined(summary)) <==> summary[0] != "")
               && (OneLine(provenance) ==> PROVENANCE in fields && fields[PROVENANCE] == Plain(Trim(" " + provenance)))
  {
    hide OneLine, Trim, ReadFile, ReadLines, NewFields, Without, FromText, Joined;
    ReadableSplits(lines);
    var parts := SplitFile(lines).value;
    var kept := Strip(parts.metadata);
    var fields := NewFields(Some(summary), provenance);
    NewFieldsAreStripped(Some(summary), provenance);
    SomeFields(Some(summary), provenance);
    ReadBetween(kept + fields, parts.suffix);
    var start := Reader("", "", map[]);
    ReadAppend(start, kept, fields);
    KeptHoldNoSummary(parts.metadata);
    NoSummaryRead(start, kept);
    NewFieldsRead(ReadLines(start, kept), summary, provenance);
    TextOrShorter(summary);
  }

  lemma TextOrShorter(summary: seq<Line>)
    requires summary != []
    ensures if summary[0] != "" then FromText(summary) == summary else |Joined(FromText(summary))| < |Joined(summary)| || FromText(summary) == []
  {
    if summary[0] == "" && |summary| > 1 {
      FromTextIsNoLonger(summary[1..]);
    }
  }

  lemma {:induction false} FromTextIsNoLonger(lines: seq<Line>)
    ensures |Joined(FromText(lines))| <= |Joined(lines)|
  {
    if lines != [] && lines[0] == "" {
      FromTextIsNoLonger(lines[1..]);
      assert |lines| == 1 ==> lines[1..] == [];
    }
  }

  lemma SomeFields(summary: Option<seq<Line>>, provenance: string)
    ensures NewFields(summary, provenance) != []
  {
  }

  lemma KeptHoldNoSummary(metadata: seq<Line>)
    ensures forall l | l in Strip(metadata) :: !Starts(l, SUMMARY) && l in metadata
  {
    forall l | l in Strip(metadata)
      ensures !Starts(l, SUMMARY)
    {
      assert !IsField(l, {SUMMARY, PROVENANCE});
    }
  }

  // ---- Every field can be read back ------------------------------------------------------------------

  /** A field as a file holds it: a value behind its key, or a block of either style below it. */
  datatype Entry = Inline(key: string, value: string) | Below(key: string, bar: bool, text: seq<Line>)

  function LinesOf(f: Entry): seq<Line> {
    match f
    case Inline(key, value) => [key + ": " + value]
    case Below(key, bar, text) => [key + (if bar then ": |" else ": >")] + Indented(text)
  }

  function AllLines(fields: seq<Entry>): seq<Line> {
    if fields == [] then [] else LinesOf(fields[0]) + AllLines(fields[1..])
  }

  predicate Writable(f: Entry) {
    f.key != "" && (forall i | 0 <= i < |f.key| :: WordChar(f.key[i])) && (f.Inline? ==> OneLine(f.value))
  }

  /** What a field means: its value without white space around it, or its text from the first line that is not empty, if
      there is one. */
  function Meant(known: map<string, Field>, f: Entry): map<string, Field> {
    match f
    case Inline(key, value) => known[key := Plain(Trim(" " + value))]
    case Below(key, bar, text) => if FromText(text) == [] then known else known[key := Block(Joined(FromText(text)))]
  }

  function AllMeant(known: map<string, Field>, fields: seq<Entry>): map<string, Field>
    decreases |fields|
  {
    if fields == [] then known else AllMeant(Meant(known, fields[0]), fields[1..])
  }

  lemma InlineRead(r: Reader, f: Entry)
    requires Writable(f) && f.Inline?
    ensures Flushed(ReadLine(r, f.key + ": " + f.value)).fields == Meant(Flushed(r).fields, f)
  {
    hide Trim;
    var line := f.key + ": " + f.value;
    assert line == f.key + ":" + (" " + f.value);
    KeyOfField(f.key, " " + f.value);
    assert line[0] == f.key[0];
  }

  lemma OpenerRead(r: Reader, key: string, bar: bool)
    requires key != "" && forall i | 0 <= i < |key| :: WordChar(key[i])
    ensures ReadLine(r, key + (if bar then ": |" else ": >")) == Reader(key, "", Flushed(r).fields)
  {
    hide Trim;
    var line, mark := key + (if bar then ": |" else ": >"), if bar then " |" else " >";
    assert line == key + ":" + mark;
    KeyOfField(key, mark);
    TrimOfMark();
    TrimOfBar();
    assert line[0] == key[0];
  }

  lemma TrimOfBar()
    ensures Trim(" |") == "|"
  {
    assert " |"[1..] == "|";
  }

  lemma WrittenRead(r: Reader, f: Entry)
    requires Writable(f)
    ensures Flushed(ReadLines(r, LinesOf(f))).fields == Meant(Flushed(r).fields, f)
  {
    hide ReadLine, ReadLines, Trim, Indented, FromText, Joined, Gathered;
    match f
    case Inline(key, value) =>
      InlineRead(r, f);
      ReadOne(r, key + ": " + value);
    case Below(key, bar, text) =>
      var first := key + (if bar then ": |" else ": >");
      OpenerRead(r, key, bar);
      ReadOne(r, first);
      ReadAppend(r, [first], Indented(text));
      BlockRead(ReadLine(r, first), text);
      GatheredIsJoined("", text);
      JoinedText(text);
  }

  lemma {:induction false} AllWrittenRead(r: Reader, fields: seq<Entry>)
    requires forall f | f in fields :: Writable(f)
    ensures Flushed(ReadLines(r, AllLines(fields))).fields == AllMeant(Flushed(r).fields, fields)
    decreases |fields|
  {
    hide Flushed, LinesOf, Meant, Writable;
    if fields != [] {
      WrittenRead(r, fields[0]);
      ReadAppend(r, LinesOf(fields[0]), AllLines(fields[1..]));
      AllWrittenRead(ReadLines(r, LinesOf(fields[0])), fields[1..]);
    }
  }

  lemma {:induction false} NoMarkWritten(fields: seq<Entry>)
    requires forall f | f in fields :: Writable(f)
    ensures MARK !in AllLines(fields) && (fields != [] ==> AllLines(fields) != [])
  {
    hide LinesOf, Writable;
    if fields != [] {
      NoMarkWritten(fields[1..]);
      assert Writable(fields[0]);
      NoMarkInOne(fields[0]);
    }
  }

  lemma NoMarkInOne(f: Entry)
    requires Writable(f)
    ensures MARK !in LinesOf(f) && LinesOf(f) != []
  {
    hide OneLine;
    assert WordChar(f.key[0]) && MARK[0] == '-';
    assert LinesOf(f)[0][0] == f.key[0];
    if f.Below? { NoMarkIndented(f.text); }
  }

  lemma {:induction false} NoMarkIndented(lines: seq<Line>)
    ensures MARK !in Indented(lines)
  {
    if lines != [] {
      assert ("  " + lines[0])[0] == ' ';
      NoMarkIndented(lines[1..]);
    }
  }

  /** A file that is written field by field is read field by field: the last one of a key wins, and nothing else is in it. */
  lemma FieldsAreReadBack(fields: seq<Entry>, suffix: seq<Line>)
    requires fields != [] && forall f | f in fields :: Writable(f)
    requires |suffix| >= 2 && suffix[0] == MARK
    ensures ReadFile([MARK] + AllLines(fields) + suffix) == Some(AllMeant(map[], fields))
  {
    hide ReadFile, ReadLines, AllLines, Writable;
    NoMarkWritten(fields);
    ReadBetween(AllLines(fields), suffix);
    AllWrittenRead(Reader("", "", map[]), fields);
  }

  /** Trimming takes white space away at both ends, and all of it. */
  lemma {:induction false} TrimTakesTheEnds(s: string) returns (before: nat, after: nat)
    ensures before <= after <= |s| && Trim(s) == s[before..after]
    ensures forall i | 0 <= i < before || after <= i < |s| :: White(s[i])
    ensures before < after ==> !White(s[before]) && !White(s[after - 1])
    decreases |s|
  {
    hide White;
    if s == "" {
      before, after := 0, 0;
    } else if White(s[0]) {
      before, after := TrimTakesTheEnds(s[1..]);
      assert s[1..][before..after] == s[before + 1..after + 1];
      assert forall i | 1 <= i < |s| :: s[i] == s[1..][i - 1];
      before, after := before + 1, after + 1;
    } else if White(s[|s| - 1]) {
      before, after := TrimTakesTheEnds(s[..|s| - 1]);
      assert s[..|s| - 1][before..after] == s[before..after];
      assert forall i | 0 <= i < |s| - 1 :: s[i] == s[..|s| - 1][i];
    } else {
      before, after := 0, |s|;
    }
  }
}
