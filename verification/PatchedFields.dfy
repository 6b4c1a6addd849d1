/** What a reader finds in a patched memory file: every field of the original, apart from the ones that the patch writes. */
module PatchedFields {
  import opened Basics
  import opened SummaryText

  type Fields = map<string, Field>

  /** The same fields, but for the ones with the given keys. */
  ghost predicate SameBut(a: Fields, b: Fields, keys: set<string>) {
    forall k | k !in keys :: (k in a <==> k in b) && (k in a ==> a[k] == b[k])
  }

  /** A line that opens a block: `key: >` or `key: |`. */
  predicate Opens(line: Line) {
    KeyOf(line).Some? && (Trim(KeyOf(line).value.1) == ">" || Trim(KeyOf(line).value.1) == "|")
  }

  /** A line that puts text into an open block. */
  predicate HasText(line: Line) { "  " <= line && |line| > 2 }

  /** The lines end with a block that was opened and has no text yet. */
  ghost predicate Hangs(lines: seq<Line>, keys: set<string>) {
    exists i :: 0 <= i < |lines| && Opens(lines[i]) && KeyOf(lines[i]).value.0 !in keys && QuietBehind(lines, i)
  }

  ghost predicate QuietBehind(lines: seq<Line>, i: nat) {
    forall j | i < j < |lines| :: !Opens(lines[j]) && !HasText(lines[j])
  }

  /** No field with one of the keys stands behind a block that has no text yet. */
  ghost predicate Untangled(lines: seq<Line>, keys: set<string>) {
    forall i | 0 <= i < |lines| && IsField(lines[i], keys) :: !Hangs(lines[..i], keys)
  }

  const START: Reader := Reader("", "", map[])

  /** The same of a reader. */
  predicate Hanging(r: Reader, keys: set<string>) {
    r.key != "" && r.key !in keys && r.block == ""
  }

  // ---- The reader and the lines agree on what hangs ----------------------------------------------------

  lemma HangStep(r: Reader, line: Line)
    ensures var next := ReadLine(r, line);
            && (next.key != "" && next.block == "" <==> Opens(line) || (r.key != "" && r.block == "" && !HasText(line)))
            && (Opens(line) ==> next.key == KeyOf(line).value.0)
            && (!Opens(line) && next.key != "" ==> next.key == r.key)
  {
    hide Trim;
  }

  lemma {:induction false} HangsIsHanging(lines: seq<Line>, keys: set<string>)
    ensures Hangs(lines, keys) <==> Hanging(ReadLines(START, lines), keys)
  {
    hide Opens, HasText, ReadLine;
    if lines != [] {
      var n := |lines| - 1;
      var front, last := lines[..n], lines[n];
      assert lines == front + [last];
      HangsIsHanging(front, keys);
      ReadAppend(START, front, [last]);
      ReadOne(ReadLines(START, front), last);
      HangStep(ReadLines(START, front), last);
      HangsSnoc(front, last, keys);
    }
  }

  lemma HangsSnoc(front: seq<Line>, last: Line, keys: set<string>)
    ensures Hangs(front + [last], keys) <==>
            if Opens(last) then KeyOf(last).value.0 !in keys else Hangs(front, keys) && !HasText(last)
  {
    hide HasText, KeyOf, Trim;
    var all, n := front + [last], |front|;
    assert all[n] == last && forall j | 0 <= j < n :: all[j] == front[j];
    if Opens(last) {
      assert QuietBehind(all, n);
    }
    if Hangs(all, keys) {
      var i :| 0 <= i < |all| && Opens(all[i]) && KeyOf(all[i]).value.0 !in keys && QuietBehind(all, i);
      if i < n {
        assert !Opens(all[n]) && !HasText(all[n]);
        assert Opens(front[i]) && QuietBehind(front, i);
      }
    }
    if !Opens(last) && Hangs(front, keys) && !HasText(last) {
      var i :| 0 <= i < |front| && Opens(front[i]) && KeyOf(front[i]).value.0 !in keys && QuietBehind(front, i);
      assert Opens(all[i]) && QuietBehind(all, i);
    }
  }

  /** No field is dropped while a block hangs; the same as `Untangled`, read along. */
  ghost predicate Calm(r: Reader, lines: seq<Line>, keys: set<string>)
    decreases |lines|
  {
    lines == [] || ((IsField(lines[0], keys) ==> !Hanging(r, keys)) && Calm(ReadLine(r, lines[0]), lines[1..], keys))
  }

  lemma {:induction false} UntangledIsCalm(front: seq<Line>, lines: seq<Line>, keys: set<string>)
    requires forall i | 0 <= i < |lines| && IsField(lines[i], keys) :: !Hangs(front + lines[..i], keys)
    ensures Calm(ReadLines(START, front), lines, keys)
    decreases |lines|
  {
    hide IsField, Hangs, Hanging, ReadLine;
    if lines != [] {
      var longer := front + [lines[0]];
      assert front + lines[..0] == front;
      HangsIsHanging(front, keys);
      ReadAppend(START, front, [lines[0]]);
      ReadOne(ReadLines(START, front), lines[0]);
      forall i | 0 <= i < |lines[1..]| && IsField(lines[1..][i], keys)
        ensures !Hangs(longer + lines[1..][..i], keys)
      {
        assert lines[1..][i] == lines[i + 1];
        assert longer + lines[1..][..i] == front + lines[..i + 1];
      }
      UntangledIsCalm(longer, lines[1..], keys);
    }
  }

  // ---- Reading with and without the dropped fields -----------------------------------------------------

  /** The reader of the original works on nothing that the other one knows of. */
  predicate Aside(r: Reader, keys: set<string>) { r.key == "" || r.key in keys }

  /** Both readers work on the same block, or on none that matters. */
  ghost predicate InStep(r: Reader, q: Reader, keys: set<string>) {
    && SameBut(r.fields, q.fields, keys) && q.key !in keys
    && ((r.key == q.key && r.block == q.block) || (q.key == "" && Aside(r, keys)))
  }

  /** The original has closed a block that the other reader will close with the next line. */
  ghost predicate Lags(r: Reader, q: Reader, keys: set<string>) {
    && q.key != "" && q.key !in keys && q.block != "" && Aside(r, keys)
    && SameBut(r.fields, q.fields[q.key := Block(q.block)], keys)
  }

  /** Behind a dropped field. */
  ghost predicate Dropped(r: Reader, q: Reader, keys: set<string>) {
    Aside(r, keys) && ((q.key == "" && SameBut(r.fields, q.fields, keys)) || Lags(r, q, keys))
  }

  predicate FewKeys(keys: set<string>) { keys <= {SUMMARY, PROVENANCE} }

  lemma KeyOfStarts(line: Line)
    ensures KeyOf(line).Some? ==> Starts(line, KeyOf(line).value.0) && KeyOf(line).value.0 != "" && !Continues(line)
  {
    if KeyOf(line).Some? {
      var n := WordRun(line);
      assert line[..n + 1] == line[..n] + ":";
      assert WordChar(line[0]);
    }
  }

  lemma KeyOfDropped(line: Line, keys: set<string>)
    requires IsField(line, keys) && FewKeys(keys)
    ensures KeyOf(line).Some? && KeyOf(line).value.0 in keys && !Continues(line)
  {
    var k :| k in keys && Starts(line, k);
    var rest := line[|k| + 1..];
    assert line == k + ":" + rest;
    KeyOfField(k, rest);
    FieldIsUnindented(line, keys);
  }

  /** What a line does that does not go into an open block, once any block is closed. */
  function Taken(flushed: Reader, line: Line): Reader {
    match KeyOf(line)
    case None => flushed
    case Some((key, rest)) =>
      if Trim(rest) == ">" || Trim(rest) == "|" then flushed.(key := key, block := "")
      else flushed.(fields := flushed.fields[key := Plain(Trim(rest))])
  }

  lemma TakesLine(r: Reader, line: Line)
    requires r.key == "" || !("  " <= line)
    ensures ReadLine(r, line) == Taken(Flushed(r), line)
  {
    hide Trim, KeyOf;
  }

  lemma TakenAlike(r: Reader, q: Reader, line: Line, keys: set<string>)
    requires InStep(r, q, keys) && "" !in keys && (KeyOf(line).Some? ==> KeyOf(line).value.0 !in keys)
    ensures InStep(Taken(r, line), Taken(q, line), keys)
  {
    hide Trim, KeyOf;
  }

  lemma FlushedAlike(r: Reader, q: Reader, keys: set<string>)
    requires InStep(r, q, keys) || Lags(r, q, keys)
    requires "" !in keys
    ensures InStep(Flushed(r), Flushed(q), keys)
  {
  }

  lemma KeptLine(r: Reader, q: Reader, line: Line, keys: set<string>)
    requires InStep(r, q, keys) || (Lags(r, q, keys) && !Continues(line))
    requires !IsField(line, keys) && "" !in keys
    ensures InStep(ReadLine(r, line), ReadLine(q, line), keys)
  {
    hide Trim, KeyOf, Taken, Flushed;
    KeyOfStarts(line);
    FlushedAlike(r, q, keys);
    if "  " <= line {
      assert Continues(line);
      IndentedLine(r, q, line, keys);
    } else {
      TakesLine(r, line);
      TakesLine(q, line);
      TakenAlike(Flushed(r), Flushed(q), line, keys);
    }
  }

  lemma IndentedLine(r: Reader, q: Reader, line: Line, keys: set<string>)
    requires InStep(r, q, keys) && "  " <= line && KeyOf(line).None? && "" !in keys
    ensures InStep(ReadLine(r, line), ReadLine(q, line), keys)
  {
    hide Trim, KeyOf;
  }

  lemma DroppedLine(r: Reader, q: Reader, line: Line, keys: set<string>)
    requires (InStep(r, q, keys) && !Hanging(r, keys)) || Lags(r, q, keys)
    requires IsField(line, keys) && FewKeys(keys) && "" !in keys
    ensures Dropped(ReadLine(r, line), q, keys)
  {
    hide Trim, KeyOf, IsField, Flushed, Taken, Hanging, InStep, Lags, Dropped;
    KeyOfDropped(line, keys);
    assert "  " <= line ==> Continues(line);
    TakesLine(r, line);
    FlushedIsDropped(r, q, keys);
    TakenIsDropped(Flushed(r), q, line, keys);
  }

  lemma FlushedIsDropped(r: Reader, q: Reader, keys: set<string>)
    requires (InStep(r, q, keys) && !Hanging(r, keys)) || Lags(r, q, keys)
    requires "" !in keys
    ensures Dropped(Flushed(r), q, keys)
  {
  }

  lemma TakenIsDropped(r: Reader, q: Reader, line: Line, keys: set<string>)
    requires Dropped(r, q, keys) && KeyOf(line).Some? && KeyOf(line).value.0 in keys
    ensures Dropped(Taken(r, line), q, keys)
  {
    hide Trim, KeyOf;
  }

  lemma DroppedMore(r: Reader, q: Reader, line: Line, keys: set<string>)
    requires Dropped(r, q, keys) && Continues(line) && "" !in keys
    ensures Dropped(ReadLine(r, line), q, keys)
  {
    hide Trim, KeyOf;
    KeyOfStarts(line);
  }

  lemma {:induction false} DroppedBehind(r: Reader, q: Reader, lines: seq<Line>, keys: set<string>) returns (next: Reader)
    requires Dropped(r, q, keys) && Calm(r, lines, keys) && "" !in keys
    ensures Dropped(next, q, keys) && Calm(next, Behind(lines), keys) && NoLeadingContinuation(Behind(lines))
    ensures ReadLines(r, lines) == ReadLines(next, Behind(lines))
    decreases |lines|
  {
    hide Dropped, ReadLine, Continues, IsField, Hanging;
    if lines != [] && Continues(lines[0]) {
      DroppedMore(r, q, lines[0], keys);
      next := DroppedBehind(ReadLine(r, lines[0]), q, lines[1..], keys);
    } else {
      next := r;
    }
  }

  lemma EndsAlike(r: Reader, q: Reader, keys: set<string>)
    requires InStep(r, q, keys) || Lags(r, q, keys)
    ensures SameBut(Flushed(r).fields, Flushed(q).fields, keys)
  {
  }

  lemma DroppedIsEither(r: Reader, q: Reader, keys: set<string>)
    requires Dropped(r, q, keys) && "" !in keys
    ensures InStep(r, q, keys) || Lags(r, q, keys)
  {
  }

  /** Reading the lines that are left gives what reading all of them gives, dropped keys aside. */
  lemma {:induction false} ReadWithout(r: Reader, q: Reader, lines: seq<Line>, keys: set<string>)
    requires InStep(r, q, keys) || (Lags(r, q, keys) && NoLeadingContinuation(lines))
    requires Calm(r, lines, keys) && FewKeys(keys) && "" !in keys
    ensures SameBut(Flushed(ReadLines(r, lines)).fields, Flushed(ReadLines(q, Without(lines, keys))).fields, keys)
    decreases |lines|
  {
    hide InStep, Lags, ReadLine, IsField, Hanging, SameBut, Dropped, Flushed, Continues;
    if lines == [] {
      EndsAlike(r, q, keys);
    } else if IsField(lines[0], keys) {
      DroppedLine(r, q, lines[0], keys);
      var next := DroppedBehind(ReadLine(r, lines[0]), q, lines[1..], keys);
      DroppedIsEither(next, q, keys);
      ReadWithout(next, q, Behind(lines[1..]), keys);
    } else {
      KeptLine(r, q, lines[0], keys);
      ReadWithout(ReadLine(r, lines[0]), ReadLine(q, lines[0]), lines[1..], keys);
      assert ([lines[0]] + Without(lines[1..], keys))[1..] == Without(lines[1..], keys);
    }
  }

  // ---- A dropped field is invisible exactly when nothing hangs before it ------------------------------

  function Read(lines: seq<Line>): Fields {
    Flushed(ReadLines(START, lines)).fields
  }

  /** Whatever a field behind `front` holds, and whatever follows it, dropping it shows in no other field. */
  ghost predicate Invisible(front: seq<Line>, keys: set<string>) {
    forall field, rest | IsDropped(field, keys) && IsRest(rest, keys) :: SameBut(Read(front + (field + rest)), Read(front + rest), keys)
  }

  /** A field with its continuation lines. */
  predicate IsDropped(field: seq<Line>, keys: set<string>) {
    field != [] && IsField(field[0], keys) && forall i | 1 <= i < |field| :: Continues(field[i])
  }

  predicate IsRest(rest: seq<Line>, keys: set<string>) {
    NoLeadingContinuation(rest) && forall l | l in rest :: !IsField(l, keys)
  }

  lemma {:induction false} NothingDropped(r: Reader, lines: seq<Line>, keys: set<string>)
    requires forall l | l in lines :: !IsField(l, keys)
    ensures Without(lines, keys) == lines && Calm(r, lines, keys)
    decreases |lines|
  {
    hide IsField, ReadLine;
    if lines != [] { NothingDropped(ReadLine(r, lines[0]), lines[1..], keys); }
  }

  lemma {:induction false} BehindField(more: seq<Line>, rest: seq<Line>)
    requires NoLeadingContinuation(rest) && forall l | l in more :: Continues(l)
    ensures Behind(more + rest) == rest
  {
    hide Continues;
    if more != [] {
      assert (more + rest)[1..] == more[1..] + rest;
      BehindField(more[1..], rest);
    } else {
      assert more + rest == rest;
    }
  }

  lemma {:induction false} KeyIsKept(r: Reader, lines: seq<Line>, keys: set<string>)
    requires r.key !in keys && "" !in keys && forall l | l in lines :: !IsField(l, keys)
    ensures ReadLines(r, lines).key !in keys
    decreases |lines|
  {
    hide IsField, Trim;
    if lines != [] {
      KeyOfStarts(lines[0]);
      assert KeyOf(lines[0]).Some? ==> KeyOf(lines[0]).value.0 !in keys by { FieldKey(lines[0], keys); }
      KeyIsKept(ReadLine(r, lines[0]), lines[1..], keys);
    }
  }

  lemma FieldKey(line: Line, keys: set<string>)
    requires !IsField(line, keys)
    ensures KeyOf(line).Some? ==> KeyOf(line).value.0 !in keys
  {
    KeyOfStarts(line);
  }

  lemma SameButItself(fields: Fields, keys: set<string>)
    ensures SameBut(fields, fields, keys)
  {
  }

  lemma QuietIsInvisible(front: seq<Line>, field: seq<Line>, rest: seq<Line>, keys: set<string>)
    requires FewKeys(keys) && "" !in keys && (forall l | l in front :: !IsField(l, keys)) && !Hangs(front, keys)
    requires IsDropped(field, keys) && IsRest(rest, keys)
    ensures SameBut(Read(front + (field + rest)), Read(front + rest), keys)
  {
    hide IsField, Hangs, Hanging, ReadLine, SameBut, Flushed, Continues;
    HangsIsHanging(front, keys);
    var r, all := ReadLines(START, front), field + rest;
    ReadAppend(START, front, all);
    ReadAppend(START, front, rest);
    KeyIsKept(START, front, keys);
    SameButItself(r.fields, keys);
    var more := field[1..];
    assert all[1..] == more + rest && all[0] == field[0];
    forall l | l in more ensures Continues(l) && !IsField(l, keys) {
      var i :| 0 <= i < |more| && more[i] == l;
      assert field[i + 1] == l;
      if IsField(l, keys) { FieldIsUnindented(l, keys); }
    }
    BehindField(more, rest);
    NothingDropped(r, rest, keys);
    NothingDropped(ReadLine(r, all[0]), more + rest, keys);
    ReadWithout(r, r, all, keys);
  }

  lemma PutText(r: Reader, text: string)
    requires r.key != "" && r.block == "" && text != ""
    ensures Flushed(ReadLine(r, "  " + text)).fields == r.fields[r.key := Block(text)]
  {
    var line := "  " + text;
    assert line[..2] == "  " && line[2..] == text;
    assert ReadLine(r, line).block == text;
  }

  /** A text that a field does not hold already. */
  function NewText(fields: Fields, key: string): (text: string)
    ensures text != "" && (key in fields ==> fields[key] != Block(text))
  {
    if key in fields && fields[key].Block? then fields[key].text + "x" else "x"
  }

  lemma PlainField(r: Reader, key: string)
    requires FewKeys({key})
    ensures ReadLine(r, key + ": {}") == Flushed(r).(fields := Flushed(r).fields[key := Plain("{}")])
    ensures IsField(key + ": {}", {key})
  {
    hide Trim, KeyOf, Flushed;
    var line := key + ": {}";
    assert key in {key};
    assert line[..|key| + 1] == key + ":";
    assert Starts(line, key);
    KeyOfDropped(line, {key});
    assert !("  " <= line) by { assert "  " <= line ==> Continues(line); }
    TakesLine(r, line);
    KeyOfWord(key);
    TrimOfBraces();
  }

  lemma KeyOfWord(key: string)
    requires FewKeys({key})
    ensures KeyOf(key + ": {}") == Some((key, " {}"))
  {
    assert key in {key};
    assert key + ": {}" == key + ":" + " {}";
    KeyOfField(key, " {}");
  }

  lemma TrimOfBraces()
    ensures Trim(" {}") == "{}"
  {
    assert " {}"[1..] == "{}";
  }

  /** What hangs takes the text of a field that is dropped. */
  lemma HangingTakesText(front: seq<Line>, key: string)
    requires FewKeys({key}) && Hangs(front, {key})
    ensures exists field :: IsDropped(field, {key}) && !SameBut(Read(front + (field + [])), Read(front + []), {key})
  {
    hide Hangs, HasText, Opens, IsField, ReadLine, Trim;
    HangsIsHanging(front, {key});
    var r := ReadLines(START, front);
    var text := NewText(r.fields, r.key);
    var line, more := key + ": {}", "  " + text;
    var field := [line, more];
    assert front + (field + []) == front + [line] + [more] && front + [] == front;
    ReadAppend(START, front + [line], [more]);
    ReadAppend(START, front, [line]);
    ReadOne(r, line);
    ReadOne(ReadLine(r, line), more);
    PlainField(r, key);
    PutText(ReadLine(r, line), text);
    assert Continues(more) by { assert more[0] == ' '; }
    assert IsDropped(field, {key});
    assert Read(front + (field + []))[r.key] == Block(text);
  }

  /** Behind lines that stay, dropping a field is invisible, whatever it holds and whatever follows, exactly when those lines
      do not end with a block that was opened and has no text yet. */
  lemma InvisibleIffNothingHangs(front: seq<Line>, key: string)
    requires FewKeys({key}) && forall l | l in front :: !IsField(l, {key})
    ensures Invisible(front, {key}) <==> !Hangs(front, {key})
  {
    hide Hangs, IsField, SameBut, Read;
    if Hangs(front, {key}) {
      HangingTakesText(front, key);
      assert IsRest([], {key});
    } else {
      forall field, rest | IsDropped(field, {key}) && IsRest(rest, {key})
        ensures SameBut(Read(front + (field + rest)), Read(front + rest), {key})
      {
        QuietIsInvisible(front, field, rest, {key});
      }
    }
  }

  // ---- Whole files -----------------------------------------------------------------------------------

  /** The fields that a patch writes: a failed generation leaves the summary alone. */
  function Written(summary: Option<seq<Line>>): set<string> {
    if summary.None? then {PROVENANCE} else {SUMMARY, PROVENANCE}
  }

  lemma KeptReadsAlike(metadata: seq<Line>, keys: set<string>)
    requires Untangled(metadata, keys) && FewKeys(keys) && "" !in keys
    ensures SameBut(Read(metadata), Read(Without(metadata, keys)), keys)
  {
    hide IsField, Hangs, ReadLine;
    forall i | 0 <= i < |metadata| && IsField(metadata[i], keys)
      ensures !Hangs([] + metadata[..i], keys)
    {
      assert [] + metadata[..i] == metadata[..i];
    }
    UntangledIsCalm([], metadata, keys);
    ReadWithout(START, START, metadata, keys);
  }

  /** The line of the provenance, read behind anything. */
  lemma ProvenanceLine(q: Reader, provenance: string)
    ensures var fields := Flushed(ReadLine(q, PROVENANCE + ": " + provenance)).fields;
            && SameBut(fields, Flushed(q).fields, {PROVENANCE})
            && (OneLine(provenance) ==> fields == Flushed(q).fields[PROVENANCE := Plain(Trim(" " + provenance))])
  {
    hide Trim, KeyOf;
    var line := PROVENANCE + ": " + provenance;
    assert line == PROVENANCE + ":" + (" " + provenance);
    KeyOfField(PROVENANCE, " " + provenance);
    assert line[0] == 'a';
    TakesLine(q, line);
  }

  lemma NewFieldsKeepOthers(q: Reader, summary: Option<seq<Line>>, provenance: string)
    requires summary.Some? ==> q.key != SUMMARY && summary.value != []
    ensures SameBut(Flushed(ReadLines(q, NewFields(summary, provenance))).fields, Flushed(q).fields, Written(summary))
    ensures OneLine(provenance) ==>
              var fields := Flushed(ReadLines(q, NewFields(summary, provenance))).fields;
              PROVENANCE in fields && fields[PROVENANCE] == Plain(Trim(" " + provenance))
  {
    hide ReadLine, Trim, OneLine, Indented, Gathered;
    var last := PROVENANCE + ": " + provenance;
    if summary.None? {
      assert NewFields(summary, provenance) == [last];
      ReadOne(q, last);
      ProvenanceLine(q, provenance);
    } else {
      var first := SUMMARY + ": >";
      ReadAppend(q, [first] + Indented(summary.value), [last]);
      ReadAppend(q, [first], Indented(summary.value));
      ReadOne(q, first);
      OpeningRead(q);
      BlockRead(ReadLine(q, first), summary.value);
      var open := ReadLines(q, [first] + Indented(summary.value));
      ReadOne(open, last);
      ProvenanceLine(open, provenance);
    }
  }

  /** Reading a patched file finds every field of the original with its value, apart from those that the patch writes, if no
      dropped field stands behind a block without text. A file with two marks at its start, whose front matter the patch
      takes for empty, keeps none of its fields. */
  lemma PatchKeepsOtherFields(lines: seq<Line>, summary: Option<seq<Line>>, provenance: string)
    requires ReadFile(lines).Some? && summary != Some([])
    ensures var patched := Patch(lines, summary, provenance);
            && patched.Some? && ReadFile(patched.value).Some?
            && var before, after := ReadFile(lines).value, ReadFile(patched.value).value;
               && (lines[1] == MARK ==> forall k | k in after :: k in Written(summary))
               && (lines[1] != MARK && Untangled(SplitFile(lines).value.metadata, Written(summary)) ==>
                     SameBut(after, before, Written(summary)))
               && (OneLine(provenance) ==> PROVENANCE in after && after[PROVENANCE] == Plain(Trim(" " + provenance)))
  {
    hide OneLine, Trim, ReadLines, NewFields, Without, Untangled, SameBut, Patch, ReadFile, Read;
    PatchedReads(lines, summary, provenance);
    var parts, keys := SplitFile(lines).value, Written(summary);
    var kept, fields := Without(parts.metadata, keys), NewFields(summary, provenance);
    NewFieldsBehind(kept, parts.metadata, summary, provenance);
    if lines[1] == MARK {
      EmptyFrontMatter(lines);
      NothingReadOf(keys);
      OnlyWritten(Read(kept + fields), Read(kept), keys);
    } else if Untangled(parts.metadata, keys) {
      FrontMatterRead(lines);
      KeptReadsAlike(parts.metadata, keys);
      SameTwice(Read(kept + fields), Read(kept), Read(parts.metadata), keys);
    }
  }

  lemma NewFieldsBehind(kept: seq<Line>, metadata: seq<Line>, summary: Option<seq<Line>>, provenance: string)
    requires kept == Without(metadata, Written(summary)) && summary != Some([])
    ensures var after := Read(kept + NewFields(summary, provenance));
            && SameBut(after, Read(kept), Written(summary))
            && (OneLine(provenance) ==> PROVENANCE in after && after[PROVENANCE] == Plain(Trim(" " + provenance)))
  {
    hide OneLine, Trim, ReadLines, NewFields, Without, SameBut;
    ReadAppend(START, kept, NewFields(summary, provenance));
    NoKeyKept(metadata, Written(summary));
    NewFieldsKeepOthers(ReadLines(START, kept), summary, provenance);
  }

  /** The front matter of a patched file, as it is read. */
  lemma PatchedReads(lines: seq<Line>, summary: Option<seq<Line>>, provenance: string)
    requires ReadFile(lines).Some?
    ensures SplitFile(lines).Some? && Patch(lines, summary, provenance).Some?
    ensures ReadFile(Patch(lines, summary, provenance).value)
         == Some(Read(Without(SplitFile(lines).value.metadata, Written(summary)) + NewFields(summary, provenance)))
  {
    hide ReadLines, NewFields, Without, ReadFile;
    ReadableSplits(lines);
    var parts := SplitFile(lines).value;
    var kept, fields := Without(parts.metadata, Written(summary)), NewFields(summary, provenance);
    NewFieldsAreStripped(summary, provenance);
    SomeFields(summary, provenance);
    ReadBetween(kept + fields, parts.suffix);
  }

  lemma NoKeyKept(metadata: seq<Line>, keys: set<string>)
    requires FewKeys(keys) && PROVENANCE in keys
    ensures MARK !in metadata ==> MARK !in Without(metadata, keys)
    ensures SUMMARY in keys ==> ReadLines(START, Without(metadata, keys)).key != SUMMARY
  {
    hide IsField, ReadLines;
    KeyIsKept(START, Without(metadata, keys), keys);
  }

  lemma EmptyFrontMatter(lines: seq<Line>)
    requires ReadFile(lines).Some? && lines[1] == MARK && SplitFile(lines).Some?
    ensures SplitFile(lines).value.metadata == []
  {
    NextMarkIs(lines, 0, 0);
    NextMarkIs(lines, 1, 1);
  }

  lemma FrontMatterRead(lines: seq<Line>)
    requires ReadFile(lines).Some? && lines[1] != MARK && SplitFile(lines).Some?
    ensures ReadFile(lines).value == Read(SplitFile(lines).value.metadata)
  {
    NextMarkIs(lines, 0, 0);
    NextMarkIs(lines, 1, NextMark(lines, 2));
  }

  lemma NothingReadOf(keys: set<string>)
    ensures Without([], keys) == [] && Read([]) == map[]
  {
  }

  lemma OnlyWritten(after: Fields, before: Fields, keys: set<string>)
    requires SameBut(after, before, keys) && before == map[]
    ensures forall k | k in after :: k in keys
  {
  }

  lemma SameTwice(a: Fields, b: Fields, c: Fields, keys: set<string>)
    requires SameBut(a, b, keys) && SameBut(c, b, keys)
    ensures SameBut(a, c, keys)
  {
  }

  const TANGLED: seq<Line> := ["foo: >", PROVENANCE + ": {}", "  text"]

  /** A block whose text stands behind the provenance: dropping the provenance drops the text, and the field is gone. */
  lemma TextIsLost(provenance: string)
    requires OneLine(provenance)
    ensures var lines := [MARK] + TANGLED + [MARK, ""];
            && ReadFile(lines).Some? && "foo" in ReadFile(lines).value && ReadFile(lines).value["foo"] == Block("text")
            && Patch(lines, None, provenance) == Some([MARK] + ["foo: >", PROVENANCE + ": " + provenance] + [MARK, ""])
            && ReadFile(Patch(lines, None, provenance).value).Some?
            && ReadFile(Patch(lines, None, provenance).value).value == map[PROVENANCE := Plain(Trim(" " + provenance))]
  {
    hide OneLine, Trim, ReadLines, ReadFile, Without, ReadLine, SplitFile;
    var rest := [MARK, ""];
    TangledParts(provenance);
    SplitOf(TANGLED, rest);
    ReadBetween(TANGLED, rest);
    var kept := ["foo: >", PROVENANCE + ": " + provenance];
    ReadBetween(kept, rest);
    assert ["foo: >"] + NewFields(None, provenance) == kept;
    OpenFoo();
    var open := ReadLine(START, "foo: >");
    assert TANGLED == ["foo: >"] + [PROVENANCE + ": {}"] + ["  text"] && kept == ["foo: >"] + [PROVENANCE + ": " + provenance];
    ReadAppend(START, ["foo: >"] + [PROVENANCE + ": {}"], ["  text"]);
    ReadAppend(START, ["foo: >"], [PROVENANCE + ": {}"]);
    ReadAppend(START, ["foo: >"], [PROVENANCE + ": " + provenance]);
    ReadOne(START, "foo: >");
    ReadOne(open, PROVENANCE + ": {}");
    ReadOne(ReadLine(open, PROVENANCE + ": {}"), "  text");
    ReadOne(open, PROVENANCE + ": " + provenance);
    PlainField(open, PROVENANCE);
    ProvenanceLine(open, provenance);
    assert "  " + "text" == "  text";
    PutText(ReadLine(open, PROVENANCE + ": {}"), "text");
  }

  lemma OpenFoo()
    ensures ReadLine(START, "foo: >") == Reader("foo", "", map[])
  {
    assert "foo: >" == "foo" + ":" + " >";
    KeyOfField("foo", " >");
    TrimOfMark();
  }

  lemma TangledParts(provenance: string)
    ensures MARK !in TANGLED && MARK !in ["foo: >", PROVENANCE + ": " + provenance]
    ensures Without(TANGLED, {PROVENANCE}) == ["foo: >"]
  {
    hide Without;
    var field := PROVENANCE + ": {}";
    PlainField(START, PROVENANCE);
    assert (PROVENANCE + ": " + provenance)[0] == 'a' && field[0] == 'a';
    assert "foo: >"[0] == 'f' && forall k | k in {PROVENANCE} :: k[0] == 'a';
    assert !Starts("foo: >", PROVENANCE) by { assert (PROVENANCE + ":")[0] == 'a'; }
    assert !IsField("foo: >", {PROVENANCE});
    WithoutTangled(field);
  }

  lemma WithoutTangled(field: Line)
    requires IsField(field, {PROVENANCE}) && !IsField("foo: >", {PROVENANCE})
    ensures Without(["foo: >", field, "  text"], {PROVENANCE}) == ["foo: >"]
  {
    hide IsField;
    assert ["foo: >", field, "  text"][1..] == [field, "  text"] && [field, "  text"][1..] == ["  text"];
    assert Continues("  text") && ["  text"][1..] == [];
    assert Behind(["  text"]) == Behind([]) == [];
    assert Without([field, "  text"], {PROVENANCE}) == Without([], {PROVENANCE}) == [];
  }
}
