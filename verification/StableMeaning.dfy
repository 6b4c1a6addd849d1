/** What the stable text stands on: the order of its keys, what normalization keeps and refuses, and one text in full. */
module StableMeaning {
  import opened Utf16
  import opened StableJson

  // ---- The order of keys -----------------------------------------------------------------------------

  predicate DifferFirst(a: Text, b: Text, i: nat) {
    i < |a| && i < |b| && a[..i] == b[..i] && a[i] < b[i]
  }

  /** One text is below another iff it is a proper prefix of it, or has the smaller code unit where they first differ. */
  lemma {:induction false} BelowIsFirstDifference(a: Text, b: Text)
    ensures Below(a, b) <==> (a < b || exists i: nat :: DifferFirst(a, b, i))
  {
    if a == [] || b == [] {
    } else if a[0] == b[0] {
      BelowIsFirstDifference(a[1..], b[1..]);
      assert a == [a[0]] + a[1..] && b == [b[0]] + b[1..];
      assert a < b <==> a[1..] < b[1..];
      hide DifferFirst;
      DifferLater(a, b);
    } else {
      assert !(a <= b);
      DifferAtOnce(a, b);
    }
  }

  lemma DifferLater(a: Text, b: Text)
    requires a != [] && b != [] && a[0] == b[0]
    ensures (exists i: nat :: DifferFirst(a, b, i)) <==> (exists i: nat :: DifferFirst(a[1..], b[1..], i))
  {
    if i: nat :| DifferFirst(a, b, i) {
      assert i > 0;
      assert a[1..][..i - 1] == a[..i][1..] && b[1..][..i - 1] == b[..i][1..];
      assert DifferFirst(a[1..], b[1..], i - 1);
    }
    if i: nat :| DifferFirst(a[1..], b[1..], i) {
      assert a[..i + 1] == [a[0]] + a[1..][..i] && b[..i + 1] == [b[0]] + b[1..][..i];
      assert DifferFirst(a, b, i + 1);
    }
  }

  lemma DifferAtOnce(a: Text, b: Text)
    requires a != [] && b != [] && a[0] != b[0]
    ensures (exists i: nat :: DifferFirst(a, b, i)) <==> a[0] < b[0]
  {
    if a[0] < b[0] { assert DifferFirst(a, b, 0); }
    if i: nat :| DifferFirst(a, b, i) {
      EqualAlong(a, b, i);
    }
  }

  lemma EqualAlong(a: Text, b: Text, i: nat)
    requires i < |a| && i < |b| && a[..i] == b[..i]
    ensures forall k | 0 <= k < i :: a[k] == b[k]
  {
    assert forall k | 0 <= k < i :: a[k] == a[..i][k] == b[..i][k] == b[k];
  }

  /** There is one ascending list of the keys, and an object prints its fields along it. */
  lemma ObjectPrintsInOrder(fields: map<Text, Tree>, keys: seq<Text>)
    requires Ascending(keys) && forall k :: k in keys <==> k in fields
    ensures Print(Obj(fields)) == [OPEN_OBJECT] + PrintFields(Obj(fields), keys) + [CLOSE_OBJECT]
  {
    hide PrintFields;
    OneOrder(keys, fields.Keys);
  }

  lemma {:induction false} OneOrder(list: seq<Text>, keys: set<Text>)
    requires Ascending(list) && forall k :: k in list <==> k in keys
    ensures Sorted(keys) == list
    decreases |list|
  {
    if list == [] {
      assert keys == {};
    } else {
      hide Ascending, Below;
      FirstIsLeast(list, keys);
      RestWithoutFirst(list);
      LeastIsUnique(keys, list[0], Least(keys));
      OneOrder(list[1..], keys - {list[0]});
    }
  }

  lemma FirstIsLeast(list: seq<Text>, keys: set<Text>)
    requires Ascending(list) && list != [] && forall k :: k in list <==> k in keys
    ensures IsLeast(keys, list[0])
  {
    hide Below;
    assert list[0] in list;
    forall j | j in keys
      ensures j == list[0] || Below(list[0], j)
    {
      var i :| 0 <= i < |list| && list[i] == j;
    }
  }

  lemma RestWithoutFirst(list: seq<Text>)
    requires Ascending(list) && list != []
    ensures Ascending(list[1..]) && forall k :: k in list[1..] <==> k in list && k != list[0]
  {
    hide Below;
    forall k
      ensures k in list[1..] <==> k in list && k != list[0]
    {
      if k in list[1..] {
        var i :| 0 <= i < |list[1..]| && list[1..][i] == k;
        assert list[i + 1] == k && Below(list[0], list[i + 1]);
        BelowIsStrict(k);
      }
      assert list == [list[0]] + list[1..];
    }
  }

  // ---- What normalization keeps ----------------------------------------------------------------------

  /** The payload that a tree is the normal form of, when nothing had to be dropped or replaced. */
  function Given(t: Tree): Payload {
    match t
    case Hole => Gap
    case Null => Nothing
    case Bool(b) => Truth(b)
    case Num(n) => Number(n)
    case Str(text) => Chars(text)
    case Arr(items) => List(seq(|items|, i requires 0 <= i < |items| => Given(items[i])))
    case Obj(fields) => Record(map k | k in fields :: Given(fields[k]))
  }

  /** Nothing undefined in it, and no field that would set a prototype. */
  ghost predicate Plain(p: Payload) {
    match p
    case Undefined => false
    case List(items) => forall i | 0 <= i < |items| :: Plain(items[i])
    case Record(fields) => PROTO !in fields && forall k | k in fields :: Plain(fields[k])
    case _ => true
  }

  /** Jsonable, or a gap where a list has one. */
  ghost predicate Item(p: Payload) { p.Gap? || Jsonable(p) }

  /** Plain JSON data is kept as it is: every scalar, every item at its place, every field under its key. */
  lemma {:induction false} NormalKeepsPlainData(p: Payload)
    requires Item(p) && Plain(p)
    ensures Given(Normal(p)) == p
    decreases p
  {
    match p
    case List(items) =>
      forall i | 0 <= i < |items|
        ensures Given(Normal(items[i])) == items[i]
      {
        NormalKeepsPlainData(items[i]);
      }
      hide Plain, Item;
      ListComesBack(p);
    case Record(fields) =>
      forall k | k in fields
        ensures Given(Normal(fields[k])) == fields[k]
      {
        NormalKeepsPlainData(fields[k]);
      }
      assert PROTO !in fields && forall k | k in fields :: !fields[k].Undefined?;
      hide Plain, Item;
      RecordComesBack(p);
    case _ =>
  }

  lemma ListComesBack(p: Payload)
    requires p.List? && forall i | 0 <= i < |p.items| :: Given(Normal(p.items[i])) == p.items[i]
    ensures Given(Normal(p)) == p
  {
    var back := Given(Normal(p));
    assert |back.items| == |p.items| && forall i | 0 <= i < |p.items| :: back.items[i] == p.items[i];
  }

  lemma RecordComesBack(p: Payload)
    requires p.Record? && PROTO !in p.fields && forall k | k in p.fields :: !p.fields[k].Undefined?
    requires forall k | k in p.fields :: Given(Normal(p.fields[k])) == p.fields[k]
    ensures Given(Normal(p)) == p
  {
    hide PROTO;
    var normal := Normal(p).fields;
    assert normal.Keys == p.fields.Keys;
    assert forall k | k in p.fields :: normal[k] == Normal(p.fields[k]);
    hide Normal;
    var back := Given(Obj(normal)).fields;
    assert back.Keys == p.fields.Keys;
    assert forall k | k in p.fields :: back[k] == p.fields[k];
  }

  /** What is replaced and what is dropped: an undefined item reads as null, and a field is lost exactly when it is undefined
      or named `__proto__`. */
  lemma WhatIsLost(p: Payload)
    ensures p.List? ==> forall i | 0 <= i < |p.items| && p.items[i].Undefined? :: Normal(p).items[i] == Null
    ensures p.Record? ==> forall k :: k in Normal(p).fields <==> k in p.fields && !p.fields[k].Undefined? && k != PROTO
  {
  }

  // ---- What it refuses -------------------------------------------------------------------------------

  /** A value somewhere inside a payload. */
  ghost predicate Inside(q: Payload, p: Payload)
    decreases p
  {
    || q == p
    || (p.List? && exists i :: 0 <= i < |p.items| && Inside(q, p.items[i]))
    || (p.Record? && exists k :: k in p.fields && Inside(q, p.fields[k]))
  }

  /** Nothing foreign and no number that is not finite passes, however deep it is hidden, and a gap only inside a list. */
  lemma {:induction false} NothingForeignPasses(q: Payload, p: Payload)
    requires Inside(q, p) && Jsonable(p)
    ensures !q.Foreign? && !q.NotFinite?
    decreases p
  {
    if q != p {
      if p.List? {
        var i :| 0 <= i < |p.items| && Inside(q, p.items[i]);
        if !p.items[i].Undefined? && !p.items[i].Gap? { NothingForeignPasses(q, p.items[i]); }
      } else {
        var k :| k in p.fields && Inside(q, p.fields[k]);
        if !p.fields[k].Undefined? { NothingForeignPasses(q, p.fields[k]); }
      }
    }
  }

  /** Data that holds no such value passes. */
  lemma {:induction false} EverythingElsePasses(p: Payload)
    requires Plain(p) && !p.Gap? && forall q | Inside(q, p) :: !q.Foreign? && !q.NotFinite?
    requires forall q | Inside(q, p) && q.Record? :: forall k | k in q.fields :: !q.fields[k].Gap?
    ensures Jsonable(p)
    decreases p
  {
    assert Inside(p, p);
    match p
    case List(items) =>
      forall i | 0 <= i < |items| && !items[i].Gap?
        ensures Jsonable(items[i])
      {
        assert forall q | Inside(q, items[i]) :: Inside(q, p);
        EverythingElsePasses(items[i]);
      }
    case Record(fields) =>
      forall k | k in fields
        ensures Jsonable(fields[k])
      {
        assert forall q | Inside(q, fields[k]) :: Inside(q, p);
        EverythingElsePasses(fields[k]);
      }
    case _ =>
  }

  // ---- What the limits count -------------------------------------------------------------------------

  /** A value so many levels below a payload. */
  ghost predicate LiesAt(q: Payload, p: Payload, level: nat)
    decreases p
  {
    if level == 0 then q == p
    else
      || (p.List? && exists i :: 0 <= i < |p.items| && LiesAt(q, p.items[i], level - 1))
      || (p.Record? && exists k :: k in p.fields && LiesAt(q, p.fields[k], level - 1))
  }

  /** No value that is visited, undefined ones and gaps aside, lies below a depth. */
  ghost predicate Shallow(p: Payload, depth: int) {
    forall q, level: nat :: LiesAt(q, p, level) && !q.Undefined? && !q.Gap? ==> level <= depth
  }

  /** The depth limit looks at every level and at nothing else. */
  lemma WithinLooksAtEveryLevel(p: Payload, depth: int)
    ensures Within(p, depth) <==> Shallow(p, depth)
  {
    hide Within, LiesAt;
    if Within(p, depth) {
      forall q, level: nat | LiesAt(q, p, level) && !q.Undefined? && !q.Gap?
        ensures level <= depth
      {
        WithinIsShallow(p, depth, q, level);
      }
    } else {
      var q, level := TooDeep(p, depth);
    }
  }

  lemma {:induction false} WithinIsShallow(p: Payload, depth: int, q: Payload, level: nat)
    requires Within(p, depth) && LiesAt(q, p, level) && !q.Undefined? && !q.Gap?
    ensures level <= depth
    decreases p
  {
    if level > 0 {
      match p
      case List(items) =>
        var i :| 0 <= i < |items| && LiesAt(q, items[i], level - 1);
        WithinIsShallow(items[i], depth - 1, q, level - 1);
      case Record(fields) =>
        var k :| k in fields && LiesAt(q, fields[k], level - 1);
        WithinIsShallow(fields[k], depth - 1, q, level - 1);
    }
  }

  lemma {:induction false} TooDeep(p: Payload, depth: int) returns (q: Payload, level: nat)
    requires !Within(p, depth)
    ensures LiesAt(q, p, level) && !q.Undefined? && !q.Gap? && level > depth
    decreases p
  {
    q, level := p, 0;
    if depth >= 0 {
      if p.List? {
        var i :| 0 <= i < |p.items| && !Within(p.items[i], depth - 1);
        q, level := TooDeep(p.items[i], depth - 1);
        level := level + 1;
      } else {
        var k :| k in p.fields && !Within(p.fields[k], depth - 1);
        q, level := TooDeep(p.fields[k], depth - 1);
        level := level + 1;
      }
    }
  }

  /** Every list, record and scalar counts once; undefined values and gaps count nothing: six values in
      `[true, undefined, (gap), {"b": [null]}, {"a": undefined}]`. */
  lemma ExampleCount()
    ensures Nodes(List([Truth(true), Undefined, Gap, Record(map[[98] := List([Nothing])]), Record(map[[97] := Undefined])])) == 6
  {
    hide Sorted;
    var inner := List([Nothing]);
    var filled, empty := Record(map[[98] := inner]), Record(map[[97] := Undefined]);
    OneFieldCount([98], inner);
    OneFieldCount([97], Undefined);
    assert NodesBefore(inner, 0) == 0 && NodesBefore(inner, 1) == 1 && Nodes(inner) == 2;
    var p := List([Truth(true), Undefined, Gap, filled, empty]);
    assert NodesBefore(p, 0) == 0 && NodesBefore(p, 1) == 1 && NodesBefore(p, 2) == 1 && NodesBefore(p, 3) == 1;
    assert NodesBefore(p, 4) == 4 && NodesBefore(p, 5) == 5;
  }

  lemma OneFieldCount(key: Text, value: Payload)
    ensures Nodes(Record(map[key := value])) == 1 + Nodes(value)
  {
    hide Sorted;
    var p := Record(map[key := value]);
    OneOrder([key], p.fields.Keys);
    assert [key][..0] == [];
    assert NodesBehind(p, [key]) == NodesBehind(p, []) + Nodes(value);
  }

  /** UTF-8 takes one to three bytes a code unit, and four for a surrogate pair; texts add up. */
  lemma {:induction false} Utf8Adds(a: Text, b: Text)
    ensures Utf8Length(a + b) == Utf8Length(a) + Utf8Length(b)
    ensures |a| <= Utf8Length(a) <= 3 * |a|
  {
    if a == [] {
      assert a + b == b;
    } else {
      assert (a + b)[1..] == a[1..] + b && a == [a[0]] + a[1..];
      Utf8Adds(a[1..], b);
    }
  }

  lemma Utf8OfOne(c: Unit, high: Unit, low: Unit)
    requires 0xD800 <= high < 0xDC00 <= low < 0xE000
    ensures Utf8Length([high, low]) == 4
    ensures c < 0xD800 || c >= 0xE000 ==> Utf8Length([c]) == if c < 0x80 then 1 else if c < 0x800 then 2 else 3
  {
    assert [high, low][1..] == [low] && [low][1..] == [] && [c][1..] == [];
    assert Utf8Length([low]) == 2 + Utf8Length([]);
  }

  // ---- The form of the text --------------------------------------------------------------------------

  /** A code unit stands for itself, or behind a backslash, or as four hex digits. */
  lemma EscapesAreShortest(c: Unit)
    ensures |EscapedUnit(c)| == if c in {8, 9, 10, 12, 13, QUOTE, BACKSLASH} then 2
                                else if c < 32 || 0xD800 <= c < 0xE000 then 6 else 1
    ensures |EscapedUnit(c)| == 1 ==> EscapedUnit(c) == [c]
    ensures |EscapedUnit(c)| > 1 ==> EscapedUnit(c)[0] == BACKSLASH && ReadEscape(EscapedUnit(c)) == Escape(c, |EscapedUnit(c)|)
  {
    if |EscapedUnit(c)| == 2 {
      ShortBack(c, []);
      assert EscapedUnit(c) + [] == EscapedUnit(c);
    } else if |EscapedUnit(c)| > 2 {
      HexBack(c, []);
      assert EscapedUnit(c) + [] == EscapedUnit(c);
    }
  }

  /** `{"a":[true,"x\n"],"b":null}`. */
  const EXAMPLE_TEXT: Text := [123, 34, 97, 34, 58, 91] + [116, 114, 117, 101, 44] + [34, 120, 92, 110, 34] + [93, 44]
                              + [34, 98, 34, 58] + [110, 117, 108, 108, 125]

  lemma ExampleText()
    ensures Print(Normal(Record(map[[98] := Nothing, [97] := List([Truth(true), Chars([120, 10])])]))) == EXAMPLE_TEXT
  {
    hide Print, PrintFields, Normal, Ascending;
    var fields: map<Text, Tree> := map[[98] := Null, [97] := Arr([Bool(true), Str([120, 10])])];
    ExampleNormal();
    ExampleKeys(fields);
    ObjectPrintsInOrder(fields, [[97], [98]]);
    ExampleList();
    ExampleFields(fields);
  }

  lemma ExampleKeys(fields: map<Text, Tree>)
    requires fields.Keys == {[98], [97]}
    ensures Ascending([[97], [98]]) && forall k :: k in [[97], [98]] <==> k in fields
  {
    assert Below([97], [98]);
  }

  lemma ExampleNormal()
    ensures Normal(Record(map[[98] := Nothing, [97] := List([Truth(true), Chars([120, 10])])]))
         == Obj(map[[98] := Null, [97] := Arr([Bool(true), Str([120, 10])])])
  {
    var list := List([Truth(true), Chars([120, 10])]);
    assert Normal(list).items == [Bool(true), Str([120, 10])];
    assert [98] != PROTO && [97] != PROTO by { assert |PROTO| == 9; }
  }

  lemma ExampleList()
    ensures Print(Arr([Bool(true), Str([120, 10])])) == [91] + [116, 114, 117, 101, 44] + [34, 120, 92, 110, 34] + [93]
  {
    var t := Arr([Bool(true), Str([120, 10])]);
    assert [120, 10][1..] == [10] && [10][1..] == [];
    assert EscapedText([10]) == [92, 110] + EscapedText([]);
    assert EscapedText([120, 10]) == [120] + EscapedText([10]) == [120, 92, 110];
    assert PrintItems(t, 2) == [];
    assert PrintItems(t, 1) == Quoted([120, 10]) == [34, 120, 92, 110, 34];
  }

  lemma ExampleFields(fields: map<Text, Tree>)
    requires fields == map[[98] := Null, [97] := Arr([Bool(true), Str([120, 10])])]
    ensures forall k | k in [[97], [98]] :: k in fields
    ensures PrintFields(Obj(fields), [[97], [98]])
         == [34, 97, 34, 58] + Print(Arr([Bool(true), Str([120, 10])])) + [44] + [34, 98, 34, 58] + [110, 117, 108, 108]
  {
    hide Print, EscapedText;
    var t := Obj(fields);
    var both: seq<Text> := [[97], [98]];
    assert both[1..] == [[98]] && [[98]][1..] == [];
    OneLetter(97);
    OneLetter(98);
    assert Print(Null) == NULL_TEXT by { NullPrints(); }
    assert PrintFields(t, [[98]]) == Quoted([98]) + [COLON] + Print(Null);
  }

  lemma NullPrints()
    ensures Print(Null) == NULL_TEXT
  {
  }

  lemma OneLetter(c: Unit)
    requires 97 <= c <= 122
    ensures EscapedText([c]) == [c]
  {
    assert [c][1..] == [];
    assert EscapedText([c]) == [c] + EscapedText([]);
  }
}
