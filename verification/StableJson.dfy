/** The stable JSON text of a resume payload: normalization under limits, printing with sorted keys, and a reader that
    takes the text apart again. Numbers are known by their printed text. */
module StableJson {
  import opened Utf16

  const QUOTE: Unit := 34
  const PLUS: Unit := 43
  const COMMA: Unit := 44
  const MINUS: Unit := 45
  const DOT: Unit := 46
  const COLON: Unit := 58
  const OPEN_LIST: Unit := 91
  const BACKSLASH: Unit := 92
  const CLOSE_LIST: Unit := 93
  const OPEN_OBJECT: Unit := 123
  const CLOSE_OBJECT: Unit := 125
  const NULL_TEXT: Text := [110, 117, 108, 108]
  const TRUE_TEXT: Text := [116, 114, 117, 101]
  const FALSE_TEXT: Text := [102, 97, 108, 115, 101]

  /** The text `__proto__`. */
  const PROTO: Text := [95, 95, 112, 114, 111, 116, 111, 95, 95]

  predicate Digit(c: Unit) { 48 <= c <= 57 }

  /** The characters of a printed number, such as -5e-7. */
  predicate Numeric(c: Unit) { Digit(c) || c == MINUS || c == PLUS || c == DOT || c == 101 }

  predicate IsNumberText(t: Text) {
    t != [] && (Digit(t[0]) || t[0] == MINUS) && forall i | 0 <= i < |t| :: Numeric(t[i])
  }

  type NumberText = t: Text | IsNumberText(t) witness [48]

  /** What a caller may pass. A gap is a hole of a sparse array; foreign values are functions, dates and the like. */
  datatype Payload = Undefined | Gap | Foreign | NotFinite | Nothing | Truth(b: bool) | Number(n: NumberText) | Chars(text: Text)
                   | List(items: seq<Payload>) | Record(fields: map<Text, Payload>)

  /** What normalization returns. */
  datatype Tree = Hole | Null | Bool(b: bool) | Num(n: NumberText) | Str(text: Text)
                | Arr(items: seq<Tree>) | Obj(fields: map<Text, Tree>)

  // ---- Keys in their order ---------------------------------------------------------------------------

  /** The default order of `sort`: by UTF-16 code units. */
  predicate Below(a: Text, b: Text) {
    b != [] && (a == [] || a[0] < b[0] || (a[0] == b[0] && Below(a[1..], b[1..])))
  }

  lemma {:induction false} BelowIsTotal(a: Text, b: Text)
    ensures Below(a, b) || Below(b, a) || a == b
  {
    if a != [] && b != [] && a[0] == b[0] {
      BelowIsTotal(a[1..], b[1..]);
      assert a == [a[0]] + a[1..] && b == [b[0]] + b[1..];
    }
  }

  lemma {:induction false} BelowIsTransitive(a: Text, b: Text, c: Text)
    requires Below(a, b) && Below(b, c)
    ensures Below(a, c)
  {
    if a != [] && a[0] == b[0] && b[0] == c[0] {
      BelowIsTransitive(a[1..], b[1..], c[1..]);
    }
  }

  lemma {:induction false} BelowIsStrict(a: Text)
    ensures !Below(a, a)
  {
    if a != [] {
      BelowIsStrict(a[1..]);
    }
  }

  predicate IsLeast(keys: set<Text>, k: Text) {
    k in keys && forall j | j in keys :: j == k || Below(k, j)
  }

  lemma {:induction false} LeastExists(keys: set<Text>) returns (k: Text)
    requires keys != {}
    ensures IsLeast(keys, k)
    decreases |keys|
  {
    k :| k in keys;
    var others := keys - {k};
    if others != {} {
      var least := LeastExists(others);
      BelowIsTotal(k, least);
      if Below(least, k) {
        k := least;
      } else {
        forall j | j in others && j != least
          ensures Below(k, j)
        {
          BelowIsTransitive(k, least, j);
        }
      }
    }
  }

  lemma LeastIsUnique(keys: set<Text>, a: Text, b: Text)
    requires IsLeast(keys, a) && IsLeast(keys, b)
    ensures a == b
  {
    if a != b {
      BelowIsTransitive(a, b, a);
      BelowIsStrict(a);
    }
  }

  function Least(keys: set<Text>): (k: Text)
    requires keys != {}
    ensures IsLeast(keys, k)
  {
    assert exists k :: IsLeast(keys, k) by { var k := LeastExists(keys); }
    assert forall a, b | IsLeast(keys, a) && IsLeast(keys, b) :: a == b by {
      forall a, b | IsLeast(keys, a) && IsLeast(keys, b) ensures a == b { LeastIsUnique(keys, a, b); }
    }
    var k :| IsLeast(keys, k);
    k
  }

  /** The keys of an object, sorted. */
  function Sorted(keys: set<Text>): (s: seq<Text>)
    ensures forall k :: k in s <==> k in keys
    ensures Ascending(s)
    decreases |keys|
  {
    if keys == {} then []
    else
      var k := Least(keys);
      [k] + Sorted(keys - {k})
  }

  ghost predicate Ascending(s: seq<Text>) {
    forall i, j | 0 <= i < j < |s| :: Below(s[i], s[j])
  }

  // ---- What normalization means ----------------------------------------------------------------------

  /** A field survives unless it is undefined or would set the prototype of the new object instead of a field. */
  predicate Survives(key: Text, p: Payload) { !p.Undefined? && key != PROTO }

  /** Objects are their surviving fields in no order, and an undefined item reads as null. */
  function Normal(p: Payload): Tree {
    match p
    case Truth(b) => Bool(b)
    case Number(n) => Num(n)
    case Chars(text) => Str(text)
    case List(items) => Arr(seq(|items|, i requires 0 <= i < |items| => Normal(items[i])))
    case Record(fields) => Obj(map k | k in fields && Survives(k, fields[k]) :: Normal(fields[k]))
    case Gap => Hole
    case _ => Null
  }

  /** Plain JSON data. Undefined is allowed behind a key or an index only, a gap in a list only. */
  ghost predicate Jsonable(p: Payload) {
    match p
    case Undefined => false
    case Gap => false
    case Foreign => false
    case NotFinite => false
    case List(items) => forall i | 0 <= i < |items| :: items[i].Undefined? || items[i].Gap? || Jsonable(items[i])
    case Record(fields) => forall k | k in fields :: fields[k].Undefined? || Jsonable(fields[k])
    case _ => true
  }

  /** The values that a traversal visits: all but undefined ones and gaps. */
  ghost function Nodes(p: Payload): (n: nat)
    decreases p
  {
    match p
    case Undefined => 0
    case Gap => 0
    case List(items) => 1 + NodesBefore(p, |items|)
    case Record(fields) => 1 + NodesBehind(p, Sorted(fields.Keys))
    case _ => 1
  }

  /** The nodes of the first items of a list. */
  ghost function NodesBefore(p: Payload, n: nat): nat
    requires p.List? && n <= |p.items|
    decreases p, n
  {
    if n == 0 then 0 else NodesBefore(p, n - 1) + Nodes(p.items[n - 1])
  }

  /** The nodes of the fields under some keys of a record. */
  ghost function NodesBehind(p: Payload, keys: seq<Text>): nat
    requires p.Record? && forall k | k in keys :: k in p.fields
    decreases p, |keys|
  {
    if keys == [] then 0 else NodesBehind(p, keys[..|keys| - 1]) + Nodes(p.fields[keys[|keys| - 1]])
  }

  /** No visited value lies deeper than `depth` below the payload. */
  ghost predicate Within(p: Payload, depth: int) {
    match p
    case Undefined => true
    case Gap => true
    case List(items) => depth >= 0 && forall i | 0 <= i < |items| :: Within(items[i], depth - 1)
    case Record(fields) => depth >= 0 && forall k | k in fields :: Within(fields[k], depth - 1)
    case _ => depth >= 0
  }

  datatype Limits = Limits(depth: nat, nodes: nat, bytes: nat)

  datatype Outcome = Normalized(tree: Tree) | Refused

  /** `normalizeResumeValue` with its counter shared by the whole traversal. */
  class Normalizer {
    const limits: Limits
    var nodes: nat

    constructor (limits: Limits)
      ensures this.limits == limits && nodes == 0
    {
      this.limits, nodes := limits, 0;
    }

    /** A payload is accepted iff it is JSON data within both limits, however early a violation is noticed. */
    method NormalizeValue(p: Payload, depth: nat) returns (r: Outcome)
      requires nodes <= limits.nodes
      modifies this
      ensures r.Normalized? <==>
              Jsonable(p) && Within(p, limits.depth - depth) && old(nodes) + Nodes(p) <= limits.nodes
      ensures r.Normalized? ==> r.tree == Normal(p) && nodes == old(nodes) + Nodes(p)
      decreases p
    {
      hide NodesBefore, NodesBehind, Normal, Sorted;
      Scalars(p);
      if p.List? { ListFits(p, limits.depth - depth); }
      if p.Record? { RecordFits(p, limits.depth - depth); }
      nodes := nodes + 1;
      if nodes > limits.nodes || depth > limits.depth { return Refused; }
      match p
      case Nothing => r := Normalized(Null);
      case Truth(b) => r := Normalized(Bool(b));
      case Number(n) => r := Normalized(Num(n));
      case Chars(text) => r := Normalized(Str(text));
      case List(items) => r := NormalizeItems(p, depth);
      case Record(fields) => r := NormalizeFields(p, depth);
      case _ => r := Refused;
    }

    method NormalizeItems(p: Payload, depth: nat) returns (r: Outcome)
      requires p.List? && nodes <= limits.nodes
      modifies this
      ensures r.Normalized? <==>
              ItemsFit(p, |p.items|, limits.depth - depth - 1) && old(nodes) + NodesBefore(p, |p.items|) <= limits.nodes
      ensures r.Normalized? ==> r.tree == Normal(p) && nodes == old(nodes) + NodesBefore(p, |p.items|)
      decreases p, 0
    {
      var items: seq<Tree> := [];
      for i := 0 to |p.items|
        invariant |items| == i && forall j | 0 <= j < i :: items[j] == Normal(p.items[j])
        invariant nodes == old(nodes) + NodesBefore(p, i) <= limits.nodes
        invariant ItemsFit(p, i, limits.depth - depth - 1)
      {
        var item := p.items[i];
        NodesGrow(p, i + 1, |p.items|);
        if item.Undefined? {
          items := items + [Null];
        } else if item.Gap? {
          items := items + [Hole];
        } else {
          var entry := NormalizeValue(item, depth + 1);
          if entry.Refused? { return Refused; }
          items := items + [entry.tree];
        }
      }
      assert items == Normal(p).items;
      r := Normalized(Arr(items));
    }

    method NormalizeFields(p: Payload, depth: nat) returns (r: Outcome)
      requires p.Record? && nodes <= limits.nodes
      modifies this
      ensures r.Normalized? <==>
              FieldsFit(p, Sorted(p.fields.Keys), limits.depth - depth - 1)
              && old(nodes) + NodesBehind(p, Sorted(p.fields.Keys)) <= limits.nodes
      ensures r.Normalized? ==> r.tree == Normal(p) && nodes == old(nodes) + NodesBehind(p, Sorted(p.fields.Keys))
      decreases p, 0
    {
      hide Jsonable, Within, Normal, Nodes, NodesBehind, Sorted, FieldsFit, Built;
      var keys := Sorted(p.fields.Keys);
      NothingBuilt(p, limits.depth - depth - 1);
      assert keys[..0] == [];
      var normalized: map<Text, Tree> := map[];
      for i := 0 to |keys|
        invariant normalized == Built(p, keys[..i])
        invariant nodes == old(nodes) + NodesBehind(p, keys[..i]) <= limits.nodes
        invariant FieldsFit(p, keys[..i], limits.depth - depth - 1)
      {
        var entry := p.fields[keys[i]];
        FieldStep(p, keys, i, limits.depth - depth - 1);
        BuiltStep(p, keys, i);
        if entry.Undefined? { continue; }
        var tree := NormalizeValue(entry, depth + 1);
        if tree.Refused? { return Refused; }
        if keys[i] != PROTO { normalized := normalized[keys[i] := tree.tree]; }
      }
      assert keys[..|keys|] == keys;
      AllBuilt(p, keys);
      r := Normalized(Obj(normalized));
    }
  }

  ghost predicate ItemsFit(p: Payload, n: nat, depth: int)
    requires p.List? && n <= |p.items|
  {
    forall i | 0 <= i < n :: p.items[i].Undefined? || p.items[i].Gap? || (Jsonable(p.items[i]) && Within(p.items[i], depth))
  }

  ghost predicate FieldsFit(p: Payload, keys: seq<Text>, depth: int)
    requires p.Record? && forall k | k in keys :: k in p.fields
  {
    forall k | k in keys :: p.fields[k].Undefined? || (Jsonable(p.fields[k]) && Within(p.fields[k], depth))
  }

  lemma {:induction false} NodesGrow(p: Payload, i: nat, n: nat)
    requires p.List? && i <= n <= |p.items|
    ensures NodesBefore(p, i) <= NodesBefore(p, n)
    decreases n
  {
    if i < n {
      NodesGrow(p, i, n - 1);
    }
  }

  lemma {:induction false} FieldNodesGrow(p: Payload, keys: seq<Text>, i: nat)
    requires p.Record? && (forall k | k in keys :: k in p.fields) && i <= |keys|
    ensures NodesBehind(p, keys[..i]) <= NodesBehind(p, keys)
    decreases |keys|
  {
    if i < |keys| {
      FieldNodesGrow(p, keys[..|keys| - 1], i);
      assert keys[..|keys| - 1][..i] == keys[..i];
    } else {
      assert keys[..i] == keys;
    }
  }

  ghost predicate FieldFits(p: Payload, depth: int) {
    p.Undefined? || (Jsonable(p) && Within(p, depth))
  }

  lemma FieldStep(p: Payload, keys: seq<Text>, i: nat, depth: int)
    requires p.Record? && (forall k | k in keys :: k in p.fields) && i < |keys|
    ensures keys[i] in p.fields && forall k | k in keys[..i + 1] :: k in p.fields
    ensures NodesBehind(p, keys[..i + 1]) == NodesBehind(p, keys[..i]) + Nodes(p.fields[keys[i]]) <= NodesBehind(p, keys)
    ensures FieldsFit(p, keys[..i + 1], depth) <==> FieldsFit(p, keys[..i], depth) && FieldFits(p.fields[keys[i]], depth)
    ensures FieldsFit(p, keys, depth) ==> FieldsFit(p, keys[..i + 1], depth)
    ensures p.fields[keys[i]].Undefined? ==> Nodes(p.fields[keys[i]]) == 0
  {
    hide Jsonable, Within;
    FieldNodesGrow(p, keys, i + 1);
    assert keys[..i + 1][..i] == keys[..i];
    Snoc(keys, i);
  }

  lemma Snoc(keys: seq<Text>, i: nat)
    requires i < |keys|
    ensures forall k :: k in keys[..i + 1] <==> k in keys[..i] || k == keys[i]
    ensures forall k :: k in keys[..i + 1] ==> k in keys
  {
    assert keys[..i + 1] == keys[..i] + [keys[i]];
  }

  /** The surviving fields under some of the keys. */
  ghost function Built(p: Payload, keys: seq<Text>): map<Text, Tree>
    requires p.Record?
  {
    map k | k in p.fields && k in keys && Survives(k, p.fields[k]) :: Normal(p.fields[k])
  }

  lemma BuiltStep(p: Payload, keys: seq<Text>, i: nat)
    requires p.Record? && i < |keys| && keys[i] in p.fields
    ensures var entry := p.fields[keys[i]];
            Built(p, keys[..i + 1]) == if Survives(keys[i], entry) then Built(p, keys[..i])[keys[i] := Normal(entry)] else Built(p, keys[..i])
  {
    Snoc(keys, i);
  }

  lemma NothingBuilt(p: Payload, depth: int)
    requires p.Record?
    ensures Built(p, []) == map[] && NodesBehind(p, []) == 0 && FieldsFit(p, [], depth)
  {
  }

  lemma AllBuilt(p: Payload, keys: seq<Text>)
    requires p.Record? && forall k :: k in keys <==> k in p.fields
    ensures Normal(p) == Obj(Built(p, keys))
  {
  }

  lemma Scalars(p: Payload)
    ensures p.Nothing? ==> Normal(p) == Null
    ensures p.Truth? ==> Normal(p) == Bool(p.b)
    ensures p.Number? ==> Normal(p) == Num(p.n)
    ensures p.Chars? ==> Normal(p) == Str(p.text)
  {
  }

  lemma ListFits(p: Payload, depth: int)
    requires p.List?
    ensures Jsonable(p) && Within(p, depth) <==> depth >= 0 && ItemsFit(p, |p.items|, depth - 1)
    ensures Nodes(p) == 1 + NodesBefore(p, |p.items|)
  {
  }

  lemma RecordFits(p: Payload, depth: int)
    requires p.Record?
    ensures Jsonable(p) && Within(p, depth) <==> depth >= 0 && FieldsFit(p, Sorted(p.fields.Keys), depth - 1)
    ensures Nodes(p) == 1 + NodesBehind(p, Sorted(p.fields.Keys))
  {
    hide Sorted;
  }

  // ---- Printing --------------------------------------------------------------------------------------

  function HexDigit(n: int): Unit
    requires 0 <= n < 16
  {
    if n < 10 then 48 + n else 87 + n
  }

  function Hex(c: Unit): Text {
    [HexDigit(c / 16 / 16 / 16), HexDigit(c / 16 / 16 % 16), HexDigit(c / 16 % 16), HexDigit(c % 16)]
  }

  /** One code unit inside a JSON string, when it is no half of a surrogate pair. */
  function EscapedUnit(c: Unit): Text {
    if c == QUOTE || c == BACKSLASH then [BACKSLASH, c]
    else if c == 8 then [BACKSLASH, 98]
    else if c == 9 then [BACKSLASH, 116]
    else if c == 10 then [BACKSLASH, 110]
    else if c == 12 then [BACKSLASH, 102]
    else if c == 13 then [BACKSLASH, 114]
    else if c < 32 || High(c) || Low(c) then [BACKSLASH, 117] + Hex(c)
    else [c]
  }

  function EscapedText(text: Text): Text {
    if text == [] then []
    else if High(text[0]) && |text| > 1 && Low(text[1]) then [text[0], text[1]] + EscapedText(text[2..])
    else EscapedUnit(text[0]) + EscapedText(text[1..])
  }

  /** `JSON.stringify` of a string. */
  function Quoted(text: Text): Text {
    [QUOTE] + EscapedText(text) + [QUOTE]
  }

  /** `stableStringify`. A hole prints as nothing, the way `join` treats it. */
  function Print(t: Tree): Text
    decreases t
  {
    match t
    case Null => NULL_TEXT
    case Bool(b) => if b then TRUE_TEXT else FALSE_TEXT
    case Num(n) => n
    case Str(text) => Quoted(text)
    case Arr(items) => [OPEN_LIST] + PrintItems(t, 0) + [CLOSE_LIST]
    case Obj(fields) => [OPEN_OBJECT] + PrintFields(t, Sorted(fields.Keys)) + [CLOSE_OBJECT]
    case Hole => []
  }

  function PrintItems(t: Tree, i: nat): Text
    requires t.Arr? && i <= |t.items|
    decreases t, |t.items| - i
  {
    if i == |t.items| then []
    else Print(t.items[i]) + if i + 1 < |t.items| then [COMMA] + PrintItems(t, i + 1) else []
  }

  function PrintFields(t: Tree, keys: seq<Text>): Text
    requires t.Obj? && forall k | k in keys :: k in t.fields
    decreases t, |keys|
  {
    if keys == [] then []
    else Quoted(keys[0]) + [COLON] + Print(t.fields[keys[0]])
         + if |keys| > 1 then [COMMA] + PrintFields(t, keys[1..]) else []
  }

  // ---- Reading ---------------------------------------------------------------------------------------

  datatype CharsRead = NoChars | CharsRead(text: Text, rest: Text)

  predicate IsHexDigit(c: Unit) { Digit(c) || 97 <= c <= 102 }

  function HexValue(c: Unit): int
    requires IsHexDigit(c)
    ensures 0 <= HexValue(c) < 16
  {
    if Digit(c) then c - 48 else c - 87
  }

  function Prepend(c: Unit, r: CharsRead): CharsRead {
    if r.NoChars? then r else CharsRead([c] + r.text, r.rest)
  }

  /** The code unit that an escape sequence stands for, and how long the sequence is. */
  datatype Escape = NoEscape | Escape(c: Unit, length: nat)

  function ReadEscape(s: Text): (e: Escape)
    ensures e.Escape? ==> 2 <= e.length <= |s|
  {
    if |s| < 2 then NoEscape
    else if s[1] == QUOTE || s[1] == BACKSLASH then Escape(s[1], 2)
    else if s[1] == 98 then Escape(8, 2)
    else if s[1] == 116 then Escape(9, 2)
    else if s[1] == 110 then Escape(10, 2)
    else if s[1] == 102 then Escape(12, 2)
    else if s[1] == 114 then Escape(13, 2)
    else if s[1] == 117 && |s| >= 6 && IsHexDigit(s[2]) && IsHexDigit(s[3]) && IsHexDigit(s[4]) && IsHexDigit(s[5]) then
      Escape(HexValue(s[2]) * 4096 + HexValue(s[3]) * 256 + HexValue(s[4]) * 16 + HexValue(s[5]), 6)
    else NoEscape
  }

  /** The rest of a string behind its opening quote. */
  function ReadChars(s: Text): (r: CharsRead)
    ensures r.CharsRead? ==> |r.rest| < |s|
  {
    if s == [] then NoChars
    else if s[0] == QUOTE then CharsRead([], s[1..])
    else if s[0] != BACKSLASH then Prepend(s[0], ReadChars(s[1..]))
    else
      var escape := ReadEscape(s);
      if escape.NoEscape? then NoChars else Prepend(escape.c, ReadChars(s[escape.length..]))
  }

  function NumberRun(s: Text): (n: nat)
    ensures n <= |s| && (forall i | 0 <= i < n :: Numeric(s[i])) && (n < |s| ==> !Numeric(s[n]))
  {
    if s == [] || !Numeric(s[0]) then 0 else 1 + NumberRun(s[1..])
  }

  datatype Read = NoValue | Read(tree: Tree, rest: Text)

  predicate StartsWith(s: Text, word: Text) {
    |word| <= |s| && s[..|word|] == word
  }

  /** One value at the start of a text, and what follows it. Between commas nothing reads as a hole. */
  function ReadValue(s: Text): (r: Read)
    ensures r.Read? ==> |r.rest| < |s|
    decreases |s|, 0
  {
    if s == [] then NoValue
    else if s[0] == QUOTE then
      var r := ReadChars(s[1..]);
      if r.NoChars? then NoValue else Read(Str(r.text), r.rest)
    else if s[0] == OPEN_LIST then
      if |s| > 1 && s[1] == CLOSE_LIST then Read(Arr([]), s[2..]) else ReadItems(s[1..], [])
    else if s[0] == OPEN_OBJECT then
      if |s| > 1 && s[1] == CLOSE_OBJECT then Read(Obj(map[]), s[2..]) else ReadFields(s[1..], map[])
    else if Digit(s[0]) || s[0] == MINUS then Read(Num(s[..NumberRun(s)]), s[NumberRun(s)..])
    else if StartsWith(s, NULL_TEXT) then Read(Null, s[4..])
    else if StartsWith(s, TRUE_TEXT) then Read(Bool(true), s[4..])
    else if StartsWith(s, FALSE_TEXT) then Read(Bool(false), s[5..])
    else NoValue
  }

  function TakeItem(s: Text): (r: Read)
    ensures r.Read? ==> |r.rest| <= |s|
    decreases |s|, 1
  {
    if s != [] && (s[0] == COMMA || s[0] == CLOSE_LIST) then Read(Hole, s) else ReadValue(s)
  }

  function ReadItems(s: Text, before: seq<Tree>): (r: Read)
    ensures r.Read? ==> |r.rest| < |s|
    decreases |s|, 2
  {
    var item := TakeItem(s);
    if item.NoValue? || item.rest == [] then NoValue
    else if item.rest[0] == COMMA then ReadItems(item.rest[1..], before + [item.tree])
    else if item.rest[0] == CLOSE_LIST then Read(Arr(before + [item.tree]), item.rest[1..])
    else NoValue
  }

  datatype FieldRead = NoField | FieldRead(key: Text, tree: Tree, rest: Text)

  function TakeField(s: Text): (r: FieldRead)
    ensures r.FieldRead? ==> |r.rest| < |s|
    decreases |s|, 1
  {
    if s == [] || s[0] != QUOTE then NoField
    else
      var key := ReadChars(s[1..]);
      if key.NoChars? || key.rest == [] || key.rest[0] != COLON then NoField
      else
        var value := ReadValue(key.rest[1..]);
        if value.NoValue? then NoField else FieldRead(key.text, value.tree, value.rest)
  }

  function ReadFields(s: Text, before: map<Text, Tree>): (r: Read)
    ensures r.Read? ==> |r.rest| < |s|
    decreases |s|, 2
  {
    var field := TakeField(s);
    if field.NoField? || field.rest == [] then NoValue
    else if field.rest[0] == COMMA then ReadFields(field.rest[1..], before[field.key := field.tree])
    else if field.rest[0] == CLOSE_OBJECT then Read(Obj(before[field.key := field.tree]), field.rest[1..])
    else NoValue
  }

  // ---- Reading back what was printed -----------------------------------------------------------------

  /** A list that holds a single hole prints like an empty list; the reader takes it for one. */
  function Tidy(t: Tree): (r: Tree)
    ensures r.Hole? <==> t.Hole?
  {
    match t
    case Arr(items) =>
      if items == [Hole] then Arr([]) else Arr(seq(|items|, i requires 0 <= i < |items| => Tidy(items[i])))
    case Obj(fields) => Obj(map k | k in fields :: Tidy(fields[k]))
    case _ => t
  }

  /** Holes occur as items of lists only. */
  ghost predicate Shaped(t: Tree) {
    match t
    case Hole => false
    case Arr(items) => forall i | 0 <= i < |items| :: items[i].Hole? || Shaped(items[i])
    case Obj(fields) => forall k | k in fields :: Shaped(fields[k])
    case _ => true
  }

  predicate Follows(rest: Text) {
    rest == [] || rest[0] == COMMA || rest[0] == CLOSE_LIST || rest[0] == CLOSE_OBJECT
  }

  lemma UnitBack(c: Unit, s: Text)
    ensures ReadChars(EscapedUnit(c) + s) == Prepend(c, ReadChars(s))
  {
    hide ReadChars, ReadEscape;
    var e := EscapedUnit(c);
    if |e| == 1 {
      PlainBack(c, s);
    } else {
      if |e| == 2 { ShortBack(c, s); } else { HexBack(c, s); }
      EscapeBack(e, c, s);
    }
  }

  lemma EscapeBack(e: Text, c: Unit, s: Text)
    requires |e| >= 2 && e[0] == BACKSLASH && ReadEscape(e + s) == Escape(c, |e|)
    ensures ReadChars(e + s) == Prepend(c, ReadChars(s))
  {
    hide ReadEscape;
    assert (e + s)[|e|..] == s;
  }

  lemma PlainBack(c: Unit, s: Text)
    requires c != QUOTE && c != BACKSLASH
    ensures ReadChars([c] + s) == Prepend(c, ReadChars(s))
  {
    assert ([c] + s)[1..] == s;
  }

  lemma ShortBack(c: Unit, s: Text)
    requires |EscapedUnit(c)| == 2
    ensures ReadEscape(EscapedUnit(c) + s) == Escape(c, 2)
  {
    var all := EscapedUnit(c) + s;
    assert all[1] == EscapedUnit(c)[1];
  }

  lemma DigitBack(n: int)
    requires 0 <= n < 16
    ensures IsHexDigit(HexDigit(n)) && HexValue(HexDigit(n)) == n
  {
  }

  lemma HexIsRead(c: Unit)
    ensures var h := Hex(c);
            && |h| == 4 && IsHexDigit(h[0]) && IsHexDigit(h[1]) && IsHexDigit(h[2]) && IsHexDigit(h[3])
            && HexValue(h[0]) * 4096 + HexValue(h[1]) * 256 + HexValue(h[2]) * 16 + HexValue(h[3]) == c
  {
    hide HexDigit, HexValue, IsHexDigit;
    DigitBack(c / 16 / 16 / 16);
    DigitBack(c / 16 / 16 % 16);
    DigitBack(c / 16 % 16);
    DigitBack(c % 16);
  }

  lemma Long(a: Text, b: Text, s: Text)
    requires |a| == 2 && |b| == 4
    ensures var all := a + b + s;
            && |all| >= 6 && all[1] == a[1] && all[2] == b[0] && all[3] == b[1] && all[4] == b[2] && all[5] == b[3]
  {
  }

  lemma HexBack(c: Unit, s: Text)
    ensures ReadEscape([BACKSLASH, 117] + Hex(c) + s) == Escape(c, 6)
  {
    hide Hex, HexValue, IsHexDigit;
    HexIsRead(c);
    Long([BACKSLASH, 117], Hex(c), s);
  }

  /** A surrogate pair stands for itself. */
  lemma PairBack(high: Unit, low: Unit, s: Text)
    requires High(high) && Low(low)
    ensures ReadChars([high, low] + s) == Prepend(high, Prepend(low, ReadChars(s)))
  {
    hide ReadChars;
    PlainBack(low, s);
    PlainBack(high, [low] + s);
    assert [high, low] + s == [high] + ([low] + s);
  }

  lemma {:induction false} CharsBack(text: Text, rest: Text)
    ensures ReadChars(EscapedText(text) + ([QUOTE] + rest)) == CharsRead(text, rest)
    decreases |text|
  {
    hide ReadChars, EscapedUnit, High, Low;
    var end := [QUOTE] + rest;
    if text == [] {
      assert EscapedText(text) + end == end;
      EndBack(rest);
    } else if High(text[0]) && |text| > 1 && Low(text[1]) {
      CharsBack(text[2..], rest);
      Associates([text[0], text[1]], EscapedText(text[2..]), end);
      PairBack(text[0], text[1], EscapedText(text[2..]) + end);
      assert [text[0]] + ([text[1]] + text[2..]) == text;
    } else {
      CharsBack(text[1..], rest);
      Associates(EscapedUnit(text[0]), EscapedText(text[1..]), end);
      UnitBack(text[0], EscapedText(text[1..]) + end);
      assert [text[0]] + text[1..] == text;
    }
  }

  lemma EndBack(rest: Text)
    ensures ReadChars([QUOTE] + rest) == CharsRead([], rest)
  {
    assert ([QUOTE] + rest)[1..] == rest;
  }

  lemma StringBack(text: Text, rest: Text)
    ensures ReadValue(Quoted(text) + rest) == Read(Str(text), rest)
  {
    hide ReadChars, EscapedText;
    CharsBack(text, rest);
    var s := Quoted(text) + rest;
    assert s == [QUOTE] + (EscapedText(text) + ([QUOTE] + rest));
    assert s[1..] == EscapedText(text) + ([QUOTE] + rest);
  }

  lemma {:induction false} NumberRunOf(n: Text, rest: Text)
    requires (forall i | 0 <= i < |n| :: Numeric(n[i])) && Follows(rest)
    ensures NumberRun(n + rest) == |n|
  {
    if n == [] {
      assert n + rest == rest;
    } else {
      assert (n + rest)[1..] == n[1..] + rest;
      NumberRunOf(n[1..], rest);
    }
  }

  lemma NumberBack(n: NumberText, rest: Text)
    requires Follows(rest)
    ensures ReadValue(n + rest) == Read(Num(n), rest)
  {
    hide NumberRun;
    NumberRunOf(n, rest);
    assert (n + rest)[..|n|] == n && (n + rest)[|n|..] == rest;
  }

  lemma WordBack(t: Tree, rest: Text)
    requires t.Null? || t.Bool?
    ensures ReadValue(Print(t) + rest) == Read(t, rest)
  {
    var word := Print(t);
    assert (word + rest)[..|word|] == word && (word + rest)[|word|..] == rest;
    assert (word + rest)[0] == word[0];
  }

  /** What a printed value begins with tells it from a hole and from the end of a list. */
  lemma FirstUnit(t: Tree)
    requires !t.Hole?
    ensures Print(t) != [] && !Follows(Print(t))
  {
  }

  /** What stands behind item `i`. */
  function Behind(t: Tree, i: nat, rest: Text): Text
    requires t.Arr? && i < |t.items|
  {
    if i + 1 < |t.items| then [COMMA] + (PrintItems(t, i + 1) + ([CLOSE_LIST] + rest)) else [CLOSE_LIST] + rest
  }

  lemma ItemsSplit(t: Tree, i: nat, rest: Text)
    requires t.Arr? && i < |t.items|
    ensures PrintItems(t, i) + ([CLOSE_LIST] + rest) == Print(t.items[i]) + Behind(t, i, rest)
  {
    hide Print;
    var item := Print(t.items[i]);
    var end := [CLOSE_LIST] + rest;
    if i + 1 < |t.items| {
      var more := PrintItems(t, i + 1);
      assert item + ([COMMA] + more) + end == item + ([COMMA] + (more + end));
    } else {
      assert item + [] + end == item + end;
    }
  }

  lemma MoreItems(s: Text, item: Tree, more: Text, before: seq<Tree>)
    requires TakeItem(s) == Read(item, [COMMA] + more)
    ensures ReadItems(s, before) == ReadItems(more, before + [item])
  {
    hide TakeItem;
    assert ([COMMA] + more)[1..] == more;
  }

  lemma LastItem(s: Text, item: Tree, rest: Text, before: seq<Tree>)
    requires TakeItem(s) == Read(item, [CLOSE_LIST] + rest)
    ensures ReadItems(s, before) == Read(Arr(before + [item]), rest)
  {
    hide TakeItem;
    assert ([CLOSE_LIST] + rest)[1..] == rest;
  }

  lemma TakePrinted(t: Tree, after: Text)
    requires after != [] && (after[0] == COMMA || after[0] == CLOSE_LIST)
    requires !t.Hole? ==> ReadValue(Print(t) + after) == Read(Tidy(t), after)
    ensures TakeItem(Print(t) + after) == Read(Tidy(t), after)
  {
    hide ReadValue;
    if t.Hole? {
      assert Print(t) + after == after;
    } else {
      FirstUnit(t);
      hide Print, Tidy;
      assert (Print(t) + after)[0] == Print(t)[0];
    }
  }

  /** The first `n` items as they are read. */
  function TidyItems(t: Tree, n: nat): seq<Tree>
    requires t.Arr? && n <= |t.items|
  {
    seq(n, i requires 0 <= i < n => Tidy(t.items[i]))
  }

  lemma TidyList(t: Tree)
    requires t.Arr? && t.items != [Hole]
    ensures Tidy(t) == Arr(TidyItems(t, |t.items|))
  {
    assert TidyItems(t, |t.items|) == Tidy(t).items;
  }

  lemma TidySnoc(t: Tree, i: nat)
    requires t.Arr? && i < |t.items|
    ensures TidyItems(t, i) + [Tidy(t.items[i])] == TidyItems(t, i + 1)
  {
  }

  lemma {:induction false} ItemsBack(t: Tree, i: nat, rest: Text)
    requires t.Arr? && i < |t.items| && Shaped(t)
    ensures ReadItems(PrintItems(t, i) + ([CLOSE_LIST] + rest), TidyItems(t, i)) == Read(Arr(TidyItems(t, |t.items|)), rest)
    decreases t, |t.items| - i
  {
    hide ReadItems, TakeItem, ReadValue, Print, PrintItems, Tidy, TidyItems;
    var after := Behind(t, i, rest);
    var item := t.items[i];
    ItemsSplit(t, i, rest);
    if !item.Hole? { ReadBack(item, after); }
    TakePrinted(item, after);
    TidySnoc(t, i);
    if i + 1 < |t.items| {
      MoreItems(Print(item) + after, Tidy(item), PrintItems(t, i + 1) + ([CLOSE_LIST] + rest), TidyItems(t, i));
      ItemsBack(t, i + 1, rest);
    } else {
      LastItem(Print(item) + after, Tidy(item), rest, TidyItems(t, i));
    }
  }

  lemma OpenList(inner: Text)
    requires inner != [] && inner[0] != CLOSE_LIST
    ensures ReadValue([OPEN_LIST] + inner) == ReadItems(inner, [])
  {
    hide ReadItems;
    assert ([OPEN_LIST] + inner)[1..] == inner;
  }

  lemma EmptyList(rest: Text)
    ensures ReadValue([OPEN_LIST] + ([CLOSE_LIST] + rest)) == Read(Arr([]), rest)
  {
    assert ([OPEN_LIST] + ([CLOSE_LIST] + rest))[2..] == rest;
  }

  lemma ItemsStart(t: Tree, rest: Text)
    requires t.Arr? && t.items != [] && t.items != [Hole]
    ensures (PrintItems(t, 0) + ([CLOSE_LIST] + rest))[0] != CLOSE_LIST
  {
    ItemsSplit(t, 0, rest);
    if t.items[0].Hole? {
      assert Print(t.items[0]) + Behind(t, 0, rest) == Behind(t, 0, rest);
      assert |t.items| > 1;
    } else {
      FirstUnit(t.items[0]);
      hide Print;
      assert (Print(t.items[0]) + Behind(t, 0, rest))[0] == Print(t.items[0])[0];
    }
  }

  lemma {:induction false} ListBack(t: Tree, rest: Text)
    requires t.Arr? && Shaped(t)
    ensures ReadValue(Print(t) + rest) == Read(Tidy(t), rest)
    decreases t, |t.items| + 1
  {
    hide ReadValue, ReadItems, PrintItems, Tidy;
    var inner := PrintItems(t, 0) + ([CLOSE_LIST] + rest);
    assert Print(t) + rest == [OPEN_LIST] + inner;
    if t.items == [] || t.items == [Hole] {
      NothingPrinted(t);
      assert inner == [CLOSE_LIST] + rest;
      EmptyList(rest);
    } else {
      ItemsStart(t, rest);
      OpenList(inner);
      TidyList(t);
      assert TidyItems(t, 0) == [];
      ItemsBack(t, 0, rest);
    }
  }

  lemma NothingPrinted(t: Tree)
    requires t.Arr? && (t.items == [] || t.items == [Hole])
    ensures PrintItems(t, 0) == [] && Tidy(t) == Arr([])
  {
    if t.items == [Hole] {
      assert t.items[0] == Hole;
      assert PrintItems(t, 0) == Print(t.items[0]) + [];
    }
  }

  // ---- Objects

  function BehindField(t: Tree, keys: seq<Text>, rest: Text): Text
    requires t.Obj? && keys != [] && forall k | k in keys :: k in t.fields
  {
    if |keys| > 1 then [COMMA] + (PrintFields(t, keys[1..]) + ([CLOSE_OBJECT] + rest)) else [CLOSE_OBJECT] + rest
  }

  lemma Chain(a: Text, b: Text, c: Text, d: Text, e: Text)
    ensures a + b + c + d + e == a + (b + (c + (d + e)))
  {
  }

  lemma FieldsSplit(t: Tree, keys: seq<Text>, rest: Text)
    requires t.Obj? && keys != [] && forall k | k in keys :: k in t.fields
    ensures PrintFields(t, keys) + ([CLOSE_OBJECT] + rest)
            == Quoted(keys[0]) + ([COLON] + (Print(t.fields[keys[0]]) + BehindField(t, keys, rest)))
  {
    hide Print, Quoted;
    var key, value, end := Quoted(keys[0]), Print(t.fields[keys[0]]), [CLOSE_OBJECT] + rest;
    if |keys| > 1 {
      Chain(key, [COLON], value, [COMMA] + PrintFields(t, keys[1..]), end);
      Associates([COMMA], PrintFields(t, keys[1..]), end);
    } else {
      Chain(key, [COLON], value, [], end);
      assert [] + end == end;
    }
  }

  lemma TakePrintedField(key: Text, text: Text, tree: Tree, after: Text)
    requires ReadValue(text) == Read(tree, after)
    ensures TakeField(Quoted(key) + ([COLON] + text)) == FieldRead(key, tree, after)
  {
    hide ReadValue, ReadChars, EscapedText;
    var tail := [COLON] + text;
    CharsBack(key, tail);
    var s := Quoted(key) + tail;
    assert s == [QUOTE] + (EscapedText(key) + ([QUOTE] + tail));
    assert s[1..] == EscapedText(key) + ([QUOTE] + tail);
    assert tail[1..] == text;
  }

  lemma MoreFields(s: Text, key: Text, tree: Tree, more: Text, before: map<Text, Tree>)
    requires TakeField(s) == FieldRead(key, tree, [COMMA] + more)
    ensures ReadFields(s, before) == ReadFields(more, before[key := tree])
  {
    hide TakeField;
    assert ([COMMA] + more)[1..] == more;
  }

  lemma LastField(s: Text, key: Text, tree: Tree, rest: Text, before: map<Text, Tree>)
    requires TakeField(s) == FieldRead(key, tree, [CLOSE_OBJECT] + rest)
    ensures ReadFields(s, before) == Read(Obj(before[key := tree]), rest)
  {
    hide TakeField;
    assert ([CLOSE_OBJECT] + rest)[1..] == rest;
  }

  /** The fields that are not under the keys still to come. */
  function TidyBut(t: Tree, keys: seq<Text>): map<Text, Tree>
    requires t.Obj?
  {
    map k | k in t.fields && k !in keys :: Tidy(t.fields[k])
  }

  lemma TidyField(t: Tree, keys: seq<Text>)
    requires t.Obj? && keys != [] && Ascending(keys) && keys[0] in t.fields
    ensures Ascending(keys[1..]) && TidyBut(t, keys)[keys[0] := Tidy(t.fields[keys[0]])] == TidyBut(t, keys[1..])
  {
    BelowIsStrict(keys[0]);
    assert keys[0] !in keys[1..] by {
      if i :| 0 <= i < |keys[1..]| && keys[1..][i] == keys[0] {
        assert Below(keys[0], keys[i + 1]);
      }
    }
    assert forall k :: k in keys <==> k == keys[0] || k in keys[1..];
  }

  lemma {:induction false} FieldsBack(t: Tree, keys: seq<Text>, rest: Text)
    requires t.Obj? && keys != [] && (forall k | k in keys :: k in t.fields) && Ascending(keys)
    requires Shaped(t)
    ensures ReadFields(PrintFields(t, keys) + ([CLOSE_OBJECT] + rest), TidyBut(t, keys)) == Read(Obj(TidyBut(t, [])), rest)
    decreases t, |keys|
  {
    hide ReadFields, TakeField, ReadValue, Print, PrintFields, Tidy, TidyBut, Quoted, Ascending;
    var after := BehindField(t, keys, rest);
    var value := t.fields[keys[0]];
    FieldsSplit(t, keys, rest);
    var s := Quoted(keys[0]) + ([COLON] + (Print(value) + after));
    ReadBack(value, after);
    TakePrintedField(keys[0], Print(value) + after, Tidy(value), after);
    TidyField(t, keys);
    if |keys| > 1 {
      MoreFields(s, keys[0], Tidy(value), PrintFields(t, keys[1..]) + ([CLOSE_OBJECT] + rest), TidyBut(t, keys));
      FieldsBack(t, keys[1..], rest);
    } else {
      LastField(s, keys[0], Tidy(value), rest, TidyBut(t, keys));
      assert keys[1..] == [];
    }
  }

  lemma OpenObject(inner: Text)
    requires inner != [] && inner[0] != CLOSE_OBJECT
    ensures ReadValue([OPEN_OBJECT] + inner) == ReadFields(inner, map[])
  {
    hide ReadFields;
    assert ([OPEN_OBJECT] + inner)[1..] == inner;
  }

  lemma EmptyObject(rest: Text)
    ensures ReadValue([OPEN_OBJECT] + ([CLOSE_OBJECT] + rest)) == Read(Obj(map[]), rest)
  {
    assert ([OPEN_OBJECT] + ([CLOSE_OBJECT] + rest))[2..] == rest;
  }

  lemma FieldsStart(t: Tree, keys: seq<Text>, rest: Text)
    requires t.Obj? && keys != [] && forall k | k in keys :: k in t.fields
    ensures (PrintFields(t, keys) + ([CLOSE_OBJECT] + rest))[0] == QUOTE
  {
    FieldsSplit(t, keys, rest);
    hide Print, PrintFields, EscapedText;
    assert Quoted(keys[0])[0] == QUOTE;
  }

  lemma NoKeys(t: Tree)
    requires t.Obj? && Sorted(t.fields.Keys) == []
    ensures t.fields == map[] && Tidy(t) == Obj(map[])
  {
  }

  lemma TidyAll(t: Tree, keys: seq<Text>)
    requires t.Obj? && forall k :: k in keys <==> k in t.fields
    ensures TidyBut(t, keys) == map[] && Tidy(t) == Obj(TidyBut(t, []))
  {
  }

  lemma {:induction false} ObjectBack(t: Tree, rest: Text)
    requires t.Obj? && Shaped(t)
    ensures ReadValue(Print(t) + rest) == Read(Tidy(t), rest)
    decreases t, |Sorted(t.fields.Keys)| + 1
  {
    hide ReadValue, ReadFields, PrintFields, Tidy, TidyBut, Sorted;
    var keys := Sorted(t.fields.Keys);
    var inner := PrintFields(t, keys) + ([CLOSE_OBJECT] + rest);
    assert Print(t) + rest == [OPEN_OBJECT] + inner;
    if keys == [] {
      NoKeys(t);
      NoFields(t);
      assert inner == [CLOSE_OBJECT] + rest;
      EmptyObject(rest);
    } else {
      FieldsStart(t, keys, rest);
      OpenObject(inner);
      TidyAll(t, keys);
      FieldsBack(t, keys, rest);
    }
  }

  lemma NoFields(t: Tree)
    requires t.Obj?
    ensures PrintFields(t, []) == []
  {
  }

  /** The printed form of a tree can be read back, whatever follows it. */
  lemma {:induction false} ReadBack(t: Tree, rest: Text)
    requires Shaped(t) && Follows(rest)
    ensures ReadValue(Print(t) + rest) == Read(Tidy(t), rest)
    decreases t
  {
    match t
    case Str(text) => StringBack(text, rest);
    case Num(n) => NumberBack(n, rest);
    case Arr(items) => ListBack(t, rest);
    case Obj(fields) => ObjectBack(t, rest);
    case _ => WordBack(t, rest);
  }

  // ---- Equal texts -----------------------------------------------------------------------------------

  /** Tidying does not show in print. */
  lemma {:induction false} TidyPrintsTheSame(t: Tree)
    ensures Print(Tidy(t)) == Print(t)
    decreases t
  {
    match t
    case Arr(items) =>
      if items == [Hole] {
        NothingPrinted(t);
        NothingPrinted(Arr([]));
      } else {
        TidyList(t);
        SameItems(t, 0);
      }
    case Obj(fields) =>
      assert Tidy(t).fields.Keys == fields.Keys;
      SameFields(t, Sorted(fields.Keys));
    case _ =>
  }

  lemma {:induction false} SameItems(t: Tree, i: nat)
    requires t.Arr? && i <= |t.items|
    ensures PrintItems(Arr(TidyItems(t, |t.items|)), i) == PrintItems(t, i)
    decreases t, |t.items| - i
  {
    if i < |t.items| {
      TidyPrintsTheSame(t.items[i]);
      SameItems(t, i + 1);
    }
  }

  lemma {:induction false} SameFields(t: Tree, keys: seq<Text>)
    requires t.Obj? && forall k | k in keys :: k in t.fields
    ensures PrintFields(Tidy(t), keys) == PrintFields(t, keys)
    decreases t, |keys|
  {
    if keys != [] {
      TidyPrintsTheSame(t.fields[keys[0]]);
      SameFields(t, keys[1..]);
    }
  }

  lemma {:induction false} NormalIsShaped(p: Payload)
    requires Jsonable(p)
    ensures Shaped(Normal(p))
    decreases p
  {
    match p
    case List(items) =>
      forall i | 0 <= i < |items| && Jsonable(items[i])
        ensures Shaped(Normal(items[i]))
      {
        NormalIsShaped(items[i]);
      }
    case Record(fields) =>
      forall k | k in fields && Jsonable(fields[k])
        ensures Shaped(Normal(fields[k]))
      {
        NormalIsShaped(fields[k]);
      }
    case _ =>
  }

  /** Two payloads of JSON data have the same stable text iff they mean the same tree: equal but for the order of keys,
      undefined and `__proto__` fields, and undefined items read as null; a list holding only a gap counts as empty. */
  lemma TextsAreEqualIffMeaningsAre(a: Payload, b: Payload)
    requires Jsonable(a) && Jsonable(b)
    ensures Print(Normal(a)) == Print(Normal(b)) <==> Tidy(Normal(a)) == Tidy(Normal(b))
  {
    hide Normal, Jsonable, Print, Tidy, ReadValue, Shaped;
    NormalIsShaped(a);
    NormalIsShaped(b);
    ReadBack(Normal(a), []);
    ReadBack(Normal(b), []);
    assert Print(Normal(a)) + [] == Print(Normal(a)) && Print(Normal(b)) + [] == Print(Normal(b));
    TidyPrintsTheSame(Normal(a));
    TidyPrintsTheSame(Normal(b));
  }

  /** No list holds just one hole. */
  ghost predicate Dense(t: Tree) {
    match t
    case Arr(items) => items != [Hole] && forall i | 0 <= i < |items| :: Dense(items[i])
    case Obj(fields) => forall k | k in fields :: Dense(fields[k])
    case _ => true
  }

  lemma {:induction false} DenseIsTidy(t: Tree)
    ensures Dense(t) <==> Tidy(t) == t
    decreases t
  {
    match t
    case Arr(items) =>
      forall i | 0 <= i < |items|
        ensures Dense(items[i]) <==> Tidy(items[i]) == items[i]
      {
        DenseIsTidy(items[i]);
      }
      if items != [Hole] {
        TidyList(t);
        var read := TidyItems(t, |items|);
        assert read == items <==> forall i | 0 <= i < |items| :: read[i] == items[i];
      }
    case Obj(fields) =>
      forall k | k in fields
        ensures Dense(fields[k]) <==> Tidy(fields[k]) == fields[k]
      {
        DenseIsTidy(fields[k]);
      }
      var read := Tidy(t).fields;
      assert read == fields <==> forall k | k in fields :: read[k] == fields[k];
    case _ =>
  }

  /** Without lone gaps the stable text decides equality of the normalized trees. */
  lemma TextsDecideEquality(a: Payload, b: Payload)
    requires Jsonable(a) && Jsonable(b) && Dense(Normal(a)) && Dense(Normal(b))
    ensures Print(Normal(a)) == Print(Normal(b)) <==> Normal(a) == Normal(b)
  {
    TextsAreEqualIffMeaningsAre(a, b);
    DenseIsTidy(Normal(a));
    DenseIsTidy(Normal(b));
  }

  /** Two payloads that differ are taken for the same: a field named `__proto__` is lost, and a gap alone in a list too. */
  lemma LostInPrint(n: NumberText)
    ensures Print(Normal(Record(map[PROTO := Number(n)]))) == Print(Normal(Record(map[])))
    ensures Print(Normal(List([Gap]))) == Print(Normal(List([]))) && Normal(List([Gap])) != Normal(List([]))
  {
  }

  // ---- The whole operation ---------------------------------------------------------------------------

  /** `Buffer.byteLength` of a well-formed text, in which every surrogate is half of a pair. */
  function Utf8Length(text: Text): nat {
    if text == [] then 0
    else (if text[0] < 0x80 then 1 else if text[0] < 0x800 || High(text[0]) || Low(text[0]) then 2 else 3) + Utf8Length(text[1..])
  }

  datatype Printed = Printed(text: Text) | NotPrinted

  /** `stableJsonStringify`. */
  method StableText(p: Payload, limits: Limits) returns (r: Printed)
    ensures r.Printed? <==> Jsonable(p) && Within(p, limits.depth) && Nodes(p) <= limits.nodes
                            && Utf8Length(Print(Normal(p))) <= limits.bytes
    ensures r.Printed? ==> r.text == Print(Normal(p))
  {
    hide Jsonable, Within, Nodes, Print, Normal, Utf8Length;
    var normalizer := new Normalizer(limits);
    var normalized := normalizer.NormalizeValue(p, 0);
    if normalized.Refused? { return NotPrinted; }
    var text := Print(normalized.tree);
    if Utf8Length(text) > limits.bytes { return NotPrinted; }
    r := Printed(text);
  }
}
