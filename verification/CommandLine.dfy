/** Windows command lines: the quoter of the native runner, the quoter behind the length check, and the rules by which a
    Microsoft C program takes its command line apart again. */
module CommandLine {
  import opened Utf16

  const NUL: Unit := 0
  const TAB: Unit := 9
  const SPACE: Unit := 32
  const QUOTE: Unit := 34
  const BACKSLASH: Unit := 92

  // ---- How a program reads its command line ("Parsing C command-line arguments") -----------------------

  predicate Blank(c: Unit) { c == SPACE || c == TAB }

  predicate AtEnd(s: Text) { s == [] || s[0] == NUL }

  function Backslashes(n: nat): (s: Text)
    ensures |s| == n && forall i | 0 <= i < n :: s[i] == BACKSLASH
  {
    seq(n, _ => BACKSLASH)
  }

  /** How many backslashes a text begins with. */
  function Run(s: Text): (n: nat)
    ensures n <= |s| && s[..n] == Backslashes(n) && (n < |s| ==> s[n] != BACKSLASH)
  {
    if s == [] || s[0] != BACKSLASH then 0 else 1 + Run(s[1..])
  }

  /** One argument and what follows it. Backslashes are literal unless a quote follows them: then each pair stands for one,
      and an odd one makes the quote literal. A quote opens or closes a quoted part, where a doubled quote is literal. */
  function ReadArgument(s: Text, quoted: bool): (r: (Text, Text))
    ensures |r.1| <= |s| && (|s| > 0 && !AtEnd(s) && (quoted || !Blank(s[0])) ==> |r.1| < |s|)
    ensures NUL !in r.0
    decreases |s|
  {
    if AtEnd(s) then ([], [])
    else if Blank(s[0]) && !quoted then ([], s)
    else if s[0] == BACKSLASH then
      var n := Run(s);
      var escaping := n < |s| && s[n] == QUOTE;
      var (argument, rest) := ReadArgument(if escaping && n % 2 == 1 then s[n + 1..] else s[n..], quoted);
      ((if !escaping then Backslashes(n) else if n % 2 == 1 then Backslashes(n / 2) + [QUOTE] else Backslashes(n / 2))
       + argument, rest)
    else if s[0] == QUOTE then
      if quoted && |s| > 1 && s[1] == QUOTE then
        var (argument, rest) := ReadArgument(s[2..], true);
        ([QUOTE] + argument, rest)
      else ReadArgument(s[1..], !quoted)
    else
      var (argument, rest) := ReadArgument(s[1..], quoted);
      ([s[0]] + argument, rest)
  }

  function ReadArguments(s: Text): (arguments: seq<Text>)
    ensures forall a | a in arguments :: NUL !in a
    decreases |s|
  {
    if AtEnd(s) then []
    else if Blank(s[0]) then ReadArguments(s[1..])
    else
      var (argument, rest) := ReadArgument(s, false);
      [argument] + ReadArguments(rest)
  }

  /** The program name is read by simpler rules: quotes switch and vanish, backslashes mean nothing. */
  function ReadName(s: Text, quoted: bool): (r: (Text, Text))
    ensures NUL !in r.0 && QUOTE !in r.0
  {
    if AtEnd(s) then ([], [])
    else if Blank(s[0]) && !quoted then ([], s)
    else if s[0] == QUOTE then ReadName(s[1..], !quoted)
    else
      var (name, rest) := ReadName(s[1..], quoted);
      ([s[0]] + name, rest)
  }

  function ReadLine(line: Text): seq<Text> {
    var (name, rest) := ReadName(line, false);
    [name] + ReadArguments(rest)
  }

  // ---- What the quoters write ------------------------------------------------------------------------

  type Special = Unit -> bool

  /** The characters for which the runner quotes. */
  predicate RunnerSpecial(c: Unit) {
    c == SPACE || c == TAB || c == 10 || c == 11 || c == QUOTE
  }

  /** A quote, or what a JavaScript pattern takes for white space. */
  predicate ScriptSpecial(c: Unit) {
    9 <= c <= 13 || c == SPACE || c == 0xA0 || c == 0x1680 || 0x2000 <= c <= 0x200A || c == 0x2028 || c == 0x2029
    || c == 0x202F || c == 0x205F || c == 0x3000 || c == 0xFEFF || c == QUOTE
  }

  predicate NeedsQuotes(value: Text, special: Special) {
    value == [] || exists i :: 0 <= i < |value| && special(value[i])
  }

  /** The quoted form of a value behind its opening quote, with some backslashes not yet written. */
  function Escaped(value: Text, pending: nat): (s: Text) {
    if value == [] then Backslashes(2 * pending) + [QUOTE]
    else if value[0] == BACKSLASH then Escaped(value[1..], pending + 1)
    else if value[0] == QUOTE then Backslashes(2 * pending + 1) + [QUOTE] + Escaped(value[1..], 0)
    else Backslashes(pending) + [value[0]] + Escaped(value[1..], 0)
  }

  function Quoted(value: Text, special: Special): Text {
    if NeedsQuotes(value, special) then [QUOTE] + Escaped(value, 0) else value
  }

  function Tail(arguments: seq<Text>, special: Special): Text {
    if arguments == [] then [] else [SPACE] + Quoted(arguments[0], special) + Tail(arguments[1..], special)
  }

  function Line(command: Text, arguments: seq<Text>, special: Special): Text {
    Quoted(command, special) + Tail(arguments, special)
  }

  method AnySpecial(value: Text, special: Special) returns (found: bool)
    ensures found <==> exists i :: 0 <= i < |value| && special(value[i])
  {
    for i := 0 to |value|
      invariant forall j | 0 <= j < i :: !special(value[j])
    {
      if special(value[i]) { return true; }
    }
    return false;
  }

  /** `Quote` of the native runner. */
  method RunnerQuote(value: Text) returns (quoted: Text)
    ensures quoted == Quoted(value, RunnerSpecial)
  {
    var special := AnySpecial(value, RunnerSpecial);
    if |value| > 0 && !special { return value; }
    quoted := [QUOTE];
    var backslashes := 0;
    for i := 0 to |value|
      invariant quoted + Escaped(value[i..], backslashes) == [QUOTE] + Escaped(value, 0)
    {
      ghost var now := quoted;
      assert value[i..][1..] == value[i + 1..];
      if value[i] == BACKSLASH {
        backslashes := backslashes + 1;
        continue;
      }
      if value[i] == QUOTE {
        quoted := quoted + Backslashes(backslashes * 2 + 1) + [QUOTE];
        Regroup(now, Backslashes(backslashes * 2 + 1), QUOTE, Escaped(value[i + 1..], 0));
        backslashes := 0;
        continue;
      }
      quoted := quoted + Backslashes(backslashes) + [value[i]];
      Regroup(now, Backslashes(backslashes), value[i], Escaped(value[i + 1..], 0));
      backslashes := 0;
    }
    assert value[|value|..] == [];
    quoted := quoted + Backslashes(backslashes * 2) + [QUOTE];
  }

  /** `quoteWindowsCommandLineArgument`. */
  method ScriptQuote(argument: Text) returns (quoted: Text)
    ensures quoted == Quoted(argument, ScriptSpecial)
  {
    var special := AnySpecial(argument, ScriptSpecial);
    if argument != [] && !special { return argument; }
    quoted := [QUOTE];
    var backslashes := 0;
    for i := 0 to |argument|
      invariant quoted + Escaped(argument[i..], backslashes) == [QUOTE] + Escaped(argument, 0)
    {
      ghost var now := quoted;
      assert argument[i..][1..] == argument[i + 1..];
      if argument[i] == BACKSLASH {
        backslashes := backslashes + 1;
        continue;
      }
      if argument[i] == QUOTE {
        quoted := quoted + Backslashes(backslashes * 2 + 1);
        Regroup(now, Backslashes(backslashes * 2 + 1), QUOTE, Escaped(argument[i + 1..], 0));
        backslashes := 0;
        quoted := quoted + [QUOTE];
        continue;
      }
      Regroup(now, Backslashes(backslashes), argument[i], Escaped(argument[i + 1..], 0));
      if backslashes > 0 { quoted := quoted + Backslashes(backslashes); }
      backslashes := 0;
      quoted := quoted + [argument[i]];
    }
    assert argument[|argument|..] == [];
    quoted := quoted + Backslashes(backslashes * 2);
    quoted := quoted + [QUOTE];
  }

  lemma Regroup(a: Text, b: Text, c: Unit, d: Text)
    ensures a + b + [c] + d == a + (b + [c] + d)
  {
  }

  /** The command line that `Main` of the runner hands to the system. */
  method RunnerLine(command: Text, arguments: seq<Text>) returns (line: Text)
    ensures line == Line(command, arguments, RunnerSpecial)
  {
    line := RunnerQuote(command);
    for i := 0 to |arguments|
      invariant line + Tail(arguments[i..], RunnerSpecial) == Line(command, arguments, RunnerSpecial)
    {
      var quoted := RunnerQuote(arguments[i]);
      assert arguments[i..][1..] == arguments[i + 1..];
      Regroup(line, [], SPACE, quoted);
      ghost var rest := Tail(arguments[i + 1..], RunnerSpecial);
      assert line + ([SPACE] + quoted + rest) == line + [SPACE] + quoted + rest;
      line := line + [SPACE] + quoted;
    }
    assert arguments[|arguments|..] == [];
  }

  // ---- Reading back what was written -----------------------------------------------------------------

  /** The text behind an argument: nothing, or a blank. */
  predicate Ends(rest: Text) { rest == [] || Blank(rest[0]) }

  lemma {:induction false} RunOf(n: nat, rest: Text)
    requires rest == [] || rest[0] != BACKSLASH
    ensures Run(Backslashes(n) + rest) == n && (Backslashes(n) + rest)[n..] == rest
  {
    var s := Backslashes(n) + rest;
    if n > 0 {
      assert s[1..] == Backslashes(n - 1) + rest;
      RunOf(n - 1, rest);
    }
  }

  /** Backslashes before a quote: each pair is one, and an odd one makes the quote literal. */
  lemma BeforeQuote(n: nat, rest: Text, quoted: bool)
    requires n > 0
    ensures var s := Backslashes(n) + ([QUOTE] + rest);
            var (argument, after) := ReadArgument(if n % 2 == 1 then rest else [QUOTE] + rest, quoted);
            ReadArgument(s, quoted) == (if n % 2 == 1 then Backslashes(n / 2) + [QUOTE] + argument else Backslashes(n / 2) + argument, after)
  {
    var s := Backslashes(n) + ([QUOTE] + rest);
    RunOf(n, [QUOTE] + rest);
    assert s[0] == BACKSLASH && s[n] == QUOTE;
    assert s[n + 1..] == rest;
  }

  /** Backslashes before anything else are literal. */
  lemma BeforeOther(n: nat, rest: Text, quoted: bool)
    requires n > 0 && (rest == [] || (rest[0] != QUOTE && rest[0] != BACKSLASH))
    ensures ReadArgument(Backslashes(n) + rest, quoted)
            == (Backslashes(n) + ReadArgument(rest, quoted).0, ReadArgument(rest, quoted).1)
  {
    var s := Backslashes(n) + rest;
    RunOf(n, rest);
    assert s[0] == BACKSLASH && (n < |s| ==> s[n] == rest[0]);
  }

  lemma CloseQuote(rest: Text)
    requires Ends(rest)
    ensures ReadArgument([QUOTE] + rest, true) == ([], rest)
  {
    var s := [QUOTE] + rest;
    assert s[1..] == rest;
    assert |s| > 1 ==> s[1] == rest[0];
  }

  lemma Plain(c: Unit, rest: Text)
    requires c != NUL && c != QUOTE && c != BACKSLASH
    ensures ReadArgument([c] + rest, true) == ([c] + ReadArgument(rest, true).0, ReadArgument(rest, true).1)
  {
    assert ([c] + rest)[1..] == rest;
  }

  /** A literal quote and the backslashes before it. */
  lemma QuoteIsRead(pending: nat, tail: Text, more: Text, rest: Text)
    requires ReadArgument(more, true) == (tail, rest)
    ensures ReadArgument(Backslashes(2 * pending + 1) + [QUOTE] + more, true) == (Backslashes(pending) + [QUOTE] + tail, rest)
  {
    hide ReadArgument, Run;
    BeforeQuote(2 * pending + 1, more, true);
    assert Backslashes(2 * pending + 1) + [QUOTE] + more == Backslashes(2 * pending + 1) + ([QUOTE] + more);
  }

  lemma OtherIsRead(pending: nat, c: Unit, tail: Text, more: Text, rest: Text)
    requires c != NUL && c != QUOTE && c != BACKSLASH && ReadArgument(more, true) == (tail, rest)
    ensures ReadArgument(Backslashes(pending) + [c] + more, true) == (Backslashes(pending) + [c] + tail, rest)
  {
    hide ReadArgument, Run;
    Plain(c, more);
    if pending > 0 { BeforeOther(pending, [c] + more, true); }
    assert Backslashes(pending) + [c] + more == Backslashes(pending) + ([c] + more);
    assert Backslashes(0) + ([c] + more) == [c] + more;
    assert Backslashes(pending) + [c] + tail == Backslashes(pending) + ([c] + tail);
    assert Backslashes(0) + ([c] + tail) == [c] + tail;
  }

  lemma ClosingIsRead(pending: nat, rest: Text)
    requires Ends(rest)
    ensures ReadArgument(Backslashes(2 * pending) + [QUOTE] + rest, true) == (Backslashes(pending), rest)
  {
    hide ReadArgument, Run;
    CloseQuote(rest);
    if pending > 0 { BeforeQuote(2 * pending, rest, true); }
    assert Backslashes(2 * pending) + [QUOTE] + rest == Backslashes(2 * pending) + ([QUOTE] + rest);
    assert Backslashes(0) + ([QUOTE] + rest) == [QUOTE] + rest;
    assert Backslashes(pending) + [] == Backslashes(pending);
  }

  /** Inside quotes the reader gives back exactly what the quoter escaped, and stops behind the closing quote. */
  lemma {:induction false} EscapedIsRead(value: Text, pending: nat, rest: Text)
    requires NUL !in value && Ends(rest)
    ensures ReadArgument(Escaped(value, pending) + rest, true) == (Backslashes(pending) + value, rest)
    decreases |value|
  {
    hide ReadArgument, Run, Ends;
    if value == [] {
      ClosingIsRead(pending, rest);
      assert Backslashes(pending) + value == Backslashes(pending);
    } else {
      var left := value[1..];
      if value[0] == BACKSLASH {
        EscapedIsRead(left, pending + 1, rest);
        assert Backslashes(pending + 1) + left == Backslashes(pending) + value;
      } else {
        EscapedIsRead(left, 0, rest);
        assert Backslashes(0) + left == left;
        var more := Escaped(left, 0);
        assert Backslashes(pending) + [value[0]] + left == Backslashes(pending) + value;
        if value[0] == QUOTE {
          QuoteIsRead(pending, left, more + rest, rest);
          assert Escaped(value, pending) + rest == Backslashes(2 * pending + 1) + [QUOTE] + (more + rest);
        } else {
          OtherIsRead(pending, value[0], left, more + rest, rest);
          assert Escaped(value, pending) + rest == Backslashes(pending) + [value[0]] + (more + rest);
        }
      }
    }
  }

  /** A quoter that leaves a value bare has seen no quote and no blank in it. */
  predicate Bare(value: Text) {
    forall c | c in value :: c != QUOTE && !Blank(c) && c != NUL
  }

  lemma BareSuffix(value: Text, n: nat)
    requires Bare(value) && n <= |value|
    ensures Bare(value[n..])
    ensures n < |value| ==> value[n] != QUOTE && !Blank(value[n]) && value[n] != NUL
  {
    assert n < |value| ==> value[n] in value;
    assert forall c | c in value[n..] :: c in value;
  }

  lemma {:induction false} BareIsRead(value: Text, rest: Text)
    requires Bare(value) && Ends(rest)
    ensures ReadArgument(value + rest, false) == (value, rest)
    decreases |value|
  {
    hide Run, Bare;
    var s := value + rest;
    if value == [] {
      assert s == rest;
    } else if value[0] == BACKSLASH {
      BareBackslashes(value, rest);
      BareSuffix(value, Run(value));
      BareIsRead(value[Run(value)..], rest);
    } else {
      BareSuffix(value, 0);
      BareSuffix(value, 1);
      assert s[1..] == value[1..] + rest;
      assert [value[0]] + value[1..] == value;
      BareIsRead(value[1..], rest);
    }
  }

  lemma Head(a: Text, b: Text)
    ensures a != [] ==> (a + b)[0] == a[0]
    ensures a == [] ==> a + b == b
  {
  }

  lemma Recut(value: Text, n: nat, rest: Text)
    requires n <= |value|
    ensures value == value[..n] + value[n..] && value + rest == value[..n] + (value[n..] + rest)
  {
  }

  lemma StartsRun(value: Text)
    requires value != [] && value[0] == BACKSLASH
    ensures Run(value) > 0
  {
  }

  lemma OpenQuote(text: Text)
    ensures ReadArgument([QUOTE] + text, false) == ReadArgument(text, true)
    ensures ReadName([QUOTE] + text, false) == ReadName(text, true)
  {
    assert ([QUOTE] + text)[1..] == text;
  }

  lemma BareBackslashes(value: Text, rest: Text)
    requires Bare(value) && Ends(rest) && value != [] && value[0] == BACKSLASH
    ensures var n := Run(value);
            0 < n <= |value| && ReadArgument(value + rest, false)
            == (Backslashes(n) + ReadArgument(value[n..] + rest, false).0, ReadArgument(value[n..] + rest, false).1)
    ensures Backslashes(Run(value)) + value[Run(value)..] == value
  {
    hide ReadArgument, Run, Bare;
    var n := Run(value);
    StartsRun(value);
    BareSuffix(value, n);
    Head(value[n..], rest);
    BeforeOther(n, value[n..] + rest, false);
    Recut(value, n, rest);
  }

  /** The quoters agree with the reader on the characters that part arguments. */
  ghost predicate Suits(special: Special) {
    special(SPACE) && special(TAB) && special(QUOTE)
  }

  lemma UnquotedIsBare(value: Text, special: Special)
    requires !NeedsQuotes(value, special) && NUL !in value && Suits(special)
    ensures Bare(value)
  {
    forall c | c in value
      ensures c != QUOTE && !Blank(c)
    {
      var i :| 0 <= i < |value| && value[i] == c;
      assert !special(value[i]);
    }
  }

  lemma QuotedIsRead(value: Text, special: Special, rest: Text)
    requires NUL !in value && Ends(rest) && Suits(special)
    ensures ReadArgument(Quoted(value, special) + rest, false) == (value, rest)
    ensures Quoted(value, special) != [] && !AtEnd(Quoted(value, special)) && !Blank(Quoted(value, special)[0])
  {
    hide ReadArgument, NeedsQuotes, Suits, Bare, Escaped;
    if NeedsQuotes(value, special) {
      EscapedIsRead(value, 0, rest);
      OpenQuote(Escaped(value, 0) + rest);
      assert Quoted(value, special) + rest == [QUOTE] + (Escaped(value, 0) + rest);
      assert Backslashes(0) + value == value;
    } else {
      UnquotedIsBare(value, special);
      BareIsRead(value, rest);
      BareSuffix(value, 0);
      Unempty(value, special);
    }
  }

  lemma Unempty(value: Text, special: Special)
    requires !NeedsQuotes(value, special)
    ensures value != []
  {
  }

  lemma {:induction false} TailIsRead(arguments: seq<Text>, special: Special)
    requires forall a | a in arguments :: NUL !in a
    requires Suits(special)
    ensures ReadArguments(Tail(arguments, special)) == arguments && Ends(Tail(arguments, special))
  {
    hide ReadArguments, ReadArgument, Quoted, Suits;
    if arguments != [] {
      var rest := Tail(arguments[1..], special);
      var quoted := Quoted(arguments[0], special);
      assert arguments[0] in arguments;
      TailIsRead(arguments[1..], special);
      QuotedIsRead(arguments[0], special, rest);
      assert Tail(arguments, special) == [SPACE] + (quoted + rest);
      ReadOne(quoted + rest);
    } else {
      assert Tail(arguments, special) == [];
      NothingToRead();
    }
  }

  lemma NothingToRead()
    ensures ReadArguments([]) == []
  {
  }

  lemma ReadOne(s: Text)
    requires !AtEnd(s) && !Blank(s[0])
    ensures ReadArguments(s) == [ReadArgument(s, false).0] + ReadArguments(ReadArgument(s, false).1)
    ensures ReadArguments([SPACE] + s) == ReadArguments(s)
  {
    assert ([SPACE] + s)[1..] == s;
  }

  /** A program name survives when it holds no quote and no NUL, and does not end in a backslash that has to be doubled. */
  predicate NameSurvives(command: Text, special: Special) {
    && NUL !in command && QUOTE !in command
    && !(NeedsQuotes(command, special) && command != [] && command[|command| - 1] == BACKSLASH)
  }

  /** How many backslashes the quoter doubles at the end of a value. */
  function Doubled(value: Text, pending: nat): (n: nat)
    ensures value != [] ==> (n > 0 <==> value[|value| - 1] == BACKSLASH)
  {
    if value == [] then pending
    else if value[0] == BACKSLASH then Doubled(value[1..], pending + 1)
    else Doubled(value[1..], 0)
  }

  lemma NameTakes(c: Unit, s: Text, quoted: bool)
    requires c != NUL && c != QUOTE && (quoted || !Blank(c))
    ensures ReadName([c] + s, quoted) == ([c] + ReadName(s, quoted).0, ReadName(s, quoted).1)
  {
    assert ([c] + s)[1..] == s;
  }

  lemma BackslashFirst(n: nat, s: Text)
    requires n > 0
    ensures Backslashes(n) + s == [BACKSLASH] + (Backslashes(n - 1) + s)
  {
  }

  lemma {:induction false} NameBackslashes(n: nat, s: Text, quoted: bool)
    ensures ReadName(Backslashes(n) + s, quoted) == (Backslashes(n) + ReadName(s, quoted).0, ReadName(s, quoted).1)
  {
    hide ReadName;
    if n == 0 {
      assert Backslashes(0) + s == s;
      assert Backslashes(0) + ReadName(s, quoted).0 == ReadName(s, quoted).0;
    } else {
      NameBackslashes(n - 1, s, quoted);
      NameTakes(BACKSLASH, Backslashes(n - 1) + s, quoted);
      BackslashFirst(n, s);
      BackslashFirst(n, ReadName(s, quoted).0);
    }
  }

  lemma NameOther(pending: nat, c: Unit, tail: Text, more: Text, rest: Text)
    requires c != NUL && c != QUOTE && ReadName(more, true) == (tail, rest)
    ensures ReadName(Backslashes(pending) + [c] + more, true) == (Backslashes(pending) + [c] + tail, rest)
  {
    hide ReadName;
    NameTakes(c, more, true);
    NameBackslashes(pending, [c] + more, true);
    Associates(Backslashes(pending), [c], more);
    Associates(Backslashes(pending), [c], tail);
  }

  lemma NameCloses(pending: nat, rest: Text)
    requires Ends(rest)
    ensures ReadName(Backslashes(2 * pending) + [QUOTE] + rest, true) == (Backslashes(2 * pending), rest)
  {
    assert ([QUOTE] + rest)[1..] == rest;
    NameBackslashes(2 * pending, [QUOTE] + rest, true);
    assert Backslashes(2 * pending) + [QUOTE] + rest == Backslashes(2 * pending) + ([QUOTE] + rest);
    assert Backslashes(2 * pending) + [] == Backslashes(2 * pending);
  }

  /** A quoted name without quotes in it is read literally, with the backslashes at its end doubled. */
  lemma {:induction false} EscapedName(value: Text, pending: nat, rest: Text)
    requires NUL !in value && QUOTE !in value && Ends(rest)
    ensures ReadName(Escaped(value, pending) + rest, true)
            == (Backslashes(pending) + value + Backslashes(Doubled(value, pending)), rest)
    decreases |value|
  {
    hide ReadName, Ends;
    if value == [] {
      NameCloses(pending, rest);
      assert Backslashes(pending) + value + Backslashes(pending) == Backslashes(2 * pending);
    } else {
      var left := value[1..];
      if value[0] == BACKSLASH {
        EscapedName(left, pending + 1, rest);
        assert Backslashes(pending + 1) + left == Backslashes(pending) + value;
      } else {
        EscapedName(left, 0, rest);
        var tail := Backslashes(0) + left + Backslashes(Doubled(left, 0));
        NameOther(pending, value[0], tail, Escaped(left, 0) + rest, rest);
        Associates(Backslashes(pending) + [value[0]], Escaped(left, 0), rest);
        Regrown(value, pending, Doubled(left, 0));
      }
    }
  }

  lemma Regrown(value: Text, pending: nat, n: nat)
    requires value != []
    ensures Backslashes(pending) + [value[0]] + (Backslashes(0) + value[1..] + Backslashes(n)) == Backslashes(pending) + value + Backslashes(n)
  {
  }

  lemma {:induction false} BareName(value: Text, rest: Text)
    requires Bare(value) && Ends(rest)
    ensures ReadName(value + rest, false) == (value, rest)
    decreases |value|
  {
    hide Bare;
    if value == [] {
      assert value + rest == rest;
    } else {
      BareSuffix(value, 0);
      BareSuffix(value, 1);
      assert (value + rest)[1..] == value[1..] + rest;
      assert [value[0]] + value[1..] == value;
      BareName(value[1..], rest);
    }
  }

  /** How a program name comes back when it holds neither quote nor NUL. */
  lemma QuotedName(command: Text, special: Special, rest: Text)
    requires NUL !in command && QUOTE !in command && Ends(rest) && Suits(special)
    ensures ReadName(Quoted(command, special) + rest, false)
            == (command + Backslashes(if NeedsQuotes(command, special) then Doubled(command, 0) else 0), rest)
  {
    hide ReadName, NeedsQuotes, Suits, Bare, Escaped, Doubled;
    if NeedsQuotes(command, special) {
      EscapedName(command, 0, rest);
      OpenQuote(Escaped(command, 0) + rest);
      assert Quoted(command, special) + rest == [QUOTE] + (Escaped(command, 0) + rest);
      assert Backslashes(0) + command == command;
    } else {
      UnquotedIsBare(command, special);
      BareName(command, rest);
      assert command + Backslashes(0) == command;
    }
  }

  /** Exactly when a program finds in its command line what the runner was asked to pass: no NUL anywhere, and a name that
      the simpler rules for names read back. Quotes, blanks and backslashes in arguments never matter. */
  lemma LineIsReadBack(command: Text, arguments: seq<Text>, special: Special)
    requires Suits(special)
    ensures ReadLine(Line(command, arguments, special)) == [command] + arguments
            <==> NameSurvives(command, special) && forall a | a in arguments :: NUL !in a
  {
    hide ReadName, ReadArguments, Tail, Quoted, NeedsQuotes, Suits, Doubled;
    var tail := Tail(arguments, special);
    var line := Line(command, arguments, special);
    var read := ReadLine(line);
    assert read[0] == ReadName(line, false).0 && read[1..] == ReadArguments(ReadName(line, false).1);
    TailEnds(arguments, special);
    if NUL !in command && QUOTE !in command {
      QuotedName(command, special, tail);
      NameComesBack(command, special);
      if forall a | a in arguments :: NUL !in a {
        TailIsRead(arguments, special);
      }
    }
    if read == [command] + arguments {
      assert read[0] == command && read[1..] == arguments;
    }
  }

  lemma NameComesBack(command: Text, special: Special)
    requires NUL !in command && QUOTE !in command
    ensures command + Backslashes(if NeedsQuotes(command, special) then Doubled(command, 0) else 0) == command
            <==> NameSurvives(command, special)
  {
    var n := if NeedsQuotes(command, special) then Doubled(command, 0) else 0;
    assert |command + Backslashes(n)| == |command| + n;
    assert n == 0 ==> command + Backslashes(n) == command;
  }

  lemma TailEnds(arguments: seq<Text>, special: Special)
    ensures Ends(Tail(arguments, special))
  {
  }

  /** Both quoters agree with the reader, so the exact condition holds for the line that the runner builds. */
  lemma RunnerLineIsReadBack(command: Text, arguments: seq<Text>)
    ensures ReadLine(Line(command, arguments, RunnerSpecial)) == [command] + arguments
            <==> NameSurvives(command, RunnerSpecial) && forall a | a in arguments :: NUL !in a
    ensures ReadLine(Line(command, arguments, ScriptSpecial)) == [command] + arguments
            <==> NameSurvives(command, ScriptSpecial) && forall a | a in arguments :: NUL !in a
  {
    LineIsReadBack(command, arguments, RunnerSpecial);
    LineIsReadBack(command, arguments, ScriptSpecial);
  }

  /** A name with a blank that ends in a backslash comes back with two, and a quote comes back as a backslash. */
  lemma NamesThatAreLost()
    ensures ReadLine(Line([SPACE, BACKSLASH], [], RunnerSpecial)) == [[SPACE, BACKSLASH, BACKSLASH]]
    ensures ReadLine(Line([QUOTE], [], RunnerSpecial)) == [[BACKSLASH]]
  {
    var blank: Text := [SPACE, BACKSLASH];
    assert blank[0] == SPACE && RunnerSpecial(SPACE) && NeedsQuotes(blank, RunnerSpecial);
    assert blank[1..] == [BACKSLASH] && Doubled(blank, 0) == Doubled([BACKSLASH], 0) == Doubled([], 1) == 1;
    QuotedName(blank, RunnerSpecial, []);
    assert Line(blank, [], RunnerSpecial) == Quoted(blank, RunnerSpecial) + [];
    assert blank + Backslashes(1) == [SPACE, BACKSLASH, BACKSLASH];
    QuoteIsLost();
  }

  lemma QuoteIsLost()
    ensures ReadLine(Line([QUOTE], [], RunnerSpecial)) == [[BACKSLASH]]
  {
    hide ReadLine, Quoted;
    QuotedQuote();
    var inner: Text := [BACKSLASH, QUOTE, QUOTE];
    assert Line([QUOTE], [], RunnerSpecial) == [QUOTE] + inner;
    InnerQuotesRead(inner);
  }

  lemma QuotedQuote()
    ensures Quoted([QUOTE], RunnerSpecial) == [QUOTE] + [BACKSLASH, QUOTE, QUOTE]
  {
    assert [QUOTE][0] == QUOTE && RunnerSpecial(QUOTE) && NeedsQuotes([QUOTE], RunnerSpecial);
    assert [QUOTE][1..] == [] && Escaped([], 0) == Backslashes(0) + [QUOTE];
    assert Escaped([QUOTE], 0) == Backslashes(1) + [QUOTE] + Escaped([], 0) == [BACKSLASH, QUOTE, QUOTE];
  }

  lemma InnerQuotesRead(inner: Text)
    requires inner == [BACKSLASH, QUOTE, QUOTE]
    ensures ReadLine([QUOTE] + inner) == [[BACKSLASH]]
  {
    hide ReadName;
    OpenQuote(inner);
    assert inner == [BACKSLASH] + [QUOTE, QUOTE];
    NameTakes(BACKSLASH, [QUOTE, QUOTE], true);
    QuotesOnly();
    assert ReadName([QUOTE] + inner, false).0 == [BACKSLASH];
  }

  lemma QuotesOnly()
    ensures ReadName([QUOTE, QUOTE], true) == ([], [])
  {
    assert [QUOTE, QUOTE][1..] == [QUOTE] && [QUOTE][1..] == [];
    assert ReadName([QUOTE], false) == ReadName([], true);
  }

  lemma QuotedUnlessPlain(value: Text, special: Special)
    ensures Quoted(value, special) == value <==> value != [] && forall c | c in value :: !special(c)
  {
    hide Escaped;
    EscapedIsLonger(value, 0);
    if NeedsQuotes(value, special) {
      assert |Quoted(value, special)| > |value|;
      if value != [] {
        var i :| 0 <= i < |value| && special(value[i]);
        assert value[i] in value;
      }
    } else {
      forall c | c in value
        ensures !special(c)
      {
        var i :| 0 <= i < |value| && value[i] == c;
      }
    }
  }

  /** Both quoters leave a value alone exactly when it is not empty and holds neither a quote nor what they take for white
      space: for the runner tab, line feed, vertical tab and blank, for the script all white space of JavaScript. */
  lemma QuotedOnlyWhenNeeded(value: Text)
    ensures Quoted(value, RunnerSpecial) == value <==>
            value != [] && forall c | c in value :: c !in {9, 10, 11, 32, 34}
    ensures Quoted(value, ScriptSpecial) == value <==>
            value != [] && forall c | c in value ::
              c !in {9, 10, 11, 12, 13, 32, 34, 0xA0, 0x1680, 0x2028, 0x2029, 0x202F, 0x205F, 0x3000, 0xFEFF} && !(0x2000 <= c <= 0x200A)
  {
    hide Quoted;
    QuotedUnlessPlain(value, RunnerSpecial);
    QuotedUnlessPlain(value, ScriptSpecial);
    assert forall c: Unit :: RunnerSpecial(c) <==> c in {9, 10, 11, 32, 34};
  }

  // ---- The length check ------------------------------------------------------------------------------

  function QuotedAll(values: seq<Text>): seq<Text> {
    if values == [] then [] else [Quoted(values[0], ScriptSpecial)] + QuotedAll(values[1..])
  }

  function Joined(values: seq<Text>): Text {
    if values == [] then [] else if |values| == 1 then values[0] else values[0] + [SPACE] + Joined(values[1..])
  }

  /** `measureAgyWindowsCommandLineUtf16CodeUnits`. */
  function Measured(command: Text, arguments: seq<Text>): nat {
    |Joined(QuotedAll([command] + arguments))| + 1
  }

  lemma {:induction false} EscapedIsLonger(value: Text, pending: nat)
    ensures |Escaped(value, pending)| > |value| + pending
  {
    if value != [] {
      EscapedIsLonger(value[1..], if value[0] == BACKSLASH then pending + 1 else 0);
    }
  }

  /** The script quotes whenever the runner does, and quoting a value makes it longer. */
  lemma ScriptIsLonger(value: Text)
    ensures |Quoted(value, ScriptSpecial)| >= |Quoted(value, RunnerSpecial)|
    ensures |Quoted(value, ScriptSpecial)| == |Quoted(value, RunnerSpecial)|
            <==> (NeedsQuotes(value, ScriptSpecial) <==> NeedsQuotes(value, RunnerSpecial))
  {
    EscapedIsLonger(value, 0);
    assert forall c | RunnerSpecial(c) :: ScriptSpecial(c);
  }

  lemma {:induction false} JoinedIsLine(value: Text, values: seq<Text>)
    ensures Joined(QuotedAll([value] + values)) == Line(value, values, ScriptSpecial)
    decreases |values|
  {
    hide Quoted;
    assert ([value] + values)[1..] == values;
    var quoted := Quoted(value, ScriptSpecial);
    if values == [] {
      assert quoted + [] == quoted;
    } else {
      JoinedIsLine(values[0], values[1..]);
      assert values == [values[0]] + values[1..];
      var rest := Line(values[0], values[1..], ScriptSpecial);
      assert Tail(values, ScriptSpecial) == [SPACE] + rest;
      assert quoted + [SPACE] + rest == quoted + ([SPACE] + rest);
    }
  }

  predicate SameQuoting(value: Text) {
    NeedsQuotes(value, ScriptSpecial) <==> NeedsQuotes(value, RunnerSpecial)
  }

  lemma {:induction false} ScriptTailIsLonger(values: seq<Text>)
    ensures |Tail(values, ScriptSpecial)| >= |Tail(values, RunnerSpecial)|
    ensures |Tail(values, ScriptSpecial)| == |Tail(values, RunnerSpecial)| <==> forall v | v in values :: SameQuoting(v)
  {
    hide Quoted, SameQuoting;
    if values != [] {
      SameOrLonger(values[0]);
      ScriptTailIsLonger(values[1..]);
      assert forall v :: v in values <==> v == values[0] || v in values[1..];
    }
  }

  /** The measured length is never below the length of the runner's line with its terminator, and it is exactly that unless
      some value holds white space that only the script quotes. */
  lemma MeasureIsEnough(command: Text, arguments: seq<Text>)
    ensures Measured(command, arguments) >= |Line(command, arguments, RunnerSpecial)| + 1
    ensures Measured(command, arguments) == |Line(command, arguments, RunnerSpecial)| + 1
            <==> SameQuoting(command) && forall a | a in arguments :: SameQuoting(a)
  {
    hide Quoted, Tail, SameQuoting;
    JoinedIsLine(command, arguments);
    SameOrLonger(command);
    ScriptTailIsLonger(arguments);
  }

  lemma SameOrLonger(value: Text)
    ensures |Quoted(value, ScriptSpecial)| >= |Quoted(value, RunnerSpecial)|
    ensures |Quoted(value, ScriptSpecial)| == |Quoted(value, RunnerSpecial)| <==> SameQuoting(value)
  {
    ScriptIsLonger(value);
  }
}
