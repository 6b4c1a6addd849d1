/** The forward line scan and the backward tail scan over a Claude Code session file. */
module TailScan {
  import opened Lines

  /** What one line says, once decoded and parsed. The backward scan asks this of each line by itself. */
  datatype Meaning = Nothing | Assistant(text: string) | User(text: string)

  datatype Role = ByAssistant | ByUser

  datatype Event = Event(role: Role, startOffset: nat, endOffset: nat, text: string)

  type Reader = seq<Byte> -> Meaning

  // ---- Reference: the meaningful events in file order ----------------------------------------------

  /** A line counts when it is not empty and not longer than the maximum. */
  function LineEvent(s: seq<Byte>, start: nat, end: nat, maximum: nat, meaning: Reader): (r: seq<Event>)
    requires start <= end <= |s|
    ensures |r| <= 1
  {
    if start == end || end - start > maximum then []
    else match meaning(s[start..end])
      case Nothing => []
      case Assistant(text) => [Event(ByAssistant, start, end, text)]
      case User(text) => [Event(ByUser, start, end, text)]
  }

  function EventsOf(s: seq<Byte>, spans: seq<Span>, maximum: nat, meaning: Reader): seq<Event>
    requires forall p | p in spans :: p.start <= p.end <= |s|
  {
    if spans == [] then []
    else LineEvent(s, spans[0].start, spans[0].end, maximum, meaning) + EventsOf(s, spans[1..], maximum, meaning)
  }

  function EventsFrom(s: seq<Byte>, start: nat, maximum: nat, meaning: Reader): seq<Event>
    requires start <= |s|
  {
    EventsOf(s, SpansFrom(s, start), maximum, meaning)
  }

  predicate NoUser(events: seq<Event>) {
    forall e | e in events :: e.role == ByAssistant
  }

  /** The events from the last real user message on, or all of them when there is none. */
  function FromLastUser(events: seq<Event>): (tail: seq<Event>) {
    if events == [] || NoUser(events[1..]) then events else FromLastUser(events[1..])
  }

  /** What `FromLastUser` means: a suffix without a user message behind its head, which is one unless there is none. */
  lemma {:induction false} FromLastUserIsTheTail(events: seq<Event>)
    ensures |FromLastUser(events)| <= |events|
    ensures FromLastUser(events) == events[|events| - |FromLastUser(events)|..]
    ensures FromLastUser(events) != [] ==> NoUser(FromLastUser(events)[1..])
    ensures if NoUser(events) then FromLastUser(events) == events
            else FromLastUser(events) != [] && FromLastUser(events)[0].role == ByUser
    ensures events != [] ==> FromLastUser(events) != []
                             && FromLastUser(events)[|FromLastUser(events)| - 1] == events[|events| - 1]
  {
    hide NoUser;
    if events != [] {
      NoUserCons(events);
      if !NoUser(events[1..]) {
        FromLastUserIsTheTail(events[1..]);
        DropOne(events, |FromLastUser(events)|);
      } else {
        assert events[0..] == events;
      }
    } else {
      NoUserHere();
    }
  }

  lemma NoUserCons(events: seq<Event>)
    requires events != []
    ensures NoUser(events) <==> events[0].role == ByAssistant && NoUser(events[1..])
  {
    assert events == [events[0]] + events[1..];
  }

  lemma NoUserHere()
    ensures NoUser([])
  {
  }

  lemma DropOne(events: seq<Event>, k: nat)
    requires k < |events|
    ensures events[1..][|events| - 1 - k..] == events[|events| - k..]
  {
  }

  lemma {:induction false} LastUserSplit(before: seq<Event>, user: Event, after: seq<Event>)
    requires user.role == ByUser && NoUser(after)
    ensures FromLastUser(before + ([user] + after)) == [user] + after
  {
    if before == [] {
      assert before + ([user] + after) == [user] + after && ([user] + after)[1..] == after;
    } else {
      var all := before + ([user] + after);
      assert all[1..] == before[1..] + ([user] + after);
      assert user in all[1..];
      LastUserSplit(before[1..], user, after);
    }
  }

  lemma EventStep(s: seq<Byte>, a: nat, b: nat, maximum: nat, meaning: Reader)
    requires a <= b <= |s| && NoLf(s, a, b) && (b < |s| ==> s[b] == LF)
    ensures EventsFrom(s, a, maximum, meaning) ==
            LineEvent(s, a, b, maximum, meaning) + if b < |s| then EventsFrom(s, b + 1, maximum, meaning) else []
  {
    SpanStep(s, a, b);
    var p := Span(a, b, b < |s|);
    var rest := if b < |s| then SpansFrom(s, b + 1) else [];
    if b < |s| || a < b {
      assert SpansFrom(s, a) == [p] + rest;
      assert ([p] + rest)[1..] == rest;
      assert EventsOf(s, [p] + rest, maximum, meaning)
          == LineEvent(s, a, b, maximum, meaning) + EventsOf(s, rest, maximum, meaning);
    }
  }

  lemma {:induction false} EventsOfSplit(s: seq<Byte>, x: seq<Span>, y: seq<Span>, maximum: nat, meaning: Reader)
    requires forall p | p in x + y :: p.start <= p.end <= |s|
    requires forall p | p in x :: p.start <= p.end <= |s|
    requires forall p | p in y :: p.start <= p.end <= |s|
    ensures EventsOf(s, x + y, maximum, meaning) == EventsOf(s, x, maximum, meaning) + EventsOf(s, y, maximum, meaning)
  {
    if x == [] {
      assert x + y == y;
    } else {
      assert (x + y)[1..] == x[1..] + y;
      EventsOfSplit(s, x[1..], y, maximum, meaning);
    }
  }

  lemma EventsCut(s: seq<Byte>, b: nat, maximum: nat, meaning: Reader) returns (before: seq<Event>)
    requires LineStart(s, b)
    ensures EventsFrom(s, 0, maximum, meaning) == before + EventsFrom(s, b, maximum, meaning)
  {
    SpansCut(s, 0, b);
    var k := |Spans(s)| - |SpansFrom(s, b)|;
    assert Spans(s) == Spans(s)[..k] + SpansFrom(s, b);
    EventsOfSplit(s, Spans(s)[..k], SpansFrom(s, b), maximum, meaning);
    before := EventsOf(s, Spans(s)[..k], maximum, meaning);
  }

  /** Every event starts at or behind `a`, ends within the first `n` bytes, and ends before the next one starts. */
  predicate InOrder(events: seq<Event>, a: nat, n: nat) {
    && (forall e | e in events :: a <= e.startOffset < e.endOffset <= n)
    && (forall i, j | 0 <= i < j < |events| :: events[i].endOffset < events[j].startOffset)
  }

  lemma InOrderCons(own: seq<Event>, rest: seq<Event>, a: nat, b: nat, n: nat)
    requires |own| <= 1 && InOrder(own, a, b) && InOrder(rest, b + 1, n) && a <= b < n
    ensures InOrder(own + rest, a, n)
  {
    var all := own + rest;
    forall i, j | 0 <= i < j < |all|
      ensures all[i].endOffset < all[j].startOffset
    {
      assert all[j] == rest[j - |own|] && rest[j - |own|] in rest;
      if i >= |own| { assert all[i] == rest[i - |own|]; } else { assert all[i] in own; }
    }
  }

  lemma OwnInOrder(s: seq<Byte>, start: nat, end: nat, maximum: nat, meaning: Reader)
    requires start <= end <= |s|
    ensures InOrder(LineEvent(s, start, end, maximum, meaning), start, end)
  {
  }

  /** Offsets grow along the list, so sorting the found events by start offset only turns them around. */
  lemma {:induction false} EventsAscend(s: seq<Byte>, a: nat, maximum: nat, meaning: Reader)
    requires a <= |s|
    ensures InOrder(EventsFrom(s, a, maximum, meaning), a, |s|)
    decreases |s| - a
  {
    hide InOrder, EventsFrom, LineEvent, NoLf;
    var b := NextLf(s, a);
    EventStep(s, a, b, maximum, meaning);
    OwnInOrder(s, a, b, maximum, meaning);
    var own := LineEvent(s, a, b, maximum, meaning);
    if b < |s| {
      EventsAscend(s, b + 1, maximum, meaning);
      InOrderCons(own, EventsFrom(s, b + 1, maximum, meaning), a, b, |s|);
    } else {
      assert own + [] == own;
    }
  }

  // ---- What the events are, without any scan ----------------------------------------------------------

  /** An event stands for a whole line of the bytes, not too long, that says what the event says. */
  ghost predicate IsEvent(s: seq<Byte>, e: Event, maximum: nat, meaning: Reader) {
    && e.startOffset < e.endOffset <= |s| && e.endOffset - e.startOffset <= maximum
    && IsLine(s, Span(e.startOffset, e.endOffset, e.endOffset < |s|))
    && meaning(s[e.startOffset..e.endOffset]) == if e.role == ByUser then User(e.text) else Assistant(e.text)
  }

  /** The events from the last real user message on, in file order. */
  ghost predicate IsTail(s: seq<Byte>, events: seq<Event>, maximum: nat, meaning: Reader) {
    && (forall e :: e in events <==> IsEvent(s, e, maximum, meaning) && NoUserAfter(s, e.startOffset, maximum, meaning))
    && (forall i, j | 0 <= i < j < |events| :: events[i].endOffset < events[j].startOffset)
  }

  ghost predicate NoUserAfter(s: seq<Byte>, offset: nat, maximum: nat, meaning: Reader) {
    forall u :: IsEvent(s, u, maximum, meaning) && u.role == ByUser ==> u.startOffset <= offset
  }

  /** Where the last meaningful line of the bytes ends; 0 when there is none. */
  ghost predicate IsWatermark(s: seq<Byte>, watermark: nat, maximum: nat, meaning: Reader) {
    && (forall e :: IsEvent(s, e, maximum, meaning) ==> e.endOffset <= watermark)
    && (watermark == 0 || exists e :: IsEvent(s, e, maximum, meaning) && e.endOffset == watermark)
  }

  lemma OwnEvent(s: seq<Byte>, p: Span, e: Event, maximum: nat, meaning: Reader)
    requires IsLine(s, p)
    ensures e in LineEvent(s, p.start, p.end, maximum, meaning) <==>
            IsEvent(s, e, maximum, meaning) && e.startOffset == p.start && e.endOffset == p.end
  {
  }

  lemma {:induction false} EventsOfMembers(s: seq<Byte>, spans: seq<Span>, e: Event, maximum: nat, meaning: Reader)
    requires forall p | p in spans :: p.start <= p.end <= |s| && IsLine(s, p)
    ensures e in EventsOf(s, spans, maximum, meaning) <==>
            IsEvent(s, e, maximum, meaning) && exists p :: p in spans && p.start == e.startOffset && p.end == e.endOffset
  {
    hide LineEvent, IsEvent, IsLine;
    if spans != [] {
      assert spans == [spans[0]] + spans[1..];
      OwnEvent(s, spans[0], e, maximum, meaning);
      EventsOfMembers(s, spans[1..], e, maximum, meaning);
    }
  }

  /** The meaningful events are exactly the lines that say something. */
  lemma EventsAreTheLines(s: seq<Byte>, e: Event, maximum: nat, meaning: Reader)
    ensures e in EventsFrom(s, 0, maximum, meaning) <==> IsEvent(s, e, maximum, meaning)
  {
    SpansAreTheLines(s, 0);
    EventsOfMembers(s, Spans(s), e, maximum, meaning);
    if IsEvent(s, e, maximum, meaning) {
      var p := Span(e.startOffset, e.endOffset, e.endOffset < |s|);
      assert p in Spans(s);
    }
  }

  lemma FirstStartsFirst(events: seq<Event>, n: nat)
    requires InOrder(events, 0, n) && events != []
    ensures InOrder(events[1..], 0, n) && events[0] in events
    ensures forall e | e in events[1..] :: e in events && events[0].startOffset < e.startOffset && events[0].endOffset < e.endOffset
    ensures forall e | e in events :: e == events[0] || e in events[1..]
  {
    var rest := events[1..];
    RestInOrder(events, n);
    forall e | e in rest
      ensures e in events && events[0].endOffset < e.startOffset
    {
      var i :| 0 <= i < |rest| && rest[i] == e;
      assert events[i + 1] == e;
    }
    assert events == [events[0]] + rest;
  }

  lemma RestInOrder(events: seq<Event>, n: nat)
    requires InOrder(events, 0, n) && events != []
    ensures InOrder(events[1..], 0, n)
  {
    var rest := events[1..];
    forall i, j | 0 <= i < j < |rest| ensures rest[i].endOffset < rest[j].startOffset {
      assert rest[i] == events[i + 1] && rest[j] == events[j + 1];
    }
  }

  /** The tail holds the events that no user message follows. */
  lemma {:induction false} TailMember(events: seq<Event>, e: Event, n: nat)
    requires InOrder(events, 0, n)
    ensures e in FromLastUser(events) <==>
            e in events && forall u | u in events && u.role == ByUser :: u.startOffset <= e.startOffset
  {
    hide InOrder;
    if events != [] {
      FirstStartsFirst(events, n);
      if !NoUser(events[1..]) {
        TailMember(events[1..], e, n);
      }
    }
  }

  /** The tail of the reference is the tail of the lines. */
  lemma TailIsOfLines(s: seq<Byte>, maximum: nat, meaning: Reader)
    ensures var tail := FromLastUser(EventsFrom(s, 0, maximum, meaning));
            IsTail(s, tail, maximum, meaning) && IsWatermark(s, LastOffset(tail), maximum, meaning)
  {
    hide EventsFrom, IsEvent, FromLastUser;
    var all := EventsFrom(s, 0, maximum, meaning);
    EventsAscend(s, 0, maximum, meaning);
    forall e
      ensures e in all <==> IsEvent(s, e, maximum, meaning)
    {
      EventsAreTheLines(s, e, maximum, meaning);
    }
    forall e
      ensures e in FromLastUser(all) <==> IsEvent(s, e, maximum, meaning) && NoUserAfter(s, e.startOffset, maximum, meaning)
    {
      TailMember(all, e, |s|);
    }
    TailInOrder(all, |s|);
  }

  lemma {:induction false} TailInOrder(events: seq<Event>, n: nat)
    requires InOrder(events, 0, n)
    ensures InOrder(FromLastUser(events), 0, n) && (FromLastUser(events) == [] <==> events == [])
    ensures forall e | e in events :: e.endOffset <= LastOffset(FromLastUser(events))
    ensures events != [] ==> exists e :: e in events && e.endOffset == LastOffset(FromLastUser(events))
  {
    hide InOrder;
    if events != [] {
      FirstStartsFirst(events, n);
      if !NoUser(events[1..]) {
        TailInOrder(events[1..], n);
      } else {
        LastEndsLast(events, n);
      }
    }
  }

  lemma {:induction false} LastEndsLast(events: seq<Event>, n: nat)
    requires InOrder(events, 0, n) && events != []
    ensures events[|events| - 1] in events
    ensures forall e | e in events :: e.endOffset <= events[|events| - 1].endOffset
  {
    hide InOrder;
    FirstStartsFirst(events, n);
    if |events| > 1 { LastEndsLast(events[1..], n); }
  }

  // ---- The backward scan ---------------------------------------------------------------------------

  /** Everything behind `q` has been dealt with: `q` is the end of the file, an LF, or just behind an LF. */
  ghost predicate Settled(s: seq<Byte>, q: nat, events: seq<Event>, maximum: nat, meaning: Reader) {
    && q <= |s| && NoUser(events)
    && (|| (q == |s| && events == [])
        || (q < |s| && s[q] == LF && Reversed(events) == EventsFrom(s, q + 1, maximum, meaning))
        || (q > 0 && s[q - 1] == LF && Reversed(events) == EventsFrom(s, q, maximum, meaning)))
  }

  lemma SettledStep(s: seq<Byte>, a: nat, q: nat, events: seq<Event>, maximum: nat, meaning: Reader)
    requires Settled(s, q, events, maximum, meaning) && a <= q && NoLf(s, a, q)
    ensures EventsFrom(s, a, maximum, meaning) == LineEvent(s, a, q, maximum, meaning) + Reversed(events)
  {
    if q == |s| || s[q] == LF {
      EventStep(s, a, q, maximum, meaning);
    }
  }

  /** The line from `a` to `q` is handled: its event, if any, is pushed, and a user message ends the scan. */
  lemma Pushed(s: seq<Byte>, a: nat, q: nat, events: seq<Event>, maximum: nat, meaning: Reader)
    requires Settled(s, q, events, maximum, meaning) && a <= q && NoLf(s, a, q) && LineStart(s, a)
    ensures var next := events + LineEvent(s, a, q, maximum, meaning);
            && Reversed(next) == EventsFrom(s, a, maximum, meaning)
            && (NoUser(next) && a > 0 ==> Settled(s, a - 1, next, maximum, meaning))
            && (!NoUser(next) || a == 0 ==> Reversed(next) == FromLastUser(EventsFrom(s, 0, maximum, meaning)))
  {
    var own := LineEvent(s, a, q, maximum, meaning);
    var next := events + own;
    SettledStep(s, a, q, events, maximum, meaning);
    ReversedAppend(events, own);
    ReversedMembers(events);
    assert Reversed(own) == own;
    if !NoUser(next) {
      var user := own[0];
      var before := EventsCut(s, a, maximum, meaning);
      LastUserSplit(before, user, Reversed(events));
    } else if a == 0 {
      ReversedMembers(next);
      FromLastUserIsTheTail(Reversed(next));
    }
  }

  /** The last LF before `end`, or the position before the block when there is none. */
  function LastLf(s: seq<Byte>, start: nat, end: nat): (i: int)
    requires start <= end <= |s|
    ensures start - 1 <= i < end && NoLf(s, i + 1, end)
    ensures i >= start ==> s[i] == LF
    decreases end
  {
    if end == start then start - 1 else if s[end - 1] == LF then end - 1 else LastLf(s, start, end - 1)
  }

  /** All complete lines of the view from `start` to `end`, from its end backwards. */
  method ScanBack(s: seq<Byte>, start: nat, end: nat, found: seq<Event>, maximum: nat, meaning: Reader)
    returns (lineEnd: nat, events: seq<Event>, foundUser: bool)
    requires start <= end <= |s| && Settled(s, end, found, maximum, meaning)
    ensures !foundUser ==>
              start <= lineEnd <= end && NoLf(s, start, lineEnd) && Settled(s, lineEnd, events, maximum, meaning)
    ensures foundUser ==> Reversed(events) == FromLastUser(EventsFrom(s, 0, maximum, meaning))
  {
    hide Settled, NoUser, LineEvent, EventsFrom, FromLastUser, Reversed;
    events, foundUser, lineEnd := found, false, end;
    while lineEnd > start
      invariant start <= lineEnd <= end && Settled(s, lineEnd, events, maximum, meaning)
    {
      var newline := LastLf(s, start, lineEnd);
      if newline < start { break; }
      Pushed(s, newline + 1, lineEnd, events, maximum, meaning);
      events := events + LineEvent(s, newline + 1, lineEnd, maximum, meaning);
      if !NoUser(events) {
        foundUser := true;
        return;
      }
      lineEnd := newline;
    }
  }

  lemma SettledAtEnd(s: seq<Byte>, maximum: nat, meaning: Reader)
    ensures Settled(s, |s|, [], maximum, meaning) && NoLf(s, |s|, |s|)
  {
  }

  lemma NoEvent(s: seq<Byte>, start: nat, end: nat, maximum: nat, meaning: Reader)
    requires start <= end <= |s| && (start == end || end - start > maximum)
    ensures LineEvent(s, start, end, maximum, meaning) == []
  {
  }

  /** A line that is too long is passed over without keeping its bytes. */
  lemma DiscardedLine(s: seq<Byte>, a: nat, q: nat, events: seq<Event>, maximum: nat, meaning: Reader)
    requires Settled(s, q, events, maximum, meaning) && a <= q && NoLf(s, a, q)
    requires a > 0 && s[a - 1] == LF && q - a > maximum
    ensures Settled(s, a, events, maximum, meaning) && NoLf(s, a, a)
  {
    SettledStep(s, a, q, events, maximum, meaning);
    NoEvent(s, a, q, maximum, meaning);
    assert [] + Reversed(events) == Reversed(events);
  }

  /** What is left when the scan has come to the start of the file. */
  lemma FirstLine(s: seq<Byte>, q: nat, events: seq<Event>, discarding: bool, maximum: nat, meaning: Reader)
    requires Settled(s, q, events, maximum, meaning) && q <= |s| && NoLf(s, 0, q) && (discarding ==> q > maximum)
    ensures var all := if discarding || q == 0 then events else events + LineEvent(s, 0, q, maximum, meaning);
            Reversed(all) == FromLastUser(EventsFrom(s, 0, maximum, meaning))
  {
    hide Settled, NoUser, LineEvent, EventsFrom, FromLastUser, Reversed;
    Pushed(s, 0, q, events, maximum, meaning);
    if discarding || q == 0 {
      NoEvent(s, 0, q, maximum, meaning);
      assert events + [] == events;
    }
  }

  lemma NoLfJoined(s: seq<Byte>, a: nat, b: nat, c: nat)
    requires a <= b <= c <= |s| && NoLf(s, a, b) && NoLf(s, b, c)
    ensures NoLf(s, a, c)
  {
  }

  /** Where the last event ends, or 0. */
  function LastOffset(events: seq<Event>): nat {
    if events == [] then 0 else events[|events| - 1].endOffset
  }

  /** Reads the first `expected` bytes backwards in chunks until the last real user message. */
  method ScanTailReverse(file: seq<Byte>, expected: nat, chunkBytes: nat, maximum: nat, meaning: Reader)
    returns (chronological: seq<Event>, watermark: nat, shortRead: bool)
    requires chunkBytes > 0
    ensures shortRead <==> expected > |file|
    ensures !shortRead ==> chronological == FromLastUser(EventsFrom(file[..expected], 0, maximum, meaning))
    ensures !shortRead ==> IsTail(file[..expected], chronological, maximum, meaning)
                           && IsWatermark(file[..expected], watermark, maximum, meaning)
    ensures watermark == LastOffset(chronological)
  {
    if expected > |file| {
      // The first chunk already comes back short.
      return [], 0, true;
    }
    hide Settled, NoUser, LineEvent, EventsFrom, FromLastUser, Reversed, NoLf, LastLf, LastOffset, IsTail, IsWatermark;
    shortRead := false;
    var s := file[..expected];
    SettledAtEnd(s, maximum, meaning);
    var events: seq<Event> := [];
    var position: nat := expected;
    var pendingEnd: nat := expected; // the pending buffer is the view from `position` to here
    var discarding := false;
    var foundUser := false;
    while position > 0
      invariant !foundUser && position <= pendingEnd <= |s|
      invariant NoLf(s, position, pendingEnd) && Settled(s, pendingEnd, events, maximum, meaning)
      invariant discarding ==> pendingEnd - position > maximum
    {
      var start := if position > chunkBytes then position - chunkBytes else 0;
      if discarding {
        var newline := LastLf(s, start, position);
        if newline < start {
          NoLfJoined(s, start, position, pendingEnd);
          position := start;
          continue;
        }
        NoLfJoined(s, newline + 1, position, pendingEnd);
        DiscardedLine(s, newline + 1, pendingEnd, events, maximum, meaning);
        pendingEnd := newline + 1;
        discarding := false;
      }
      pendingEnd, events, foundUser := ScanBack(s, start, pendingEnd, events, maximum, meaning);
      if foundUser { break; }
      discarding := pendingEnd - start > maximum;
      position := start;
    }
    if !foundUser {
      FirstLine(s, pendingEnd, events, discarding, maximum, meaning);
      if !discarding && pendingEnd > 0 {
        events := events + LineEvent(s, 0, pendingEnd, maximum, meaning);
      }
    }
    chronological := Reversed(events);
    TailIsOfLines(s, maximum, meaning);
    watermark := LastOffset(chronological);
  }

  /** The watermark is the end of the last meaningful event of the whole file, however far back the scan went. */
  lemma WatermarkIsTheLastEvent(events: seq<Event>)
    requires events != []
    ensures FromLastUser(events) != []
    ensures LastOffset(FromLastUser(events)) == LastOffset(events)
  {
    FromLastUserIsTheTail(events);
  }

  // ---- The forward scan ----------------------------------------------------------------------------

  /** What the forward scan does with a line: it hands its bytes on, or reports that it is too long. */
  datatype Visit = Considered(number: nat, line: seq<Byte>) | Oversized(number: nat)

  function VisitOf(s: seq<Byte>, start: nat, end: nat, number: nat, maximum: nat): Visit
    requires start <= end <= |s|
  {
    if end - start > maximum then Oversized(number) else Considered(number, s[start..end])
  }

  /** The reference: every line of `s` from `start` on, numbered, considered iff it is short enough. */
  function VisitsFrom(s: seq<Byte>, start: nat, number: nat, maximum: nat): seq<Visit>
    requires start <= |s|
    decreases |s| - start
  {
    var end := NextLf(s, start);
    if end < |s| then [VisitOf(s, start, end, number, maximum)] + VisitsFrom(s, end + 1, number + 1, maximum)
    else if start < end then [VisitOf(s, start, end, number, maximum)]
    else []
  }

  lemma {:induction false} VisitAt(s: seq<Byte>, start: nat, number: nat, maximum: nat, k: nat)
    requires start <= |s|
    ensures |VisitsFrom(s, start, number, maximum)| == |SpansFrom(s, start)|
    ensures k < |SpansFrom(s, start)| ==>
              SpansFrom(s, start)[k] in SpansFrom(s, start) &&
              VisitsFrom(s, start, number, maximum)[k] ==
              VisitOf(s, SpansFrom(s, start)[k].start, SpansFrom(s, start)[k].end, number + k, maximum)
    decreases |s| - start
  {
    hide VisitOf, NextLf;
    var end := NextLf(s, start);
    if end < |s| {
      VisitAt(s, end + 1, number + 1, maximum, if k > 0 then k - 1 else 0);
    }
  }

  /** Every line is visited once, in file order and with its number, and its bytes are handed on iff it is short enough. */
  lemma VisitsAreTheSpans(s: seq<Byte>, start: nat, number: nat, maximum: nat, k: nat)
    requires start <= |s|
    ensures |VisitsFrom(s, start, number, maximum)| == |SpansFrom(s, start)|
    ensures k < |SpansFrom(s, start)| ==>
              SpansFrom(s, start)[k] in SpansFrom(s, start) &&
              VisitsFrom(s, start, number, maximum)[k] ==
              var p := SpansFrom(s, start)[k];
              if p.end - p.start > maximum then Oversized(number + k) else Considered(number + k, s[p.start..p.end])
  {
    hide VisitsFrom, SpansFrom;
    VisitAt(s, start, number, maximum, k);
  }

  /** The state between two chunks: `pending` holds the line that started at `lineStart`, unless it is being discarded. */
  datatype Feed = Feed(pending: seq<Byte>, discarding: bool, lineNumber: nat, visits: seq<Visit>)

  ghost predicate Fed(s: seq<Byte>, st: Feed, lineStart: nat, pos: nat, maximum: nat) {
    && lineStart <= pos <= |s| && LineStart(s, lineStart) && NoLf(s, lineStart, pos)
    && var rest := VisitsFrom(s, lineStart, st.lineNumber + 1, maximum);
       if st.discarding then
         pos - lineStart > maximum && rest != [] && VisitsFrom(s, 0, 1, maximum) == st.visits + rest[1..]
       else
         st.pending == s[lineStart..pos] && pos - lineStart <= maximum && VisitsFrom(s, 0, 1, maximum) == st.visits + rest
  }

  /** Where the line at a position starts. */
  function LineOf(s: seq<Byte>, pos: nat): (a: nat)
    requires pos <= |s|
    ensures a <= pos && LineStart(s, a) && NoLf(s, a, pos)
  {
    LastLf(s, 0, pos) + 1
  }

  lemma FedLine(s: seq<Byte>, st: Feed, lineStart: nat, pos: nat, maximum: nat)
    requires Fed(s, st, lineStart, pos, maximum)
    ensures lineStart == LineOf(s, pos)
  {
    var a := LineOf(s, pos);
    assert lineStart <= a && a <= lineStart;
  }

  lemma FirstVisit(s: seq<Byte>, a: nat, b: nat, number: nat, maximum: nat)
    requires a <= b <= |s| && NoLf(s, a, b) && (b < |s| ==> s[b] == LF)
    ensures VisitsFrom(s, a, number, maximum) ==
            if b < |s| then [VisitOf(s, a, b, number, maximum)] + VisitsFrom(s, b + 1, number + 1, maximum)
            else if a < b then [VisitOf(s, a, b, number, maximum)] else []
  {
    assert NextLf(s, a) == b;
  }

  /** The line is complete: it is handed on or reported, and the next one starts behind the LF. */
  lemma LineComplete(s: seq<Byte>, st: Feed, lineStart: nat, pos: nat, end: nat, maximum: nat)
    requires Fed(s, st, lineStart, pos, maximum) && pos <= end < |s| && NoLf(s, pos, end) && s[end] == LF
    ensures var visits := if st.discarding then st.visits
                          else st.visits + [VisitOf(s, lineStart, end, st.lineNumber + 1, maximum)];
            Fed(s, Feed([], false, st.lineNumber + 1, visits), end + 1, end + 1, maximum)
    ensures !st.discarding ==> st.pending + s[pos..end] == s[lineStart..end]
  {
    hide VisitsFrom, VisitOf, NextLf;
    FirstVisit(s, lineStart, end, st.lineNumber + 1, maximum);
    var visit, later := VisitOf(s, lineStart, end, st.lineNumber + 1, maximum), VisitsFrom(s, end + 1, st.lineNumber + 2, maximum);
    assert ([visit] + later)[1..] == later;
    assert st.visits + [visit] + later == st.visits + ([visit] + later);
  }

  /** The chunk ends inside a line: the line is kept, or given up as soon as it is too long. */
  lemma LineContinues(s: seq<Byte>, st: Feed, lineStart: nat, pos: nat, to: nat, maximum: nat)
    requires Fed(s, st, lineStart, pos, maximum) && pos <= to <= |s| && NoLf(s, pos, to)
    ensures st.discarding ==> Fed(s, st, lineStart, to, maximum)
    ensures !st.discarding && to - lineStart <= maximum ==>
              Fed(s, st.(pending := st.pending + s[pos..to]), lineStart, to, maximum)
    ensures !st.discarding && to - lineStart > maximum ==>
              Fed(s, Feed([], true, st.lineNumber, st.visits + [Oversized(st.lineNumber + 1)]), lineStart, to, maximum)
  {
    hide VisitsFrom, VisitOf, NextLf;
    if !st.discarding && to - lineStart > maximum {
      LineGivenUp(s, st, lineStart, to, maximum);
    }
  }

  lemma LineGivenUp(s: seq<Byte>, st: Feed, lineStart: nat, to: nat, maximum: nat)
    requires lineStart + maximum < to <= |s| && NoLf(s, lineStart, to)
    ensures var rest := VisitsFrom(s, lineStart, st.lineNumber + 1, maximum);
            rest != [] && st.visits + rest == st.visits + [Oversized(st.lineNumber + 1)] + rest[1..]
  {
    hide VisitsFrom, NextLf;
    var end, number := NextLf(s, lineStart), st.lineNumber + 1;
    FirstVisit(s, lineStart, end, number, maximum);
    var rest := VisitsFrom(s, lineStart, number, maximum);
    assert VisitOf(s, lineStart, end, number, maximum) == Oversized(number);
    assert rest == [Oversized(number)] + rest[1..];
    assert st.visits + [Oversized(number)] + rest[1..] == st.visits + ([Oversized(number)] + rest[1..]);
  }

  lemma NextLfWithin(s: seq<Byte>, to: nat, cursor: nat)
    requires cursor <= to <= |s|
    ensures NoLf(s, cursor, NextLf(s[..to], cursor))
    ensures NextLf(s[..to], cursor) < to ==> s[NextLf(s[..to], cursor)] == LF
  {
    assert forall k | cursor <= k < to :: s[k] == s[..to][k];
  }

  /** What a chunk reader may rely on about the line it is in. */
  lemma FedLength(s: seq<Byte>, st: Feed, lineStart: nat, pos: nat, maximum: nat)
    requires Fed(s, st, lineStart, pos, maximum)
    ensures lineStart <= pos <= |s| && (!st.discarding ==> |st.pending| == pos - lineStart)
  {
  }

  /** One chunk, the view from `start` to `to`. */
  method ConsumeChunk(s: seq<Byte>, start: nat, to: nat, before: Feed, maximum: nat) returns (st: Feed)
    requires start <= to && to <= |s| && Fed(s, before, LineOf(s, start), start, maximum)
    ensures Fed(s, st, LineOf(s, to), to, maximum)
  {
    hide Fed, NoLf;
    st := before;
    ghost var lineStart: nat := LineOf(s, start);
    var cursor := start;
    while cursor < to
      invariant start <= cursor <= to && Fed(s, st, lineStart, cursor, maximum)
    {
      var newline := NextLf(s[..to], cursor);
      NextLfWithin(s, to, cursor);
      FedLength(s, st, lineStart, cursor, maximum);
      if newline == to {
        LineContinues(s, st, lineStart, cursor, to, maximum);
        if !st.discarding {
          if |st.pending| + (to - cursor) > maximum {
            st := Feed([], true, st.lineNumber, st.visits + [Oversized(st.lineNumber + 1)]);
          } else {
            st := st.(pending := st.pending + s[cursor..to]);
          }
        }
        FedLine(s, st, lineStart, to, maximum);
        return;
      }
      LineComplete(s, st, lineStart, cursor, newline, maximum);
      var visits := st.visits;
      if !st.discarding {
        if |st.pending| + (newline - cursor) > maximum {
          visits := visits + [Oversized(st.lineNumber + 1)];
        } else {
          visits := visits + [Considered(st.lineNumber + 1, st.pending + s[cursor..newline])];
        }
      }
      st := Feed([], false, st.lineNumber + 1, visits);
      cursor := newline + 1;
      lineStart := newline + 1;
    }
    FedLine(s, st, lineStart, to, maximum);
  }

  lemma AllFed(s: seq<Byte>, st: Feed, lineStart: nat, maximum: nat)
    requires Fed(s, st, lineStart, |s|, maximum)
    ensures VisitsFrom(s, 0, 1, maximum) ==
            if !st.discarding && |st.pending| > 0 then st.visits + [Considered(st.lineNumber + 1, st.pending)]
            else st.visits
  {
    FirstVisit(s, lineStart, |s|, st.lineNumber + 1, maximum);
  }

  function Available(file: seq<Byte>, expected: nat): (s: seq<Byte>)
    ensures |s| <= expected && |s| <= |file| && (|s| == expected || |s| == |file|)
  {
    if expected > |file| then file else file[..expected]
  }

  lemma FedAtStart(s: seq<Byte>, maximum: nat)
    ensures Fed(s, Feed([], false, 0, []), LineOf(s, 0), 0, maximum)
  {
    assert [] + VisitsFrom(s, 0, 1, maximum) == VisitsFrom(s, 0, 1, maximum);
    assert s[0..0] == [];
  }

  /** Reads the first `expected` bytes forward in chunks; a shorter file is read to its end and reported. */
  method ScanForward(file: seq<Byte>, expected: nat, chunkBytes: nat, maximum: nat)
    returns (visits: seq<Visit>, shortRead: bool)
    requires chunkBytes > 0
    ensures shortRead <==> expected > |file|
    ensures visits == VisitsFrom(Available(file, expected), 0, 1, maximum)
  {
    hide Fed, NoLf, VisitsFrom, LastLf, NextLf;
    shortRead := false;
    var s := Available(file, expected);
    FedAtStart(s, maximum);
    var st := Feed([], false, 0, []);
    var total: nat := 0;
    while total < expected
      invariant total <= |s| && Fed(s, st, LineOf(s, total), total, maximum) && !shortRead
    {
      var requested := if chunkBytes < expected - total then chunkBytes else expected - total;
      var read := if total + requested > |s| then |s| - total else requested;
      st := ConsumeChunk(s, total, total + read, st, maximum);
      total := total + read;
      if read < requested {
        shortRead := true;
        break;
      }
    }
    AllFed(s, st, LineOf(s, |s|), maximum);
    visits := if !st.discarding && |st.pending| > 0 then st.visits + [Considered(st.lineNumber + 1, st.pending)] else st.visits;
  }

  function Said(events: seq<Event>): seq<(Role, string)> {
    if events == [] then [] else [(events[0].role, events[0].text)] + Said(events[1..])
  }

  /** What a line that the forward scan hands on says when it is asked by itself. */
  function VisitSays(visit: Visit, meaning: Reader): seq<(Role, string)> {
    if visit.Considered? && visit.line != [] then
      match meaning(visit.line)
      case Nothing => []
      case Assistant(text) => [(ByAssistant, text)]
      case User(text) => [(ByUser, text)]
    else []
  }

  function SaidByVisits(visits: seq<Visit>, meaning: Reader): seq<(Role, string)> {
    if visits == [] then [] else VisitSays(visits[0], meaning) + SaidByVisits(visits[1..], meaning)
  }

  lemma OwnLineSays(s: seq<Byte>, start: nat, end: nat, number: nat, maximum: nat, meaning: Reader, rest: seq<Event>)
    requires start <= end <= |s|
    ensures Said(LineEvent(s, start, end, maximum, meaning) + rest)
         == VisitSays(VisitOf(s, start, end, number, maximum), meaning) + Said(rest)
  {
    var own := LineEvent(s, start, end, maximum, meaning);
    if own == [] {
      assert own + rest == rest;
    } else {
      assert (own + rest)[1..] == rest;
    }
  }

  lemma SaidCons(visit: Visit, rest: seq<Visit>, meaning: Reader)
    ensures SaidByVisits([visit] + rest, meaning) == VisitSays(visit, meaning) + SaidByVisits(rest, meaning)
  {
    assert ([visit] + rest)[1..] == rest;
  }

  /** The visits from a line start say what its line says, and then what the later lines say. */
  lemma VisitsSay(s: seq<Byte>, start: nat, number: nat, maximum: nat, meaning: Reader)
    requires start <= |s|
    ensures var end := NextLf(s, start);
            SaidByVisits(VisitsFrom(s, start, number, maximum), meaning)
            == VisitSays(VisitOf(s, start, end, number, maximum), meaning)
               + if end < |s| then SaidByVisits(VisitsFrom(s, end + 1, number + 1, maximum), meaning) else []
  {
    hide SaidByVisits, VisitSays, VisitOf, NoLf;
    var end := NextLf(s, start);
    var own := VisitOf(s, start, end, number, maximum);
    SaidCons(own, if end < |s| then VisitsFrom(s, end + 1, number + 1, maximum) else [], meaning);
    if end == |s| {
      NothingToSay(s, number, maximum, meaning);
      assert [own] + [] == [own];
    }
  }

  lemma NothingToSay(s: seq<Byte>, number: nat, maximum: nat, meaning: Reader)
    ensures SaidByVisits([], meaning) == [] && VisitSays(VisitOf(s, |s|, |s|, number, maximum), meaning) == []
    ensures Said([]) == []
  {
  }

  /** Both scans consider the same lines: the events are what the forward scan's considered lines say, in order. */
  lemma {:induction false} BothDirectionsConsiderTheSameLines(s: seq<Byte>, start: nat, number: nat, maximum: nat, meaning: Reader)
    requires start <= |s|
    ensures Said(EventsFrom(s, start, maximum, meaning)) == SaidByVisits(VisitsFrom(s, start, number, maximum), meaning)
    decreases |s| - start
  {
    hide EventsFrom, LineEvent, NoLf, VisitSays, VisitOf, Said, SaidByVisits, VisitsFrom;
    var end := NextLf(s, start);
    EventStep(s, start, end, maximum, meaning);
    OwnLineSays(s, start, end, number, maximum, meaning, if end < |s| then EventsFrom(s, end + 1, maximum, meaning) else []);
    VisitsSay(s, start, number, maximum, meaning);
    if end < |s| {
      BothDirectionsConsiderTheSameLines(s, end + 1, number + 1, maximum, meaning);
    } else {
      NothingToSay(s, number, maximum, meaning);
    }
  }
}
