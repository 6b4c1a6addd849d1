/** Proofs of an adopted prefix that several callers share. A flight counts its consumers; when the last one gives up
    before the flight ends, the flight is cancelled. Each method is one uninterrupted step, in any order. */
module PrefixFlights {

  /** The fields of a flight. `checks` holds the consumers that have not finished. */
  datatype Flight = Flight(key: string, consumers: int, cancelled: bool, settled: bool, checks: set<nat>)

  /** A caller either waits for a cancelled flight and then asks again, or is attached to one. */
  datatype Entry = Retry(flight: nat) | Attached(flight: nat)

  /** The count is the number of unfinished consumers. Until a flight settles, consumers leave it only when they give up,
      and it is cancelled exactly when the last one has. */
  ghost predicate FlightOk(f: Flight, joined: set<nat>, givenUp: set<nat>) {
    && f.consumers == |f.checks| && f.checks <= joined
    && (!f.settled ==> joined - f.checks <= givenUp && (f.checks == {} ==> f.cancelled))
    && (f.cancelled ==> f.checks == {} && joined <= givenUp)
  }

  /** A flight after one of its consumers has finished. */
  function Left(f: Flight, c: nat): Flight {
    f.(consumers := f.consumers - 1, checks := f.checks - {c}, cancelled := f.cancelled || (f.consumers == 1 && !f.settled))
  }

  function Entered(f: Flight, c: nat): Flight {
    f.(consumers := f.consumers + 1, checks := f.checks + {c})
  }

  /** A consumer that has already given up is checked out again at once. */
  function Checked(f: Flight, c: nat, givenUp: set<nat>): Flight {
    if c in f.checks && c in givenUp then Left(f, c) else f
  }

  lemma LeftIsOk(f: Flight, joined: set<nat>, givenUp: set<nat>, c: nat)
    requires FlightOk(f, joined, givenUp) && c in f.checks && (f.settled || c in givenUp)
    ensures FlightOk(Left(f, c), joined, givenUp)
    ensures Left(f, c).cancelled <==> !f.settled && f.checks == {c}
  {
    assert |f.checks - {c}| == |f.checks| - 1;
    assert |f.checks| == 1 ==> f.checks - {c} == {};
  }

  lemma JoinedIsOk(f: Flight, joined: set<nat>, givenUp: set<nat>, c: nat)
    requires FlightOk(f, joined, givenUp) && !f.cancelled && !f.settled && c !in joined
    ensures FlightOk(Entered(f, c), joined + {c}, givenUp)
  {
  }

  lemma NewIsOk(key: string, givenUp: set<nat>, c: nat)
    ensures FlightOk(Flight(key, 1, false, false, {c}), {c}, givenUp)
    ensures {} + {c} == {c}
  {
  }

  lemma CancelledMeans(f: Flight, joined: set<nat>, givenUp: set<nat>)
    requires FlightOk(f, joined, givenUp)
    ensures !f.settled ==> (f.cancelled <==> f.checks == {})
    ensures f.cancelled ==> joined <= givenUp
  {
  }

  /** The module-level map of flights, and every flight ever started, named by its index. */
  class Registry {
    var flights: map<string, nat>
    var started: seq<Flight>
    /** Who ever joined each flight. */
    ghost var joined: seq<set<nat>>
    /** Callers whose cancellation check says yes, or whose progress listener has thrown. */
    var givenUp: set<nat>

    ghost predicate Valid()
      reads this
    {
      && |joined| == |started|
      && (forall w | 0 <= w < |started| :: FlightOk(started[w], joined[w], givenUp))
      && (forall key | key in flights :: flights[key] < |started| && started[flights[key]].key == key && !started[flights[key]].settled)
    }

    constructor ()
      ensures Valid() && started == [] && flights == map[]
    {
      flights, started, joined, givenUp := map[], [], [], {};
    }

    method GiveUp(c: nat)
      requires Valid()
      modifies this`givenUp
      ensures Valid() && givenUp == old(givenUp) + {c}
    {
      givenUp := givenUp + {c};
    }

    /** `finish` of a consumer, once. */
    method Finish(w: nat, c: nat)
      requires Valid() && w < |started| && c in started[w].checks && (started[w].settled || c in givenUp)
      modifies this`started
      ensures Valid() && started == old(started)[w := Left(old(started)[w], c)]
    {
      LeftIsOk(started[w], joined[w], givenUp, c);
      started := started[w := started[w].(checks := started[w].checks - {c}, consumers := started[w].consumers - 1)];
      var drain := started[w].consumers == 0 && !started[w].settled;
      if drain { started := started[w := started[w].(cancelled := true)]; }
    }

    /** The check of one consumer. */
    method Check(w: nat, c: nat)
      requires Valid() && w < |started|
      modifies this`started
      ensures Valid()
      ensures started == old(started)[w := Checked(old(started)[w], c, givenUp)]
    {
      if c in givenUp && c in started[w].checks { Finish(w, c); }
    }

    method StartFlight(key: string, c: nat)
      requires Valid() && key !in flights
      modifies this`flights, this`started, this`joined
      ensures Valid() && flights == old(flights)[key := |old(started)|]
      ensures started == old(started) + [Entered(Flight(key, 0, false, false, {}), c)] && joined == old(joined) + [{c}]
    {
      hide FlightOk;
      NewIsOk(key, givenUp, c);
      var flight := Flight(key, 0, false, false, {});
      flights := flights[key := |started|];
      flight := flight.(consumers := flight.consumers + 1, checks := flight.checks + {c});
      started, joined := started + [flight], joined + [{c}];
    }

    method JoinFlight(w: nat, c: nat)
      requires Valid() && w < |started| && !started[w].cancelled && !started[w].settled && c !in joined[w]
      modifies this`started, this`joined
      ensures Valid() && started == old(started)[w := Entered(old(started)[w], c)]
      ensures joined == old(joined)[w := old(joined)[w] + {c}]
    {
      hide FlightOk;
      JoinedIsOk(started[w], joined[w], givenUp, c);
      started := started[w := started[w].(consumers := started[w].consumers + 1, checks := started[w].checks + {c})];
      joined := joined[w := joined[w] + {c}];
    }

    /** A call joins the flight of its key, starts one when there is none, or waits when that flight is cancelled. */
    method Ask(key: string, c: nat) returns (entry: Entry)
      requires Valid() && forall w | 0 <= w < |started| :: c !in joined[w]
      modifies this`flights, this`started, this`joined
      ensures Valid()
      ensures entry.Retry? <==> key in old(flights) && old(started)[old(flights)[key]].cancelled
      ensures entry.Retry? ==> started == old(started) && flights == old(flights) && entry.flight == flights[key]
      ensures entry.Attached? ==> flights == old(flights)[key := entry.flight]
      ensures entry.Attached? && key in old(flights) ==>
                var w := entry.flight;
                w == old(flights)[key] && started == old(started)[w := Checked(Entered(old(started)[w], c), c, givenUp)]
      ensures entry.Attached? && key !in old(flights) ==>
                && entry.flight == |old(started)|
                && started == old(started) + [Checked(Entered(Flight(key, 0, false, false, {}), c), c, givenUp)]
    {
      hide FlightOk, Entered, Checked;
      var w := |started|;
      if key in flights {
        w := flights[key];
        if started[w].cancelled { return Retry(w); }
        JoinFlight(w, c);
      } else {
        StartFlight(key, c);
      }
      Check(w, c);
      entry := Attached(w);
    }

    /** The check that the flight itself is given: it asks every consumer, and is told to stop exactly when all who are still
        attached have given up. Then everybody who ever joined has. */
    method IsCancelled(w: nat) returns (stop: bool)
      requires Valid() && w < |started| && !started[w].settled
      modifies this`started
      ensures Valid() && |started| == |old(started)|
      ensures (forall v | 0 <= v < |started| && v != w :: started[v] == old(started)[v])
      ensures started[w].checks == old(started)[w].checks - givenUp
      ensures stop <==> old(started)[w].checks <= givenUp
      ensures stop ==> joined[w] <= givenUp && started[w].checks == {} && started[w].cancelled
    {
      hide FlightOk;
      var left := started[w].checks;
      while left != {}
        invariant Valid() && |started| == |old(started)| && !started[w].settled && left <= old(started)[w].checks
        invariant forall v | 0 <= v < |started| && v != w :: started[v] == old(started)[v]
        invariant started[w].checks == old(started)[w].checks - (givenUp - left)
        decreases |left|
      {
        var c :| c in left;
        Check(w, c);
        left := left - {c};
      }
      CancelledMeans(started[w], joined[w], givenUp);
      stop := started[w].cancelled;
    }

    /** A flight ends. It removes its own entry from the map, and no other. */
    method Settle(w: nat)
      requires Valid() && w < |started| && !started[w].settled
      modifies this`flights, this`started
      ensures Valid() && started == old(started)[w := old(started)[w].(settled := true)]
      ensures forall key :: key in flights <==> key in old(flights) && old(flights)[key] != w
      ensures forall key | key in flights :: flights[key] == old(flights)[key]
    {
      var key := started[w].key;
      started := started[w := started[w].(settled := true)];
      if key in flights && flights[key] == w { flights := flights - {key}; }
    }

    /** The outcome of a settled flight reaches a consumer. The flight is not cancelled any more by that. */
    method Deliver(w: nat, c: nat) returns (answered: bool)
      requires Valid() && w < |started| && started[w].settled && c in started[w].checks
      modifies this`started
      ensures Valid() && answered == (c !in givenUp) && started == old(started)[w := Left(old(started)[w], c)]
      ensures !started[w].cancelled
    {
      answered := c !in givenUp;
      LeftIsOk(started[w], joined[w], givenUp, c);
      Check(w, c);
      if c in started[w].checks { Finish(w, c); }
    }
  }
}
