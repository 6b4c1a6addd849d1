/** Work on one source that several callers wait for together. Each method is one uninterrupted step; the steps may come
    in any order, and callers may be cancelled, for good, at any time between them. */
module SourceWork {
  import opened Basics

  /** One call, which waits for one piece of work; `cancellable` tells whether it came with a cancellation check. */
  datatype Caller = Caller(id: nat, cancellable: bool)

  datatype Work = Work(key: string, waiters: set<Caller>, settled: bool)

  /** The registry by key, and every piece of work ever created, named by its index. */
  datatype State = State(active: map<string, nat>, works: seq<Work>, cancelled: set<Caller>)

  /** What the work is told when it asks: nobody waits, or everybody who waits is cancelled. */
  predicate Abandoned(work: Work, cancelled: set<Caller>) {
    work.waiters == {} || forall c | c in work.waiters :: c in cancelled
  }

  /** Somebody who is not cancelled still waits for work that goes on. */
  predicate Wanted(work: Work, cancelled: set<Caller>) {
    !work.settled && exists c :: c in work.waiters && c !in cancelled
  }

  /** The registry names unfinished work under its own key, and all wanted work is in it. */
  ghost predicate Consistent(s: State) {
    && (forall c | c in s.cancelled :: c.cancellable)
    && (forall key | key in s.active :: s.active[key] < |s.works| && s.works[s.active[key]].key == key && !s.works[s.active[key]].settled)
    && (forall w | 0 <= w < |s.works| && Wanted(s.works[w], s.cancelled) :: s.works[w].key in s.active && s.active[s.works[w].key] == w)
  }

  /** For one key there is never more than one piece of work that anybody still wants. */
  lemma WantedOnce(s: State, v: nat, w: nat)
    requires Consistent(s) && v < |s.works| && w < |s.works| && s.works[v].key == s.works[w].key
    requires Wanted(s.works[v], s.cancelled) && Wanted(s.works[w], s.cancelled)
    ensures v == w
  {
    assert s.active[s.works[v].key] == v;
  }

  /** Work once abandoned stays so, as long as nobody joins it: cancellation is for good, and leaving does not help. */
  lemma AbandonedStays(work: Work, cancelled: set<Caller>, waiters: set<Caller>, more: set<Caller>)
    requires Abandoned(work, cancelled) && waiters <= work.waiters
    ensures Abandoned(work.(waiters := waiters), cancelled + more)
  {
  }

  class SourceWork {
    var active: map<string, nat>
    var works: seq<Work>
    var cancelled: set<Caller>
    /** The works that have been told to stop. */
    ghost var told: set<nat>

    ghost function Now(): State
      reads this
    {
      State(active, works, cancelled)
    }

    /** Whoever was told to stop has nobody left who wants it, now and later. */
    ghost predicate Valid()
      reads this
    {
      Consistent(Now()) && forall w | w in told :: w < |works| && Abandoned(works[w], cancelled)
    }

    constructor ()
      ensures Valid() && active == map[] && works == []
    {
      active, works, cancelled, told := map[], [], {}, {};
    }

    /** The check of a caller starts to say yes. */
    method Cancel(c: Caller)
      requires Valid() && c.cancellable
      modifies this`cancelled
      ensures Valid() && cancelled == old(cancelled) + {c}
    {
      forall w | w in told
        ensures Abandoned(works[w], cancelled + {c})
      {
        AbandonedStays(works[w], cancelled, works[w].waiters, {c});
      }
      cancelled := cancelled + {c};
    }

    /** The first part of `runSharedCodexSourceWork`: a caller joins the active work, or starts new work when there is none
        or nobody wants it any more. It never joins work that was told to stop. */
    method Join(key: string, c: Caller) returns (joined: Option<nat>)
      requires Valid() && forall w | 0 <= w < |works| :: c !in works[w].waiters
      modifies this`active, this`works
      ensures Valid() && (joined.None? <==> c in cancelled)
      ensures joined.None? ==> active == old(active) && works == old(works)
      ensures joined.Some? ==>
                var w := joined.value;
                var shared := key in old(active) && Wanted(old(works)[old(active)[key]], cancelled);
                && w !in told && active == old(active)[key := w]
                && w == (if shared then old(active)[key] else |old(works)|)
                && works == (if shared then old(works)[w := old(works)[w].(waiters := old(works)[w].waiters + {c})]
                             else old(works) + [Work(key, {c}, false)])
    {
      if c in cancelled { return None; }
      var w: nat := 0;
      if key in active { w := active[key]; }
      if key !in active || Abandoned(works[w], cancelled) {
        w := |works|;
        works := works + [Work(key, {}, false)];
        active := active[key := w];
        assert works[w].waiters + {c} == {c};
      }
      works := works[w := works[w].(waiters := works[w].waiters + {c})];
      assert w == |old(works)| ==> works == old(works) + [Work(key, {c}, false)];
      joined := Some(w);
    }

    /** The check that the work is given. */
    method IsCancelled(w: nat) returns (stop: bool)
      requires Valid() && w < |works|
      modifies this`told
      ensures Valid() && stop == Abandoned(works[w], cancelled)
      ensures stop ==> w in told && !Wanted(works[w], cancelled)
    {
      stop := Abandoned(works[w], cancelled);
      if stop { told := told + {w}; }
    }

    /** The work ends. It removes its own entry from the registry, and no other. */
    method Settle(w: nat)
      requires Valid() && w < |works| && !works[w].settled
      modifies this`active, this`works
      ensures Valid() && works == old(works)[w := old(works)[w].(settled := true)]
      ensures forall key :: key in active <==> key in old(active) && old(active)[key] != w
      ensures forall key | key in active :: active[key] == old(active)[key]
    {
      var key := works[w].key;
      works := works[w := works[w].(settled := true)];
      if key in active && active[key] == w {
        active := active - {key};
      }
    }

    /** A caller gets its answer, or the news of its own cancellation, and leaves. */
    method Leave(w: nat, c: Caller) returns (answered: bool)
      requires Valid() && w < |works| && c in works[w].waiters && (works[w].settled || c in cancelled)
      modifies this`works
      ensures works == old(works)[w := old(works)[w].(waiters := old(works)[w].waiters - {c})]
      ensures Valid() && answered == (c !in cancelled) && (answered ==> works[w].settled)
    {
      answered := c !in cancelled;
      if w in told { AbandonedStays(works[w], cancelled, works[w].waiters - {c}, {}); }
      works := works[w := works[w].(waiters := works[w].waiters - {c})];
    }
  }
}
