/** The cache of frame layouts in front of the frame inspector. */
module FrameLayouts {
  import opened Basics
  import opened Lines
  import opened ZstdFrames

  const SOURCE_LIMIT: nat := 64
  const RECORD_LIMIT: nat := 4096

  /** The key of a layout: the physical identity of the file and the limits it was inspected under. */
  datatype Key = Key(physical: string, limits: Limits)

  datatype Entry = Entry(key: Key, layout: seq<FrameRecord>)

  function Total(entries: seq<Entry>): nat {
    if entries == [] then 0 else |entries[0].layout| + Total(entries[1..])
  }

  predicate Distinct(entries: seq<Entry>) {
    forall i, j | 0 <= i < j < |entries| :: entries[i].key != entries[j].key
  }

  predicate Holds(entries: seq<Entry>, key: Key) {
    exists i | 0 <= i < |entries| :: entries[i].key == key
  }

  /** The newest entries that leave room for one more layout of `count` records. */
  function Evicted(entries: seq<Entry>, count: nat): (kept: seq<Entry>)
    requires count <= RECORD_LIMIT
    ensures |kept| < SOURCE_LIMIT && Total(kept) + count <= RECORD_LIMIT
    ensures |kept| <= |entries| && kept == entries[|entries| - |kept|..]
  {
    if |entries| >= SOURCE_LIMIT || Total(entries) + count > RECORD_LIMIT then
      var kept := Evicted(entries[1..], count);
      DropOne(entries, |kept|);
      kept
    else entries
  }

  lemma DropOne(entries: seq<Entry>, k: nat)
    requires k < |entries|
    ensures entries[1..][|entries| - 1 - k..] == entries[|entries| - k..]
  {
  }

  /** Eviction stops as soon as the next layout fits. */
  lemma {:induction false} EvictionIsMinimal(entries: seq<Entry>, count: nat, k: nat)
    requires count <= RECORD_LIMIT && |Evicted(entries, count)| < k <= |entries|
    ensures k >= SOURCE_LIMIT || Total(entries[|entries| - k..]) + count > RECORD_LIMIT
    decreases |entries|
  {
    hide Total;
    if k < |entries| {
      DropOne(entries, k);
      EvictionIsMinimal(entries[1..], count, k);
    } else {
      assert entries[0..] == entries;
    }
  }

  lemma TotalHead(entries: seq<Entry>)
    requires entries != []
    ensures Total(entries) == |entries[0].layout| + Total(entries[1..])
  {
  }

  lemma NoneTotal()
    ensures Total([]) == 0
  {
  }

  lemma {:induction false} TotalSplit(a: seq<Entry>, b: seq<Entry>)
    ensures Total(a + b) == Total(a) + Total(b)
  {
    if a == [] {
      assert a + b == b;
    } else {
      assert (a + b)[1..] == a[1..] + b;
      TotalSplit(a[1..], b);
    }
  }

  /** The module-level `frameLayouts` map in insertion order, oldest first, with its record counter. `disk` gives the
      bytes behind a physical identity: equal identities mean equal bytes. */
  class LayoutCache {
    var entries: seq<Entry>
    var records: int
    const disk: string -> seq<Byte>

    ghost predicate Valid()
      reads this
    {
      && Distinct(entries) && |entries| <= SOURCE_LIMIT
      && records == Total(entries) <= RECORD_LIMIT
      && forall e | e in entries :: Inspected(disk(e.key.physical), e.key.limits) == Some(e.layout)
    }

    constructor (disk: string -> seq<Byte>)
      ensures Valid() && entries == [] && this.disk == disk
    {
      this.disk := disk;
      entries, records := [], 0;
    }

    /** `delete` of a key that is present. */
    method Delete(i: nat)
      requires i < |entries|
      modifies this`entries
      ensures entries == old(entries)[..i] + old(entries)[i + 1..]
    {
      entries := entries[..i] + entries[i + 1..];
    }

    method Find(key: Key) returns (i: nat)
      ensures i <= |entries|
      ensures i < |entries| ==> entries[i].key == key
      ensures i == |entries| ==> !Holds(entries, key)
    {
      i := 0;
      while i < |entries|
        invariant i <= |entries| && forall j | 0 <= j < i :: entries[j].key != key
      {
        if entries[i].key == key { return; }
        i := i + 1;
      }
    }

    /** Drops the oldest layouts until one more of `count` records fits. */
    method EvictFor(count: nat)
      requires records == Total(entries) && count <= RECORD_LIMIT
      modifies this`entries, this`records
      ensures entries == Evicted(old(entries), count) && records == Total(entries)
    {
      hide Total;
      ghost var before := entries;
      NoneTotal();
      while |entries| >= SOURCE_LIMIT || records + count > RECORD_LIMIT
        invariant records == Total(entries) && Evicted(entries, count) == Evicted(before, count)
        decreases |entries|
      {
        TotalHead(entries);
        records := records - |entries[0].layout|;
        entries := entries[1..];
      }
    }

    /** Makes room for a layout and stores it as the newest entry. */
    method Remember(key: Key, layout: seq<FrameRecord>)
      requires Valid() && !Holds(entries, key) && |layout| <= RECORD_LIMIT
      requires Inspected(disk(key.physical), key.limits) == Some(layout)
      modifies this`entries, this`records
      ensures Valid() && entries == Evicted(old(entries), |layout|) + [Entry(key, layout)]
    {
      hide Inspected, Accepts, Evicted, Total;
      StoredIsValid(entries, Evicted(entries, |layout|), Entry(key, layout));
      EvictFor(|layout|);
      entries := entries + [Entry(key, layout)];
      records := records + |layout|;
    }

    /** The frames of a file as its reader drains them: from the cache, freshly inspected and cached, or freshly inspected
        when there are too many to cache. `sameFile` says whether the identity was the same when it was read again. */
    method Frames(physical: string, limits: Limits, sameFile: bool) returns (result: Option<seq<FrameRecord>>)
      requires Valid()
      modifies this`entries, this`records
      ensures Valid()
      ensures result == if sameFile then Inspected(disk(physical), limits) else None
      ensures Holds(old(entries), Key(physical, limits)) ==>
                exists i :: 0 <= i < |old(entries)| && old(entries)[i].key == Key(physical, limits)
                            && entries == old(entries)[..i] + old(entries)[i + 1..] + [old(entries)[i]]
      ensures !Holds(old(entries), Key(physical, limits)) ==>
                entries == if result.Some? && |result.value| <= RECORD_LIMIT
                           then Evicted(old(entries), |result.value|) + [Entry(Key(physical, limits), result.value)]
                           else old(entries)
    {
      var key := Key(physical, limits);
      var i := Find(key);
      if i < |entries| {
        var entry := entries[i];
        assert entry in entries;
        MovedToEnd(entries, i);
        Delete(i);
        entries := entries + [entry];
        return if sameFile then Some(entry.layout) else None;
      }
      var inspected, accepted := InspectFrames(disk(physical), limits);
      if !accepted || !sameFile { return None; }
      result := Some(inspected);
      if |inspected| <= RECORD_LIMIT {
        Remember(key, inspected);
      }
    }
  }

  /** A suffix with one new entry keeps the keys distinct and holds nothing else. */
  lemma StoredIsValid(before: seq<Entry>, kept: seq<Entry>, added: Entry)
    requires Distinct(before) && !Holds(before, added.key) && |kept| <= |before| && kept == before[|before| - |kept|..]
    ensures Distinct(kept + [added]) && Total(kept + [added]) == Total(kept) + |added.layout|
    ensures forall e | e in kept + [added] :: e in before || e == added
  {
    TotalSplit(kept, [added]);
    assert [added][1..] == [];
    assert forall i | 0 <= i < |kept| :: kept[i] == before[|before| - |kept| + i];
  }

  /** Moving an entry to the end keeps the keys distinct, the entries and the number of records. */
  lemma MovedToEnd(entries: seq<Entry>, i: nat)
    requires i < |entries| && Distinct(entries)
    ensures var moved := entries[..i] + entries[i + 1..] + [entries[i]];
            Distinct(moved) && Total(moved) == Total(entries) && forall e :: e in moved <==> e in entries
  {
    hide Distinct, Total;
    MovedStaysDistinct(entries, i);
    assert entries == entries[..i] + ([entries[i]] + entries[i + 1..]);
    TotalSplit(entries[..i], [entries[i]] + entries[i + 1..]);
    TotalSplit([entries[i]], entries[i + 1..]);
    TotalSplit(entries[..i] + entries[i + 1..], [entries[i]]);
    TotalSplit(entries[..i], entries[i + 1..]);
  }

  lemma MovedStaysDistinct(entries: seq<Entry>, i: nat)
    requires i < |entries| && Distinct(entries)
    ensures Distinct(entries[..i] + entries[i + 1..] + [entries[i]])
  {
    var moved := entries[..i] + entries[i + 1..] + [entries[i]];
    forall a, b | 0 <= a < b < |moved| ensures moved[a].key != moved[b].key {
      var a' := if a < i then a else a + 1;
      var b' := if b < i then b else if b == |entries| - 1 then i else b + 1;
      assert moved[a] == entries[a'] && moved[b] == entries[b'];
    }
  }
}
