/** Hashing the first bytes of a history file, checking them against an expected identity while they stream by, and the
    cache of digests that stands in for reading the file again. SHA-256 is a parameter: nothing is asked of it. */
module PrefixDigest {
  import opened Basics
  import opened Lines

  const CACHE_LIMIT: nat := 256
  const ANCHOR_BYTES: nat := 8192

  type Hash = seq<Byte> -> string

  /** What a caller expects of a prefix. */
  datatype Identity = Identity(header: string, anchorStart: int, anchor: string, unterminatedLeaf: Option<bool>)

  datatype Mismatch = BadAnchor | LengthChanged | HeaderChanged | BoundaryChanged

  datatype Outcome = Digest(sha: string) | Rejected(mismatch: Mismatch) | Shortened

  // ---- What the check means, on the whole prefix at once ----------------------------------------------

  function Header(prefix: seq<Byte>): seq<Byte> {
    prefix[..NextLf(prefix, 0)]
  }

  predicate AnchorFits(identity: Identity, endByte: nat) {
    0 <= identity.anchorStart <= endByte
  }

  predicate MayEndOpen(identity: Identity) {
    identity.unterminatedLeaf == Some(true)
  }

  function LastByte(s: seq<Byte>): Option<Byte> {
    if s == [] then None else Some(s[|s| - 1])
  }

  function Check(hash: Hash, prefix: seq<Byte>, endByte: nat, identity: Identity): Option<Mismatch> {
    if !AnchorFits(identity, endByte) then Some(BadAnchor)
    else if |prefix| != endByte then Some(LengthChanged)
    else if endByte > 0 && hash(Header(prefix)) != identity.header then Some(HeaderChanged)
    else if hash(prefix[identity.anchorStart..]) != identity.anchor then Some(BoundaryChanged)
    else if endByte > 0 && !MayEndOpen(identity) && LastByte(prefix) != Some(LF) then Some(BoundaryChanged)
    else None
  }

  ghost predicate Injective(hash: Hash) {
    forall a, b :: hash(a) == hash(b) ==> a == b
  }

  /** Under a hash without collisions, the check of an identity that was taken from some bytes compares lengths, first lines,
      and everything from the anchor on, in this order, and then asks for a line end unless the identity does without. */
  lemma CheckComparesBytes(hash: Hash, taken: seq<Byte>, prefix: seq<Byte>, start: nat, open: Option<bool>)
    requires Injective(hash) && start <= |taken|
    ensures var identity := Identity(hash(Header(taken)), start, hash(taken[start..]), open);
            Check(hash, prefix, |taken|, identity)
            == if |prefix| != |taken| then Some(LengthChanged)
               else if taken != [] && prefix[..NextLf(prefix, 0)] != taken[..NextLf(taken, 0)] then Some(HeaderChanged)
               else if prefix[start..] != taken[start..] then Some(BoundaryChanged)
               else if taken != [] && open != Some(true) && prefix[|prefix| - 1] != LF then Some(BoundaryChanged)
               else None
    ensures start == 0 && Check(hash, prefix, |taken|, Identity(hash(Header(taken)), start, hash(taken[start..]), open)) == None ==>
              prefix == taken
  {
    hide NextLf;
    assert taken[0..] == taken && prefix[0..] == prefix;
  }

  function UpTo(file: seq<Byte>, endByte: nat): seq<Byte> {
    if |file| < endByte then file else file[..endByte]
  }

  /** The answer that a file deserves, without any cache. */
  function Deserved(hash: Hash, file: seq<Byte>, endByte: nat, identity: Option<Identity>): Outcome {
    if identity.Some? && !AnchorFits(identity.value, endByte) then Rejected(BadAnchor)
    else if |file| < endByte then Shortened
    else if identity.Some? && Check(hash, file[..endByte], endByte, identity.value).Some? then
      Rejected(Check(hash, file[..endByte], endByte, identity.value).value)
    else Digest(hash(file[..endByte]))
  }

  /** What a file deserves, compared with the bytes an identity was taken from. */
  lemma DeservedComparesBytes(hash: Hash, taken: seq<Byte>, file: seq<Byte>, start: nat, open: Option<bool>)
    requires Injective(hash) && start <= |taken|
    ensures Deserved(hash, file, |taken|, Some(Identity(hash(Header(taken)), start, hash(taken[start..]), open)))
            == if |file| < |taken| then Shortened
               else
                 var prefix := file[..|taken|];
                 if taken != [] && prefix[..NextLf(prefix, 0)] != taken[..NextLf(taken, 0)] then Rejected(HeaderChanged)
                 else if prefix[start..] != taken[start..] then Rejected(BoundaryChanged)
                 else if taken != [] && open != Some(true) && file[|taken| - 1] != LF then Rejected(BoundaryChanged)
                 else Digest(hash(prefix))
    ensures Deserved(hash, file, |taken|, None) == if |file| < |taken| then Shortened else Digest(hash(file[..|taken|]))
  {
    hide NextLf, Check, Header;
    if |taken| <= |file| { CheckComparesBytes(hash, taken, file[..|taken|], start, open); }
  }

  // ---- The streaming forms ---------------------------------------------------------------------------

  /** The input that a header hash has taken in after `seen`, whether complete or not. */
  lemma HeaderGrows(seen: seq<Byte>, raw: seq<Byte>)
    ensures Header(seen + raw) == if NextLf(seen, 0) < |seen| then Header(seen) else Header(seen) + raw[..NextLf(raw, 0)]
    ensures NextLf(seen + raw, 0) < |seen + raw| <==> NextLf(seen, 0) < |seen| || NextLf(raw, 0) < |raw|
  {
    hide NextLf;
    var n := NextLf(seen, 0);
    if n < |seen| {
      FirstLf(seen + raw, n);
      assert (seen + raw)[..n] == seen[..n];
    } else {
      var m := NextLf(raw, 0);
      assert forall k | n <= k < n + m :: (seen + raw)[k] == raw[k - n];
      if m < |raw| {
        assert (seen + raw)[n + m] == raw[m];
      }
      FirstLf(seen + raw, n + m);
      assert (seen + raw)[..n + m] == seen + raw[..m];
    }
  }

  lemma LastByteOf(seen: seq<Byte>, raw: seq<Byte>)
    requires raw != []
    ensures LastByte(seen + raw) == LastByte(raw)
  {
  }

  lemma FirstLf(s: seq<Byte>, n: nat)
    requires n <= |s| && NoLf(s, 0, n) && (n < |s| ==> s[n] == LF)
    ensures NextLf(s, 0) == n
  {
  }

  method IndexOfLf(raw: seq<Byte>) returns (i: nat)
    ensures i == NextLf(raw, 0)
  {
    i := 0;
    while i < |raw| && raw[i] != LF
      invariant i <= |raw| && NoLf(raw, 0, i)
    {
      i := i + 1;
    }
    FirstLf(raw, i);
  }

  /** `CodexPrefixIdentityVerifier`. A hash object is represented by the bytes it has taken in. */
  class Verifier {
    const hash: Hash
    const endByte: nat
    const expected: Identity
    var headerInput: seq<Byte>
    var anchorInput: seq<Byte>
    var headerComplete: bool
    var position: nat
    var lastByte: Option<Byte>

    /** The verifier has been fed `seen`, in whatever non-empty pieces. */
    ghost predicate Saw(seen: seq<Byte>)
      reads this
    {
      && AnchorFits(expected, endByte)
      && headerInput == Header(seen) && headerComplete == (NextLf(seen, 0) < |seen|)
      && anchorInput == (if expected.anchorStart <= |seen| then seen[expected.anchorStart..] else [])
      && position == |seen| && lastByte == LastByte(seen)
    }

    constructor (hash: Hash, endByte: nat, expected: Identity)
      requires AnchorFits(expected, endByte)
      ensures Saw([]) && this.hash == hash && this.endByte == endByte && this.expected == expected
    {
      this.hash, this.endByte, this.expected := hash, endByte, expected;
      headerInput, anchorInput, headerComplete, position, lastByte := [], [], false, 0, None;
    }

    method Update(raw: seq<Byte>, ghost seen: seq<Byte>)
      requires Saw(seen) && raw != []
      modifies this
      ensures Saw(seen + raw)
    {
      hide Header, LastByte;
      HeaderGrows(seen, raw);
      LastByteOf(seen, raw);
      if !headerComplete {
        var newline := IndexOfLf(raw);
        headerInput := headerInput + raw[..newline];
        headerComplete := newline < |raw|;
      }
      if position + |raw| > expected.anchorStart {
        AnchorGrows(seen, raw, expected.anchorStart);
        anchorInput := anchorInput + raw[if expected.anchorStart > position then expected.anchorStart - position else 0..];
      }
      position := position + |raw|;
      lastByte := LastByte(raw);
    }

    method Finish(ghost seen: seq<Byte>) returns (mismatch: Option<Mismatch>)
      requires Saw(seen)
      ensures mismatch == Check(hash, seen, endByte, expected)
    {
      if position != endByte { return Some(LengthChanged); }
      if endByte > 0 && hash(headerInput) != expected.header { return Some(HeaderChanged); }
      if hash(anchorInput) != expected.anchor || (endByte > 0 && !MayEndOpen(expected) && lastByte != Some(LF)) {
        return Some(BoundaryChanged);
      }
      return None;
    }
  }

  lemma AnchorGrows(seen: seq<Byte>, raw: seq<Byte>, start: int)
    requires 0 <= start < |seen| + |raw|
    ensures (seen + raw)[start..]
            == (if start <= |seen| then seen[start..] else []) + raw[if start > |seen| then start - |seen| else 0..]
  {
  }

  function AnchorFrom(length: nat): nat {
    if length >= ANCHOR_BYTES then length - ANCHOR_BYTES else 0
  }

  function Newest<T>(s: seq<T>, n: nat): seq<T> {
    if |s| > n then s[|s| - n..] else s
  }

  lemma NewestGrows(seen: seq<Byte>, raw: seq<Byte>)
    ensures Newest(seen + raw, ANCHOR_BYTES)
            == if |raw| >= ANCHOR_BYTES then Newest(raw, ANCHOR_BYTES)
               else Newest(Newest(seen, ANCHOR_BYTES) + raw, ANCHOR_BYTES)
  {
  }

  /** A digest of a prefix, with enough beside it to answer most later checks of the same bytes. */
  datatype Verified = Verified(physical: string, sha: string, header: string, anchorStart: nat, anchor: string,
                               lastByte: Option<Byte>, checked: Option<Identity>)

  /** The digest tells the truth about the prefix, and an identity is on it only if the prefix passed its check. */
  ghost predicate Truthful(hash: Hash, d: Verified, prefix: seq<Byte>) {
    && d.sha == hash(prefix) && d.header == hash(Header(prefix))
    && d.anchorStart == AnchorFrom(|prefix|) && d.anchor == hash(prefix[d.anchorStart..])
    && d.lastByte == LastByte(prefix)
    && (d.checked.Some? ==> Check(hash, prefix, |prefix|, d.checked.value) == None)
  }

  /** `prefixDigestCollector`. */
  class Collector {
    const hash: Hash
    const endByte: nat
    var input: seq<Byte>
    var headerInput: seq<Byte>
    var headerComplete: bool
    var tail: seq<Byte>
    var lastByte: Option<Byte>

    ghost predicate Saw(seen: seq<Byte>)
      reads this
    {
      && input == seen && headerInput == Header(seen) && headerComplete == (NextLf(seen, 0) < |seen|)
      && tail == Newest(seen, ANCHOR_BYTES) && lastByte == LastByte(seen)
    }

    constructor (hash: Hash, endByte: nat)
      ensures Saw([]) && this.hash == hash && this.endByte == endByte
    {
      this.hash, this.endByte := hash, endByte;
      input, headerInput, headerComplete, tail, lastByte := [], [], false, [], None;
    }

    method Update(raw: seq<Byte>, ghost seen: seq<Byte>)
      requires Saw(seen) && raw != []
      modifies this
      ensures Saw(seen + raw)
    {
      hide Header, Newest, LastByte;
      HeaderGrows(seen, raw);
      NewestGrows(seen, raw);
      LastByteOf(seen, raw);
      input := input + raw;
      if !headerComplete {
        var newline := IndexOfLf(raw);
        headerInput := headerInput + raw[..newline];
        headerComplete := newline < |raw|;
      }
      tail := if |raw| >= ANCHOR_BYTES then Newest(raw, ANCHOR_BYTES) else Newest(tail + raw, ANCHOR_BYTES);
      lastByte := LastByte(raw);
    }

    /** Whatever the pieces were, the tail is the bytes from the anchor start to the end. */
    method Finish(physical: string, identity: Option<Identity>, ghost seen: seq<Byte>) returns (d: Verified)
      requires Saw(seen) && |seen| == endByte
      requires identity.Some? ==> Check(hash, seen, endByte, identity.value) == None
      ensures Truthful(hash, d, seen) && d.physical == physical && d.checked == identity
    {
      d := Verified(physical, hash(input), hash(headerInput), AnchorFrom(endByte), hash(tail), lastByte, identity);
      assert tail == seen[AnchorFrom(endByte)..];
    }
  }

  // ---- The cache -------------------------------------------------------------------------------------

  datatype Key = Key(path: string, endByte: nat)

  datatype Entry = Entry(key: Key, digest: Verified)

  predicate Distinct(entries: seq<Entry>) {
    forall i, j | 0 <= i < j < |entries| :: entries[i].key != entries[j].key
  }

  /** Whether a digest can answer a check without the file: an anchor it knows, or the very identity it was made under. */
  predicate Answers(d: Verified, endByte: nat, identity: Option<Identity>) {
    identity.None? || !AnchorFits(identity.value, endByte) || (endByte > 0 && d.header != identity.value.header)
    || identity.value.anchorStart == d.anchorStart || identity.value.anchorStart == 0 || d.checked == identity
  }

  /** The checks of `cachedPrefixDigest`, in their order. */
  function CachedCheck(d: Verified, endByte: nat, identity: Identity): Option<Mismatch> {
    var anchor := if identity.anchorStart == d.anchorStart then Some(d.anchor)
                  else if identity.anchorStart == 0 then Some(d.sha) else None;
    if !AnchorFits(identity, endByte) then Some(BadAnchor)
    else if endByte > 0 && d.header != identity.header then Some(HeaderChanged)
    else if (anchor.Some? && anchor.value != identity.anchor)
            || (endByte > 0 && !MayEndOpen(identity) && d.lastByte != Some(LF)) then Some(BoundaryChanged)
    else None
  }

  /** A truthful digest that can answer a check gives the answer of the full check: same acceptance, same error. */
  lemma CachedCheckIsFullCheck(hash: Hash, d: Verified, prefix: seq<Byte>, identity: Identity)
    requires Truthful(hash, d, prefix) && Answers(d, |prefix|, Some(identity))
    ensures CachedCheck(d, |prefix|, identity) == Check(hash, prefix, |prefix|, identity)
  {
    assert prefix[0..] == prefix;
  }

  function Without(entries: seq<Entry>, key: Key): (r: seq<Entry>)
    ensures forall e :: e in r <==> e in entries && e.key != key
    ensures |r| <= |entries|
  {
    if entries == [] then []
    else (if entries[0].key == key then [] else [entries[0]]) + Without(entries[1..], key)
  }

  lemma {:induction false} WithoutStaysDistinct(entries: seq<Entry>, key: Key)
    requires Distinct(entries)
    ensures Distinct(Without(entries, key))
  {
    if entries != [] {
      WithoutStaysDistinct(entries[1..], key);
      var rest := Without(entries[1..], key);
      assert forall e | e in rest :: e.key != entries[0].key;
      assert forall j | 0 <= j < |rest| :: rest[j] in rest;
    }
  }

  lemma DistinctSnoc(entries: seq<Entry>, entry: Entry)
    requires Distinct(entries) && forall e | e in entries :: e.key != entry.key
    ensures Distinct(entries + [entry])
  {
    assert forall j | 0 <= j < |entries| :: entries[j] in entries;
  }

  lemma NewestStaysDistinct(entries: seq<Entry>)
    requires Distinct(entries)
    ensures Distinct(Newest(entries, CACHE_LIMIT)) && forall e | e in Newest(entries, CACHE_LIMIT) :: e in entries
  {
  }

  /** Storing a digest under a key as the newest entry keeps the keys distinct and the size within the limit. */
  lemma StoredStaysDistinct(entries: seq<Entry>, entry: Entry)
    requires Distinct(entries)
    ensures Distinct(Newest(Without(entries, entry.key) + [entry], CACHE_LIMIT))
    ensures forall e | e in Newest(Without(entries, entry.key) + [entry], CACHE_LIMIT) :: e == entry || e in entries
  {
    hide Distinct, Newest;
    WithoutStaysDistinct(entries, entry.key);
    DistinctSnoc(Without(entries, entry.key), entry);
    NewestStaysDistinct(Without(entries, entry.key) + [entry]);
  }

  /** The module-level map of verified digests, oldest first. `disk` gives the bytes behind a physical identity: equal
      identities mean equal bytes. */
  class DigestCache {
    const hash: Hash
    const disk: string -> seq<Byte>
    var entries: seq<Entry>

    ghost predicate Sound(e: Entry) {
      var file := disk(e.digest.physical);
      e.key.endByte <= |file| && Truthful(hash, e.digest, file[..e.key.endByte])
    }

    ghost predicate Valid()
      reads this
    {
      Distinct(entries) && |entries| <= CACHE_LIMIT && forall e | e in entries :: Sound(e)
    }

    constructor (hash: Hash, disk: string -> seq<Byte>)
      ensures Valid() && entries == [] && this.hash == hash && this.disk == disk
    {
      this.hash, this.disk, entries := hash, disk, [];
    }

    /** Deleting the key and storing it again makes it the newest; the oldest ones give way. */
    method Remember(key: Key, digest: Verified)
      requires Valid() && Sound(Entry(key, digest))
      modifies this
      ensures Valid() && entries == Newest(Without(old(entries), key) + [Entry(key, digest)], CACHE_LIMIT)
      ensures forall e | e in entries :: e in old(entries) || e == Entry(key, digest)
      ensures entries != [] && entries[|entries| - 1] == Entry(key, digest)
    {
      StoredStaysDistinct(entries, Entry(key, digest));
      ghost var all := Without(entries, key) + [Entry(key, digest)];
      entries := Without(entries, key) + [Entry(key, digest)];
      while |entries| > CACHE_LIMIT
        invariant |entries| <= |all| && entries == all[|all| - |entries|..]
        invariant (|entries| < CACHE_LIMIT ==> entries == all)
      {
        entries := entries[1..];
      }
    }

    lemma SoundPrefix(key: Key, digest: Verified, read: seq<Byte>)
      requires |read| == key.endByte && Truthful(hash, digest, read)
      requires read == UpTo(disk(digest.physical), key.endByte)
      ensures Sound(Entry(key, digest))
    {
    }

    method Find(key: Key) returns (i: nat)
      ensures i <= |entries|
      ensures i < |entries| ==> entries[i].key == key
      ensures i == |entries| ==> forall e | e in entries :: e.key != key
    {
      i := 0;
      while i < |entries|
        invariant i <= |entries| && forall j | 0 <= j < i :: entries[j].key != key
      {
        if entries[i].key == key { return; }
        i := i + 1;
      }
    }

    /** `cachedPrefixDigest`: a hit, an error, or nothing. */
    method Cached(key: Key, physical: string, identity: Option<Identity>)
      returns (hit: Option<Verified>, mismatch: Option<Mismatch>)
      requires Valid()
      modifies this
      ensures Valid()
      ensures hit.Some? ==> mismatch.None? && Deserved(hash, disk(physical), key.endByte, identity) == Digest(hit.value.sha)
      ensures mismatch.Some? ==> Deserved(hash, disk(physical), key.endByte, identity) == Rejected(mismatch.value)
      ensures forall e | e in entries :: e in old(entries)
      ensures hit.Some? ==> entries != [] && entries[|entries| - 1] == Entry(key, hit.value)
      ensures hit.Some? ==> Entry(key, hit.value) in old(entries) && hit.value.physical == physical
      ensures hit.None? && mismatch.None? <==>
                !exists e :: e in old(entries) && e.key == key && e.digest.physical == physical && Answers(e.digest, key.endByte, identity)
      ensures (exists e :: e in old(entries) && e.key == key && e.digest.physical == physical
                           && (identity.None? || identity.value.anchorStart == e.digest.anchorStart
                               || identity.value.anchorStart == 0 || e.digest.checked == identity)) ==>
                hit.Some? || mismatch.Some?
      ensures entries == if hit.Some? then Newest(Without(old(entries), key) + [Entry(key, hit.value)], CACHE_LIMIT) else old(entries)
    {
      hit, mismatch := None, None;
      var i := Find(key);
      if i == |entries| { return; }
      var found := entries[i];
      assert found in entries && Sound(found);
      assert forall e | e in entries && e.key == key :: e == found;
      if found.digest.physical != physical { return; }
      if identity.Some? {
        mismatch := CachedCheck(found.digest, key.endByte, identity.value);
        if !Answers(found.digest, key.endByte, identity) { return None, None; }
        CachedCheckIsFullCheck(hash, found.digest, disk(physical)[..key.endByte], identity.value);
        if mismatch.Some? { return; }
      }
      Remember(key, found.digest);
      hit := Some(found.digest);
    }

    /** `hashCodexPrefix` without cancellation. `again` and `after` are the identities that the two later looks at the file
        give; `pieces` is what its reads return, and running out of pieces is a read of nothing. On a file that stays the
        same the answer is the one it deserves, from the cache or not, and only such a file enters the cache. */
    method HashPrefix(path: string, endByte: nat, identity: Option<Identity>,
                      before: string, again: string, pieces: seq<seq<Byte>>, after: string) returns (outcome: Outcome)
      requires Valid()
      requires forall piece | piece in pieces :: piece != []
      requires |Flatten(pieces)| <= endByte && (after == before ==> Flatten(pieces) == UpTo(disk(before), endByte))
      modifies this
      ensures Valid()
      ensures after == before ==> outcome == Deserved(hash, disk(before), endByte, identity)
      ensures after != before ==> outcome == Deserved(hash, Flatten(pieces), endByte, identity)
                                  || outcome == Deserved(hash, disk(before), endByte, identity)
      ensures after == before == again && outcome.Digest? ==> NewestIs(Key(path, endByte), before, outcome.sha)
      ensures forall e | e in entries :: e in old(entries) || (e.key == Key(path, endByte) && e.digest.physical == before == after)
    {
      hide Deserved, Truthful, Distinct, Answers, Check, Newest, Without, DigestCache.Valid, DigestCache.Sound, Flatten, UpTo;
      var key := Key(path, endByte);
      var hit, mismatch := Cached(key, before, identity);
      if mismatch.Some? { return Rejected(mismatch.value); }
      if hit.Some? && again == before { return Digest(hit.value.sha); }
      outcome := HashFile(key, identity, before, pieces, after);
    }

    ghost predicate NewestIs(key: Key, physical: string, sha: string)
      reads this
    {
      && entries != [] && entries[|entries| - 1].key == key
      && entries[|entries| - 1].digest.physical == physical && entries[|entries| - 1].digest.sha == sha
    }

    /** The part behind the cache: read the prefix, and remember its digest if the file is still the same. */
    method HashFile(key: Key, identity: Option<Identity>, before: string, pieces: seq<seq<Byte>>, after: string)
      returns (outcome: Outcome)
      requires Valid()
      requires forall piece | piece in pieces :: piece != []
      requires |Flatten(pieces)| <= key.endByte
      requires (after == before ==> Flatten(pieces) == UpTo(disk(before), key.endByte))
      modifies this
      ensures Valid() && outcome == Deserved(hash, Flatten(pieces), key.endByte, identity)
      ensures after == before ==> outcome == Deserved(hash, disk(before), key.endByte, identity)
      ensures after == before && outcome.Digest? ==> NewestIs(key, before, outcome.sha)
      ensures forall e | e in entries :: e in old(entries) || (e.key == key && e.digest.physical == before == after)
    {
      hide Deserved, Truthful, Distinct, Check, Newest, Without, DigestCache.Valid, DigestCache.Sound, Flatten, UpTo;
      if after == before { SamePrefix(hash, disk(before), Flatten(pieces), key.endByte, identity); }
      if identity.Some? && !AnchorFits(identity.value, key.endByte) {
        BadAnchorIsRefused(hash, Flatten(pieces), key.endByte, identity.value);
        return Rejected(BadAnchor);
      }
      var digest;
      outcome, digest := ReadPrefix(key.endByte, identity, before, pieces);
      if outcome.Digest? && after == before {
        SoundPrefix(key, digest, Flatten(pieces));
        Remember(key, digest);
      }
    }

    /** The reading loop, with verifier and collector side by side. */
    method ReadPrefix(endByte: nat, identity: Option<Identity>, physical: string, pieces: seq<seq<Byte>>)
      returns (outcome: Outcome, digest: Verified)
      requires forall piece | piece in pieces :: piece != []
      requires |Flatten(pieces)| <= endByte && (identity.Some? ==> AnchorFits(identity.value, endByte))
      ensures outcome == Deserved(hash, Flatten(pieces), endByte, identity)
      ensures outcome.Digest? ==> Truthful(hash, digest, Flatten(pieces)) && digest.physical == physical && outcome.sha == digest.sha
      ensures outcome.Digest? ==> |Flatten(pieces)| == endByte
    {
      var unread := Verified(physical, "", "", 0, "", None, None);
      var collector := new Collector(hash, endByte);
      var verifier := new Verifier(hash, endByte, if identity.Some? then identity.value else Identity("", 0, "", None));
      var position, i := 0, 0;
      while position < endByte
        invariant i <= |pieces| && position == |Flatten(pieces[..i])|
        invariant collector.Saw(Flatten(pieces[..i])) && (identity.Some? ==> verifier.Saw(Flatten(pieces[..i])))
        decreases |pieces| - i
      {
        if i == |pieces| {
          assert pieces[..i] == pieces;
          return Shortened, unread;
        }
        FlattenSnoc(pieces, i);
        assert pieces[i] in pieces;
        collector.Update(pieces[i], Flatten(pieces[..i]));
        if identity.Some? { verifier.Update(pieces[i], Flatten(pieces[..i])); }
        position := position + |pieces[i]|;
        i := i + 1;
      }
      AllRead(pieces, i);
      WholeFile(hash, Flatten(pieces), identity);
      if identity.Some? {
        var mismatch := verifier.Finish(Flatten(pieces));
        if mismatch.Some? { return Rejected(mismatch.value), unread; }
      }
      digest := collector.Finish(physical, identity, Flatten(pieces));
      outcome := Digest(digest.sha);
    }
  }

  /** The answer that a file deserves, up to its end. */
  lemma WholeFile(hash: Hash, file: seq<Byte>, identity: Option<Identity>)
    ensures Deserved(hash, file, |file|, identity)
            == if identity.Some? && Check(hash, file, |file|, identity.value).Some? then
                 Rejected(Check(hash, file, |file|, identity.value).value)
               else Digest(hash(file))
  {
    assert file[..|file|] == file;
  }

  lemma BadAnchorIsRefused(hash: Hash, file: seq<Byte>, endByte: nat, identity: Identity)
    requires !AnchorFits(identity, endByte)
    ensures Deserved(hash, file, endByte, Some(identity)) == Rejected(BadAnchor)
  {
  }

  /** A file and what its reads return up to the end byte deserve the same answer. */
  lemma SamePrefix(hash: Hash, file: seq<Byte>, read: seq<Byte>, endByte: nat, identity: Option<Identity>)
    requires read == UpTo(file, endByte)
    ensures Deserved(hash, read, endByte, identity) == Deserved(hash, file, endByte, identity)
  {
    assert |read| == endByte ==> read[..endByte] == file[..endByte];
  }

  lemma AllRead(pieces: seq<seq<Byte>>, i: nat)
    requires i <= |pieces| && |Flatten(pieces)| <= |Flatten(pieces[..i])|
    ensures Flatten(pieces) == Flatten(pieces[..i])
  {
    assert pieces == pieces[..i] + pieces[i..];
    FlattenAppend(pieces[..i], pieces[i..]);
  }
}
