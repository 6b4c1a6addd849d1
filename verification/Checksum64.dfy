/** The streaming checksum of `codex-history-archive.ts` against XXH64 with seed 0 from the xxHash specification. */
module Checksum64 {
  import opened Lines

  // 64-bit words wrap around, as the masked big integers of the program do.
  type Word = bv64

  // ---- XXH64, section "XXH64 algorithm description" of the xxHash specification -----------------------

  const PRIME64_1: Word := 0x9E3779B185EBCA87
  const PRIME64_2: Word := 0xC2B2AE3D27D4EB4F
  const PRIME64_3: Word := 0x165667B19E3779F9
  const PRIME64_4: Word := 0x85EBCA77C2B2AE63
  const PRIME64_5: Word := 0x27D4EB2F165667C5

  datatype Lanes = Lanes(a: Word, b: Word, c: Word, d: Word)

  const SEEDED: Lanes := Lanes(PRIME64_1 + PRIME64_2, PRIME64_2, 0, 0 - PRIME64_1)

  function Rotl(value: Word, bits: nat): Word
    requires 0 < bits < 64
  {
    (value << bits) | (value >> (64 - bits))
  }

  function Round(accumulator: Word, lane: Word): Word {
    Rotl(accumulator + lane * PRIME64_2, 31) * PRIME64_1
  }

  function Plus(a: Word, b: Word): Word { a + b }

  function Low32(a: Word): Word { a & 0xffff_ffff }

  function Prepend(low: Byte, high: Word): Word {
    (low as Word) | (high << 8)
  }

  /** The functions that read bytes and mix words into the state. What follows about cutting the input holds for any. */
  datatype Mixers = Mixers(prepend: (Byte, Word) -> Word, round: (Word, Word) -> Word, eight: (Word, Word) -> Word,
                           four: (Word, Word) -> Word, one: (Word, Byte) -> Word)

  const XXH: Mixers := Mixers(Prepend, Round, MixEight, MixFour, MixOne)

  /** The little-endian number of the `n` bytes at `at`. */
  function Read(m: Mixers, s: seq<Byte>, at: nat, n: nat): Word
    requires at + n <= |s| && n <= 8
    decreases n
  {
    if n == 0 then 0 else m.prepend(s[at], Read(m, s, at + 1, n - 1))
  }

  function Stripe(m: Mixers, lanes: Lanes, s: seq<Byte>, at: nat): Lanes
    requires at + 32 <= |s|
  {
    Lanes(m.round(lanes.a, Read(m, s, at, 8)), m.round(lanes.b, Read(m, s, at + 8, 8)),
          m.round(lanes.c, Read(m, s, at + 16, 8)), m.round(lanes.d, Read(m, s, at + 24, 8)))
  }

  /** Step 2: all full stripes of the input from `at` on. */
  function Stripes(m: Mixers, lanes: Lanes, s: seq<Byte>, at: nat): Lanes
    requires at <= |s|
    decreases |s| - at
  {
    if at + 32 > |s| then lanes else Stripes(m, Stripe(m, lanes, s, at), s, at + 32)
  }

  function MergeAccumulator(acc: Word, lane: Word): Word {
    (acc ^ Round(0, lane)) * PRIME64_1 + PRIME64_4
  }

  /** Step 3: convergence. */
  function Converge(lanes: Lanes): Word {
    var acc := Plus(Plus(Plus(Rotl(lanes.a, 1), Rotl(lanes.b, 7)), Rotl(lanes.c, 12)), Rotl(lanes.d, 18));
    MergeAccumulator(MergeAccumulator(MergeAccumulator(MergeAccumulator(acc, lanes.a), lanes.b), lanes.c), lanes.d)
  }

  function MixEight(acc: Word, lane: Word): Word {
    Rotl(acc ^ Round(0, lane), 27) * PRIME64_1 + PRIME64_4
  }

  function MixFour(acc: Word, lane: Word): Word {
    Rotl(acc ^ (lane * PRIME64_1), 23) * PRIME64_2 + PRIME64_3
  }

  function MixOne(acc: Word, lane: Byte): Word {
    Rotl(acc ^ ((lane as Word) * PRIME64_5), 11) * PRIME64_1
  }

  /** Step 5: the bytes behind the last full stripe, in eights, then one four, then single bytes. */
  function Remaining(m: Mixers, acc: Word, s: seq<Byte>, at: nat): Word
    requires at <= |s|
    decreases |s| - at
  {
    if at + 8 <= |s| then Remaining(m, m.eight(acc, Read(m, s, at, 8)), s, at + 8)
    else if at + 4 <= |s| then Remaining(m, m.four(acc, Read(m, s, at, 4)), s, at + 4)
    else if at < |s| then Remaining(m, m.one(acc, s[at]), s, at + 1)
    else acc
  }

  /** Step 6: final mix. */
  function Avalanche(acc: Word): Word {
    var x := (acc ^ (acc >> 33)) * PRIME64_2;
    var y := (x ^ (x >> 29)) * PRIME64_3;
    y ^ (y >> 32)
  }

  /** The input length enters as a 64-bit word. */
  function LengthWord(length: nat): Word {
    (length % 0x1_0000_0000_0000_0000) as Word
  }

  /** The length of the whole stripes of an input. */
  function FullLength(s: seq<Byte>): (n: nat)
    ensures n <= |s|
  {
    |s| - |s| % 32
  }

  /** XXH64 with seed 0 over a whole input. */
  function Xxh64(s: seq<Byte>): Word {
    var acc := if |s| >= 32 then Converge(Stripes(XXH, SEEDED, s, 0)) else PRIME64_5;
    Avalanche(Remaining(XXH, Plus(acc, LengthWord(|s|)), s, FullLength(s)))
  }

  // ---- Cutting the input -----------------------------------------------------------------------------

  lemma {:induction false} ReadShift(m: Mixers, s: seq<Byte>, t: seq<Byte>, at: nat, shift: nat, n: nat)
    requires at + n <= |t| && shift + |t| <= |s| && n <= 8 && t == s[shift..shift + |t|]
    ensures Read(m, s, shift + at, n) == Read(m, t, at, n)
    decreases n
  {
    if n > 0 {
      assert t[at] == s[shift + at];
      ReadShift(m, s, t, at + 1, shift, n - 1);
    }
  }

  lemma StripeShift(m: Mixers, lanes: Lanes, s: seq<Byte>, t: seq<Byte>, at: nat, shift: nat)
    requires at + 32 <= |t| && shift + |t| <= |s| && t == s[shift..shift + |t|]
    ensures Stripe(m, lanes, s, shift + at) == Stripe(m, lanes, t, at)
  {
    hide Read;
    ReadShift(m, s, t, at, shift, 8);
    ReadShift(m, s, t, at + 8, shift, 8);
    ReadShift(m, s, t, at + 16, shift, 8);
    ReadShift(m, s, t, at + 24, shift, 8);
  }

  lemma {:induction false} RemainingShift(m: Mixers, acc: Word, s: seq<Byte>, t: seq<Byte>, at: nat, shift: nat)
    requires at <= |t| && shift + |t| == |s| && t == s[shift..]
    ensures Remaining(m, acc, s, shift + at) == Remaining(m, acc, t, at)
    decreases |t| - at
  {
    hide Read;
    assert t == s[shift..shift + |t|];
    if at + 8 <= |t| {
      ReadShift(m, s, t, at, shift, 8);
      RemainingShift(m, m.eight(acc, Read(m, t, at, 8)), s, t, at + 8, shift);
    } else if at + 4 <= |t| {
      ReadShift(m, s, t, at, shift, 4);
      RemainingShift(m, m.four(acc, Read(m, t, at, 4)), s, t, at + 4, shift);
    } else if at < |t| {
      RemainingShift(m, m.one(acc, t[at]), s, t, at + 1, shift);
    }
  }

  /** The stripes of a whole input are the stripes of a prefix and then those behind it. */
  lemma {:induction false} StripesSplit(m: Mixers, lanes: Lanes, s: seq<Byte>, at: nat, k: nat)
    requires at <= k <= |s| && (k - at) % 32 == 0
    ensures Stripes(m, lanes, s, at) == Stripes(m, Stripes(m, lanes, s[..k], at), s, k)
    decreases k - at
  {
    hide Stripe;
    if at < k {
      assert s[..k] == s[0..0 + |s[..k]|];
      StripeShift(m, lanes, s, s[..k], at, 0);
      StripesSplit(m, Stripe(m, lanes, s, at), s, at + 32, k);
    }
  }

  // ---- The program's class -----------------------------------------------------------------------------

  /** The program's constants, as it writes them, are the primes of the specification. */
  const PRIMES: seq<Word> := [11400714785074694791, 14029467366897019727, 1609587929392839161, 9650029242287828579, 2870177450012600261]

  lemma SamePrimes()
    ensures PRIMES == [PRIME64_1, PRIME64_2, PRIME64_3, PRIME64_4, PRIME64_5]
  {
  }

  function AsLanes(lanes: seq<Word>): Lanes
    requires |lanes| == 4
  {
    Lanes(lanes[0], lanes[1], lanes[2], lanes[3])
  }

  lemma NothingBehindLastStripe(m: Mixers, lanes: Lanes, s: seq<Byte>)
    ensures Stripes(m, lanes, s, 0) == Stripes(m, lanes, s[..FullLength(s)], 0)
  {
    hide Stripe;
    StripesSplit(m, lanes, s, 0, FullLength(s));
  }

  /** The lanes of a longer input go on from the lanes of a shorter one, at its last full stripe. */
  lemma StripesResume(m: Mixers, s: seq<Byte>, more: seq<Byte>)
    ensures Stripes(m, SEEDED, s + more, 0) == Stripes(m, Stripes(m, SEEDED, s, 0), s + more, FullLength(s))
    ensures FullLength(s) % 32 == 0 && FullLength(s) <= |s|
    ensures (s + more)[FullLength(s)..] == s[FullLength(s)..] + more
  {
    hide Stripe, Stripes;
    var k := FullLength(s);
    assert (s + more)[..k] == s[..k];
    NothingBehindLastStripe(m, SEEDED, s);
    StripesSplit(m, SEEDED, s + more, 0, k);
  }

  lemma StripesStep(m: Mixers, lanes: Lanes, s: seq<Byte>, at: nat)
    requires at + 32 <= |s|
    ensures Stripes(m, lanes, s, at) == Stripes(m, Stripe(m, lanes, s, at), s, at + 32)
  {
    hide Stripe;
  }

  lemma LastStripe(m: Mixers, lanes: Lanes, whole: seq<Byte>, base: nat, position: nat, input: seq<Byte>)
    requires base + |input| == |whole| && input == whole[base..] && base % 32 == 0 && position % 32 == 0
    requires position <= |input| < position + 32
    ensures Stripes(m, lanes, whole, base + position) == lanes
    ensures FullLength(whole) == base + position && input[position..] == whole[FullLength(whole)..]
    ensures |input[position..]| == |whole| % 32
  {
    hide Stripe;
  }

  class Checksum {
    var lanes: seq<Word>
    var tail: seq<Byte>
    var length: nat
    ghost var seen: seq<Byte>

    ghost predicate Valid()
      reads this
    {
      && |lanes| == 4 && AsLanes(lanes) == Stripes(XXH, SEEDED, seen, 0)
      && tail == seen[FullLength(seen)..] && length == |seen| && |tail| == length % 32
    }

    constructor ()
      ensures Valid() && seen == []
    {
      lanes := [PRIMES[0] + PRIMES[1], PRIMES[1], 0, 0 - PRIMES[0]];
      tail, length, seen := [], 0, [];
      new;
      SamePrimes();
    }

    /** One stripe of the input: each lane takes its eight bytes. */
    method AddStripe(input: seq<Byte>, position: nat)
      requires |lanes| == 4 && position + 32 <= |input|
      modifies this`lanes
      ensures |lanes| == 4 && AsLanes(lanes) == Stripe(XXH, AsLanes(old(lanes)), input, position)
    {
      hide Round, Read;
      ghost var before := lanes;
      for lane := 0 to 4
        invariant |lanes| == 4
        invariant forall j | lane <= j < 4 :: lanes[j] == before[j]
        invariant forall j | 0 <= j < lane :: lanes[j] == Round(before[j], Read(XXH, input, position + j * 8, 8))
      {
        lanes := lanes[lane := Round(lanes[lane], Read(XXH, input, position + lane * 8, 8))];
      }
    }

    method Update(value: seq<Byte>)
      requires Valid()
      modifies this
      ensures Valid() && seen == old(seen) + value
    {
      hide Stripe, Stripes, SEEDED, FullLength, AsLanes;
      ghost var whole := seen + value;
      ghost var base := FullLength(seen);
      StripesResume(XXH, seen, value);
      length := length + |value|;
      var input := tail + value;
      var position := 0;
      while position + 32 <= |input|
        invariant position % 32 == 0 && 0 <= position <= |input| && |lanes| == 4
        invariant Stripes(XXH, AsLanes(lanes), whole, base + position) == Stripes(XXH, SEEDED, whole, 0)
        modifies this`lanes
      {
        StripeShift(XXH, AsLanes(lanes), whole, input, position, base);
        StripesStep(XXH, AsLanes(lanes), whole, base + position);
        AddStripe(input, position);
        position := position + 32;
      }
      tail := input[position..];
      seen := whole;
      LastStripe(XXH, AsLanes(lanes), whole, base, position, input);
    }

    /** The bytes behind the last full stripe: eights, then one four, then single bytes. */
    method FinishTail(start: Word) returns (acc: Word)
      ensures acc == Remaining(XXH, start, tail, 0)
    {
      hide Read, MixEight, MixFour, MixOne;
      acc := start;
      var position := 0;
      while position + 8 <= |tail|
        invariant 0 <= position <= |tail| && Remaining(XXH, acc, tail, position) == Remaining(XXH, start, tail, 0)
      {
        acc := MixEight(acc, Read(XXH, tail, position, 8));
        position := position + 8;
      }
      if position + 4 <= |tail| {
        acc := MixFour(acc, Read(XXH, tail, position, 4));
        position := position + 4;
      }
      while position < |tail|
        invariant 0 <= position <= |tail| < position + 4 && Remaining(XXH, acc, tail, position) == Remaining(XXH, start, tail, 0)
      {
        acc := MixOne(acc, tail[position]);
        position := position + 1;
      }
    }

    method SumRotations() returns (acc: Word)
      requires |lanes| == 4
      ensures acc == Folded(Plus, 0, Rotated(lanes), 4)
    {
      hide Rotl, Plus;
      acc := 0;
      var bits := [1, 7, 12, 18];
      for lane := 0 to 4
        invariant acc == Folded(Plus, 0, Rotated(lanes), lane)
      {
        acc := Plus(acc, Rotl(lanes[lane], bits[lane]));
      }
    }

    method Digest() returns (result: Word)
      requires Valid()
      ensures result == Low32(Xxh64(seen))
    {
      hide Stripe, Stripes, SEEDED, Avalanche, Remaining, LengthWord, Plus, Low32, Rotl, MergeAccumulator, Folded;
      var acc: Word := PRIME64_5;
      if length >= 32 {
        var sum := SumRotations();
        acc := ConvergeLoop(sum);
        FoldedFour(Plus, 0, Rotated(lanes));
        FoldedFour(MergeAccumulator, sum, lanes);
        ZeroPlus(Rotl(lanes[0], 1));
      }
      acc := Plus(acc, LengthWord(length));
      RemainingShift(XXH, acc, seen, tail, 0, FullLength(seen));
      acc := FinishTail(acc);
      result := Low32(Avalanche(acc));
    }

    /** The lanes are merged in order. */
    method ConvergeLoop(sum: Word) returns (acc: Word)
      requires |lanes| == 4
      ensures acc == Folded(MergeAccumulator, sum, lanes, 4)
    {
      hide MergeAccumulator;
      acc := sum;
      for lane := 0 to 4
        invariant acc == Folded(MergeAccumulator, sum, lanes, lane)
      {
        acc := MergeAccumulator(acc, lanes[lane]);
      }
    }
  }

  function Folded<A, B>(f: (A, B) -> A, start: A, xs: seq<B>, n: nat): A
    requires n <= |xs|
  {
    if n == 0 then start else f(Folded(f, start, xs, n - 1), xs[n - 1])
  }

  function Rotated(lanes: seq<Word>): (r: seq<Word>)
    requires |lanes| == 4
    ensures |r| == 4
  {
    [Rotl(lanes[0], 1), Rotl(lanes[1], 7), Rotl(lanes[2], 12), Rotl(lanes[3], 18)]
  }

  /** A loop over four lanes is four nested calls. */
  lemma FoldedFour<A, B>(f: (A, B) -> A, start: A, xs: seq<B>)
    requires |xs| == 4
    ensures Folded(f, start, xs, 4) == f(f(f(f(start, xs[0]), xs[1]), xs[2]), xs[3])
  {
    assert Folded(f, start, xs, 1) == f(start, xs[0]);
    assert Folded(f, start, xs, 2) == f(Folded(f, start, xs, 1), xs[1]);
    assert Folded(f, start, xs, 3) == f(Folded(f, start, xs, 2), xs[2]);
  }

  lemma ZeroPlus(a: Word)
    ensures Plus(0, a) == a
  {
  }

  lemma NothingFlattened<T>()
    ensures Flatten<T>([]) == []
  {
  }

  /** The checksum of a decoded frame: however the decoder cuts its output, the digest is that of the whole. */
  method ChecksumOf(chunks: seq<seq<Byte>>) returns (digest: Word)
    ensures digest == Low32(Xxh64(Flatten(chunks)))
  {
    hide Xxh64, Stripes, SEEDED, AsLanes, FullLength, Low32, Flatten, Checksum.Valid;
    var checksum := new Checksum();
    NothingFlattened<Byte>();
    var i := 0;
    while i < |chunks|
      invariant 0 <= i <= |chunks| && checksum.Valid() && fresh(checksum)
      invariant checksum.seen == Flatten(chunks[..i])
    {
      FlattenSnoc(chunks, i);
      checksum.Update(chunks[i]);
      i := i + 1;
    }
    assert chunks[..i] == chunks;
    digest := checksum.Digest();
  }
}
