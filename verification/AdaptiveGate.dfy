/** The adaptive concurrency gate: one more after a streak as long as the limit, half after a failure. */
module AdaptiveGate {
  import opened Basics

  /** A number that may be infinite or no number. */
  datatype Number = Finite(value: real) | NotFinite

  function Normalized(n: Number, fallback: int): (limit: int)
    ensures n.Finite? && n.value >= 1.0 ==> limit as real <= n.value < limit as real + 1.0
    ensures n.NotFinite? || n.value < 1.0 ==> limit == fallback
  {
    if n.Finite? && n.value.Floor > 0 then n.value.Floor else fallback
  }

  /** The limit, the streak of successes, and the totals. */
  datatype State = State(limit: int, streak: nat, successes: nat, failures: nat)

  predicate InRange(s: State, min: int, max: int) {
    1 <= min <= s.limit <= max
  }

  function AfterSuccess(s: State, max: int): State {
    var raised := s.streak + 1 >= s.limit && s.limit < max;
    State(if raised then s.limit + 1 else s.limit, if raised then 0 else s.streak + 1, s.successes + 1, s.failures)
  }

  function AfterFailure(s: State, min: int): State {
    State(Max(min, s.limit / 2), 0, s.successes, s.failures + 1)
  }

  class AdaptiveConcurrencyGate {
    const maxLimit: int
    const minLimit: int
    var currentLimit: int
    var consecutiveSuccesses: nat
    var totalSuccesses: nat
    var totalFailures: nat

    function Now(): State
      reads this
    {
      State(currentLimit, consecutiveSuccesses, totalSuccesses, totalFailures)
    }

    ghost predicate Valid()
      reads this
    {
      InRange(Now(), minLimit, maxLimit)
    }

    /** Whatever numbers come in, the limits come out ordered and positive. */
    constructor (maximum: Number, minimum: Number, initial: Number)
      ensures Valid() && Now() == State(currentLimit, 0, 0, 0)
      ensures maxLimit == Normalized(maximum, 1) && minLimit == Min(Normalized(minimum, 1), maxLimit)
      ensures minLimit <= Normalized(initial, minLimit) <= maxLimit ==> currentLimit == Normalized(initial, minLimit)
      ensures Normalized(initial, minLimit) > maxLimit ==> currentLimit == maxLimit
      ensures Normalized(initial, minLimit) < minLimit ==> currentLimit == minLimit
    {
      var high := Normalized(maximum, 1);
      var low := Min(Normalized(minimum, 1), high);
      maxLimit, minLimit := high, low;
      currentLimit := Min(Max(Normalized(initial, low), low), high);
      consecutiveSuccesses, totalSuccesses, totalFailures := 0, 0, 0;
    }

    method OnSuccess() returns (raised: bool)
      requires Valid()
      modifies this
      ensures Valid() && Now() == AfterSuccess(old(Now()), maxLimit) && raised == (currentLimit > old(currentLimit))
    {
      consecutiveSuccesses := consecutiveSuccesses + 1;
      totalSuccesses := totalSuccesses + 1;
      if consecutiveSuccesses >= currentLimit && currentLimit < maxLimit {
        currentLimit := Min(maxLimit, currentLimit + 1);
        consecutiveSuccesses := 0;
        return true;
      }
      return false;
    }

    method OnFailure()
      requires Valid()
      modifies this
      ensures Valid() && Now() == AfterFailure(old(Now()), minLimit)
      ensures consecutiveSuccesses == 0 && totalFailures == old(totalFailures) + 1 && totalSuccesses == old(totalSuccesses)
      ensures currentLimit == minLimit || 2 * currentLimit <= old(currentLimit) <= 2 * currentLimit + 1
      ensures old(currentLimit) >= 2 * minLimit ==> 2 * currentLimit <= old(currentLimit) <= 2 * currentLimit + 1
    {
      totalFailures := totalFailures + 1;
      currentLimit := Max(minLimit, currentLimit / 2);
      consecutiveSuccesses := 0;
    }
  }

  /** The successes it takes to climb from one limit to another: from + (from + 1) + ... + (limit - 1). */
  function Cost(low: int, limit: int): int
    decreases limit - low
  {
    if limit <= low then 0 else Cost(low, limit - 1) + (limit - 1)
  }

  function Successes(s: State, max: int, k: nat): State {
    if k == 0 then s else AfterSuccess(Successes(s, max, k - 1), max)
  }

  /** From the minimum without a streak, the limit after k successes is the greatest m within the maximum that costs no
      more than k; below the maximum the streak is what is left over. */
  lemma {:induction false} ClimbIsExact(s: State, max: int, k: nat)
    requires 1 <= s.limit <= max && s.streak == 0
    ensures var m := Successes(s, max, k).limit;
            && s.limit <= m <= max && Cost(s.limit, m) <= k && (m < max ==> k < Cost(s.limit, m + 1))
            && (m < max ==> Successes(s, max, k).streak == k - Cost(s.limit, m))
  {
    if k > 0 {
      ClimbIsExact(s, max, k - 1);
      var before := Successes(s, max, k - 1);
      assert Cost(s.limit, before.limit + 1) == Cost(s.limit, before.limit) + before.limit;
      if before.limit + 1 < max {
        assert Cost(s.limit, before.limit + 2) == Cost(s.limit, before.limit + 1) + before.limit + 1;
      }
    }
  }

  lemma {:induction false} CostGrows(low: int, a: int, b: int)
    requires 1 <= low <= a < b
    ensures Cost(low, a) < Cost(low, b)
    decreases b
  {
    if a < b - 1 {
      CostGrows(low, a, b - 1);
    }
  }

  /** There is only one limit that fits: the climb is determined by the number of successes alone. */
  lemma ClimbIsGreatest(s: State, max: int, k: nat, m: int)
    requires 1 <= s.limit <= max && s.streak == 0 && s.limit <= m <= max
    ensures Cost(s.limit, m) <= k <==> m <= Successes(s, max, k).limit
  {
    ClimbIsExact(s, max, k);
    var reached := Successes(s, max, k).limit;
    if m < reached {
      CostGrows(s.limit, m, reached);
    } else if m > reached && m > reached + 1 {
      CostGrows(s.limit, reached + 1, m);
    }
  }
}
