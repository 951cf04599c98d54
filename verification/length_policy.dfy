/**
 * The identifier-length policy of DBOps.get_random_id_length (server.py:87-95).
 *
 * The loop starts at min_length with 64^min_length combinations; while the
 * combinations scaled by max_fill stay below the record count it squares the
 * length and multiplies the combinations by 64 once. After k steps the length
 * is min_length^(2^k) while the combinations are 64^(min_length + k).
 */
module LengthPolicy {
  import opened Charset

  /** The default keyword arguments of get_random_id_length. */
  const DefaultMaxFill: real := 0.3
  const DefaultMinLength: nat := 3

  function Power(base: nat, e: nat): (r: nat)
    ensures base >= 1 ==> r >= 1
  {
    if e == 0 then 1 else base * Power(base, e - 1)
  }

  /** An identifier space of 64^e combinations filled to at most `maxFill`
      holds `count` records. */
  predicate Fits(count: nat, maxFill: real, e: nat) {
    Power(CharsetSize, e) as real * maxFill >= count as real
  }

  /** The largest number of combinations at which the loop can still run. */
  function CapacityBound(count: nat, maxFill: real): int
    requires maxFill > 0.0
  {
    (count as real / maxFill).Floor
  }

  lemma BelowBound(count: nat, maxFill: real, c: nat)
    requires maxFill > 0.0
    requires c as real * maxFill < count as real
    ensures c <= CapacityBound(count, maxFill)
  {
    assert c as real == (c as real * maxFill) / maxFill;
    assert c as real < count as real / maxFill;
  }

  /** The number of loop steps taken once the combinations are 64^e: the
      least k for which 64^(e+k) combinations fit. */
  function StepsFrom(count: nat, maxFill: real, e: nat): (k: nat)
    requires maxFill > 0.0
    ensures Fits(count, maxFill, e + k)
    ensures forall j :: e <= j < e + k ==> !Fits(count, maxFill, j)
    decreases CapacityBound(count, maxFill) - Power(CharsetSize, e)
  {
    if Fits(count, maxFill, e) then 0
    else
      BelowBound(count, maxFill, Power(CharsetSize, e));
      1 + StepsFrom(count, maxFill, e + 1)
  }

  /** `m` squared `k` times, the value of cur_len after k steps. */
  function SquaredTimes(m: nat, k: nat): nat {
    if k == 0 then m else SquaredTimes(m, k - 1) * SquaredTimes(m, k - 1)
  }

  /** The length get_random_id_length returns for a record count. */
  function IdLength(count: nat, maxFill: real, minLength: nat): nat
    requires maxFill > 0.0
  {
    SquaredTimes(minLength, StepsFrom(count, maxFill, minLength))
  }

  /** The least fitting step count is unique. */
  lemma StepsUnique(count: nat, maxFill: real, e: nat, k: nat)
    requires maxFill > 0.0
    requires Fits(count, maxFill, e + k)
    requires forall j :: e <= j < e + k ==> !Fits(count, maxFill, j)
    ensures k == StepsFrom(count, maxFill, e)
  {
  }

  /** get_random_id_length's loop, over the record count already fetched. */
  method RandomIdLength(count: nat, maxFill: real, minLength: nat) returns (len: nat)
    requires maxFill > 0.0
    ensures len == IdLength(count, maxFill, minLength)
    ensures Fits(count, maxFill, minLength + StepsFrom(count, maxFill, minLength))
    ensures minLength >= 1 ==> len >= minLength
  {
    CharsetShape();
    var charsetLen := |ShortUrlCharset|;
    var curLen := minLength;
    var curCombinations := Power(charsetLen, curLen);
    ghost var steps: nat := 0;
    while curCombinations as real * maxFill < count as real
      invariant curLen == SquaredTimes(minLength, steps)
      invariant curCombinations == Power(CharsetSize, minLength + steps)
      invariant forall j :: minLength <= j < minLength + steps ==> !Fits(count, maxFill, j)
      decreases CapacityBound(count, maxFill) - curCombinations
    {
      BelowBound(count, maxFill, curCombinations);
      curLen := curLen * curLen;
      curCombinations := curCombinations * charsetLen;
      steps := steps + 1;
    }
    StepsUnique(count, maxFill, minLength, steps);
    if minLength >= 1 {
      SquaredTimesAtLeast(minLength, steps);
    }
    len := curLen;
  }

  lemma {:induction false} SquaredTimesAtLeast(m: nat, k: nat)
    requires m >= 1
    ensures SquaredTimes(m, k) >= m
  {
    if k > 0 {
      SquaredTimesAtLeast(m, k - 1);
      var s := SquaredTimes(m, k - 1);
      assert s * s >= s * 1;
    }
  }

  /** More steps never give a shorter length once min_length >= 1. */
  lemma {:induction false} SquaredTimesMonotone(m: nat, k1: nat, k2: nat)
    requires m >= 1
    requires k1 <= k2
    ensures SquaredTimes(m, k1) <= SquaredTimes(m, k2)
  {
    if k1 < k2 {
      SquaredTimesMonotone(m, k1, k2 - 1);
      SquaredTimesAtLeast(m, k2 - 1);
      var s := SquaredTimes(m, k2 - 1);
      assert s * s >= s * 1;
    }
  }

  /** Squaring from at least 2 outgrows adding one per step. */
  lemma {:induction false} SquaredTimesOutgrowsSteps(m: nat, k: nat)
    requires m >= 2
    ensures SquaredTimes(m, k) >= m + k
  {
    if k > 0 {
      SquaredTimesOutgrowsSteps(m, k - 1);
      var s := SquaredTimes(m, k - 1);
      assert s * s >= s * 2;
    }
  }

  lemma {:induction false} PowerMonotone(e1: nat, e2: nat)
    requires e1 <= e2
    ensures Power(CharsetSize, e1) <= Power(CharsetSize, e2)
  {
    if e1 < e2 {
      PowerMonotone(e1, e2 - 1);
    }
  }

  /** With min_length >= 1 the length is never below min_length. */
  lemma IdLengthAtLeastMin(count: nat, maxFill: real, minLength: nat)
    requires maxFill > 0.0
    requires minLength >= 1
    ensures IdLength(count, maxFill, minLength) >= minLength
  {
    SquaredTimesAtLeast(minLength, StepsFrom(count, maxFill, minLength));
  }

  /** When 64^min_length combinations already fit the count (in particular for
      an empty store) the length is min_length itself. */
  lemma IdLengthWhenFits(count: nat, maxFill: real, minLength: nat)
    requires maxFill > 0.0
    requires count as real <= Power(CharsetSize, minLength) as real * maxFill
    ensures IdLength(count, maxFill, minLength) == minLength
  {
    StepsUnique(count, maxFill, minLength, 0);
  }

  /** A larger count takes at least as many steps. */
  lemma StepsMonotone(count1: nat, count2: nat, maxFill: real, e: nat)
    requires maxFill > 0.0
    requires count1 <= count2
    ensures StepsFrom(count1, maxFill, e) <= StepsFrom(count2, maxFill, e)
  {
    var k1 := StepsFrom(count1, maxFill, e);
    var k2 := StepsFrom(count2, maxFill, e);
    assert Fits(count2, maxFill, e + k2);
    assert Fits(count1, maxFill, e + k2);
  }

  /** For a fixed min_length >= 1 and max_fill, a larger count never yields a
      shorter length. */
  lemma IdLengthMonotone(count1: nat, count2: nat, maxFill: real, minLength: nat)
    requires maxFill > 0.0
    requires minLength >= 1
    requires count1 <= count2
    ensures IdLength(count1, maxFill, minLength) <= IdLength(count2, maxFill, minLength)
  {
    StepsMonotone(count1, count2, maxFill, minLength);
    SquaredTimesMonotone(minLength, StepsFrom(count1, maxFill, minLength),
                         StepsFrom(count2, maxFill, minLength));
  }

  /** With min_length >= 2 the identifier space actually used, 64^length,
      holds the count within the fill ratio: the length outgrows the
      combinations the loop tracks. */
  lemma IdSpaceFits(count: nat, maxFill: real, minLength: nat)
    requires maxFill > 0.0
    requires minLength >= 2
    ensures Fits(count, maxFill, IdLength(count, maxFill, minLength))
  {
    var k := StepsFrom(count, maxFill, minLength);
    SquaredTimesOutgrowsSteps(minLength, k);
    PowerMonotone(minLength + k, IdLength(count, maxFill, minLength));
    var small := Power(CharsetSize, minLength + k) as real;
    var large := Power(CharsetSize, IdLength(count, maxFill, minLength)) as real;
    assert small * maxFill <= large * maxFill;
  }

  lemma {:induction false} SquaredOneIsOne(k: nat)
    ensures SquaredTimes(1, k) == 1
  {
    if k > 0 {
      SquaredOneIsOne(k - 1);
    }
  }

  /** With min_length = 1 the length never grows, whatever the count: for 20
      records at max_fill 0.3 the 64 one-character identifiers are already
      filled beyond the ratio (64 * 0.3 = 19.2 < 20). */
  lemma LengthStuckAtOne(count: nat, maxFill: real)
    requires maxFill > 0.0
    ensures IdLength(count, maxFill, 1) == 1
    ensures count == 20 && maxFill == DefaultMaxFill ==> !Fits(count, maxFill, IdLength(count, maxFill, 1))
  {
    SquaredOneIsOne(StepsFrom(count, maxFill, 1));
    assert Power(CharsetSize, 1) == 64;
  }

  /** Squaring overshoots: with the default policy, 78644 records (one more
      than 64^3 * 0.3 allows) get 9-character identifiers, although 4
      characters would keep the fill ratio. */
  lemma LengthJumpsFromThreeToNine()
    ensures IdLength(78644, DefaultMaxFill, DefaultMinLength) == 9
    ensures Fits(78644, DefaultMaxFill, 4)
  {
    assert Power(CharsetSize, 3) == 262144;
    assert Power(CharsetSize, 4) == 16777216;
    assert !Fits(78644, DefaultMaxFill, 3);
    StepsUnique(78644, DefaultMaxFill, 3, 1);
  }
}
