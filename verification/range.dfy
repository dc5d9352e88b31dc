/** The argument lists a family is given: `createRange` over powers with a negative mirror,
    and `createDenseRange`. Every sum, product and negation is checked to stay in 64 bits. */
module Range {
  import opened Common
  import opened Bits

  newtype int64 = x: int | -0x8000_0000_0000_0000 <= x < 0x8000_0000_0000_0000

  const CEIL: int64 := 0x7fff_ffff_ffff_ffff

  // ----- powers -----

  function Pow(m: int, k: nat): int {
    if k == 0 then 1 else m * Pow(m, k - 1)
  }

  ghost predicate IsPower(m: int, x: int) {
    exists k: nat :: Pow(m, k) == x
  }

  lemma {:induction false} PowRises(m: int, a: nat, b: nat)
    requires m >= 2 && a <= b
    ensures 1 <= Pow(m, a) <= Pow(m, b)
    ensures a < b ==> m * Pow(m, a) <= Pow(m, b)
    decreases b
  {
    if b > 0 {
      if a < b {
        PowRises(m, a, b - 1);
        MulMono(Pow(m, a), Pow(m, b - 1), m);
        MulMono(1, m, Pow(m, b - 1));
      } else {
        PowRises(m, a - 1, b - 1);
        MulMono(1, m, Pow(m, b - 1));
      }
    }
  }

  /** No power stands between a power and its successor. */
  lemma NextPower(m: int, p: int, x: int)
    requires m >= 2 && IsPower(m, p) && IsPower(m, x)
    ensures p >= 1 && (x > p ==> x >= m * p)
  {
    var a: nat :| Pow(m, a) == p;
    var b: nat :| Pow(m, b) == x;
    PowRises(m, 0, a);
    if a < b {
      PowRises(m, a, b);
    } else {
      PowRises(m, b, a);
    }
  }

  lemma PowerSteps(m: int, p: int)
    requires m >= 2 && IsPower(m, p)
    ensures IsPower(m, m * p) && m * p > p >= 1
  {
    var k: nat :| Pow(m, k) == p;
    assert Pow(m, k + 1) == m * p;
    PowRises(m, 0, k);
    MulMono(2, m, p);
  }

  lemma OneIsPower(m: int, x: int)
    requires m >= 2
    ensures IsPower(m, 1) && (IsPower(m, x) ==> x >= 1)
  {
    assert Pow(m, 0) == 1;
    if IsPower(m, x) { NextPower(m, x, 1); }
  }

  // ----- lists -----

  predicate Rising(s: seq<int64>) {
    forall i, j | 0 <= i < j < |s| :: s[i] < s[j]
  }

  predicate Sorted(s: seq<int64>) {
    forall i, j | 0 <= i < j < |s| :: s[i] <= s[j]
  }

  /** `r` is `values` with a rising list behind it. */
  ghost predicate Grown(values: seq<int64>, r: seq<int64>) {
    values <= r && Rising(r[|values|..])
  }

  /** The guard of the sweep: the next product leaves 64 bits exactly when the power is
      above the quotient. */
  lemma GuardIsExact(p: int, m: int)
    requires p >= 1 && m >= 2
    ensures p > CEIL as int / m <==> m * p > CEIL as int
  {
    var c := CEIL as int;
    assert c == m * (c / m) + c % m;
    MulMono(c / m + 1, p, m);
    MulMono(p, c / m, m);
  }

  /** `addPowers`: every power within the bounds, once, rising, behind what was there. */
  method AddPowers(values: seq<int64>, low: int64, high: int64, multiplier: int64) returns (r: seq<int64>)
    requires multiplier >= 2
    ensures Grown(values, r)
    ensures forall x: int64 :: x in r[|values|..] <==> low <= x <= high && IsPower(multiplier as int, x as int)
  {
    var tail: seq<int64> := [];
    var power: int64 := 1;
    ghost var m: int := multiplier as int;
    OneIsPower(m, 1);
    forall x: int | IsPower(m, x) ensures x >= 1 { OneIsPower(m, x); }
    while power <= high
      invariant 1 <= power && IsPower(m, power as int) && Rising(tail)
      invariant forall i | 0 <= i < |tail| :: tail[i] < power
      invariant forall x: int64 :: x in tail <==> low <= x < power && x <= high && IsPower(m, x as int)
      decreases high as int - power as int
    {
      if power >= low {
        tail := tail + [power];
      }
      PowerSteps(m, power as int);
      GuardIsExact(power as int, m);
      forall x: int | IsPower(m, x) && x > power as int ensures x >= m * power as int {
        NextPower(m, power as int, x);
      }
      if power > CEIL / multiplier {
        assert (values + tail)[|values|..] == tail;
        return values + tail;
      }
      power := power * multiplier;
    }
    assert (values + tail)[|values|..] == tail;
    r := values + tail;
  }

  function Reversed(s: seq<int64>): (r: seq<int64>)
    ensures |r| == |s| && forall i | 0 <= i < |s| :: r[i] == s[|s| - 1 - i]
  {
    seq(|s|, i requires 0 <= i < |s| => s[|s| - 1 - i])
  }

  /** `addNegatedPowers`: the sweep over the complement, negated and reversed. */
  method AddNegatedPowers(values: seq<int64>, low: int64, high: int64, multiplier: int64) returns (r: seq<int64>)
    requires multiplier >= 2 && -CEIL <= low <= high <= -1
    ensures Grown(values, r)
    ensures forall x: int64 :: x in r[|values|..] <==> low <= x <= high && IsPower(multiplier as int, -(x as int))
  {
    var grown := AddPowers(values, -high, -low, multiplier);
    var tail := grown[|values|..];
    forall i | 0 <= i < |tail| ensures tail[i] >= 1 {
      assert tail[i] in tail;
    }
    var negated := NegateEach(tail);
    var mirrored := Reversed(negated);
    r := values + mirrored;
    assert r[|values|..] == mirrored;
    forall x: int64 ensures x in mirrored <==> -CEIL <= x && -x in tail {
      MirrorHas(tail, mirrored, x);
    }
  }

  lemma MirrorHas(tail: seq<int64>, mirrored: seq<int64>, x: int64)
    requires |mirrored| == |tail| && forall i | 0 <= i < |tail| :: tail[i] >= 1
    requires forall i | 0 <= i < |tail| :: mirrored[i] as int == -(tail[|tail| - 1 - i] as int)
    ensures x in mirrored <==> -CEIL <= x && -x in tail
  {
    if -CEIL <= x && -x in tail {
      var i :| 0 <= i < |tail| && tail[i] == -x;
      assert mirrored[|tail| - 1 - i] == x;
    }
    if x in mirrored {
      var i :| 0 <= i < |mirrored| && mirrored[i] == x;
      assert tail[|tail| - 1 - i] as int == -(x as int);
    }
  }

  method NegateEach(s: seq<int64>) returns (r: seq<int64>)
    requires forall i | 0 <= i < |s| :: s[i] >= 1
    ensures |r| == |s| && forall i | 0 <= i < |s| :: r[i] == -s[i]
  {
    r := s;
    for walk := 0 to |s|
      invariant |r| == |s|
      invariant forall i | 0 <= i < |s| :: r[i] == if i < walk then -s[i] else s[i]
    {
      r := r[walk := -r[walk]];
    }
  }

  /** What stands strictly between the bounds of a range list, and the zero it crosses. */
  ghost predicate IsInside(low: int64, high: int64, m: int, x: int64) {
    || (low < x < high && (IsPower(m, x as int) || IsPower(m, -(x as int))))
    || (x == 0 && low < 0 <= high)
  }

  lemma JoinRises(below: seq<int64>, zero: seq<int64>, above: seq<int64>)
    requires Rising(below) && Rising(above) && (zero == [] || zero == [0])
    requires forall x | x in below :: x <= -1
    requires forall x | x in above :: x >= 1
    ensures Rising(below + zero + above)
  {
    forall i | 0 <= i < |below| ensures below[i] <= -1 { assert below[i] in below; }
    forall i | 0 <= i < |above| ensures above[i] >= 1 { assert above[i] in above; }
  }

  /** The three sweeps between the bounds, one behind the other. */
  method AddInside(low: int64, high: int64, multiplier: int64) returns (inner: seq<int64>)
    requires multiplier >= 2 && low as int + 1 < high as int
    ensures Rising(inner)
    ensures forall x: int64 :: x in inner <==> IsInside(low, high, multiplier as int, x)
  {
    var innerLow, innerHigh := low + 1, high - 1;
    var below: seq<int64>, zero: seq<int64>, above: seq<int64> := [], [], [];
    ghost var m: int := multiplier as int;
    forall x: int | IsPower(m, x) ensures x >= 1 { OneIsPower(m, x); }
    if innerLow < 0 {
      below := AddNegatedPowers([], innerLow, if innerHigh < -1 then innerHigh else -1, multiplier);
      assert below[0..] == below;
    }
    if low < 0 && high >= 0 {
      zero := [0];
    }
    if innerHigh > 0 {
      above := AddPowers([], if innerLow > 1 then innerLow else 1, innerHigh, multiplier);
      assert above[0..] == above;
    }
    JoinRises(below, zero, above);
    inner := below + zero + above;
  }

  /** Bounds around a rising list: strictly rising, unless the last element is the bound. */
  lemma BoundsAround(low: int64, inner: seq<int64>, high: int64)
    requires Rising(inner) && low < high
    requires forall x | x in inner :: low < x <= high
    ensures var r := [low] + inner + [high];
            && Sorted(r) && (Rising(r) <==> high !in inner) && Rising(r[..|r| - 1])
            && (high in inner ==> r[|r| - 2] == high && r[|r| - 1] == high)
  {
    var r := [low] + inner + [high];
    assert r[..|r| - 1] == [low] + inner;
    forall i | 0 <= i < |inner| ensures low < inner[i] <= high && (high !in inner ==> inner[i] < high) {
      assert inner[i] in inner;
    }
    if high in inner {
      var i :| 0 <= i < |inner| && inner[i] == high;
      assert inner[|inner| - 1] <= high;
      assert r[|r| - 2] == inner[|inner| - 1] == high && r[|r| - 1] == high;
    }
  }

  /** `createRange`, for every pair of bounds and every multiplier: no step leaves 64 bits
      and the loop ends; the list is sorted and holds its bounds, every power and negated
      power strictly between them and the zero it crosses, and nothing else. It rises
      strictly unless the span ends at zero with room below: then zero stands twice. */
  method CreateRange(low: int64, high: int64, multiplier: int64) returns (values: seq<int64>)
    requires multiplier >= 2 && low <= high
    ensures forall x: int64 :: x in values <==>
              x == low || x == high
              || (low < x < high && (IsPower(multiplier as int, x as int) || IsPower(multiplier as int, -(x as int)) || x == 0))
    ensures Sorted(values)
    ensures Rising(values) <==> !(high == 0 && low <= -2)
    ensures high == 0 && low <= -2 ==> |values| >= 2 && values[|values| - 2] == 0 && Rising(values[..|values| - 1])
  {
    if low == high {
      return [low];
    }
    if low + 1 == high {
      return [low, high];
    }
    var inner := AddInside(low, high, multiplier);
    values := [low] + inner + [high];
    BoundsAround(low, inner, high);
  }

  // ----- the dense list -----

  /** The values of a dense list from `value` on. */
  function Dense(value: int, high: int, step: int): seq<int>
    requires step >= 1
    decreases high - value
  {
    if value > high then [] else [value] + Dense(value + step, high, step)
  }

  /** The last of them. */
  function LastDense(value: int, high: int, step: int): int
    requires step >= 1 && value <= high
    decreases high - value
  {
    if value + step > high then value else LastDense(value + step, high, step)
  }

  function Ints(s: seq<int64>): (r: seq<int>)
    ensures |r| == |s| && forall i | 0 <= i < |s| :: r[i] == s[i] as int
  {
    seq(|s|, i requires 0 <= i < |s| => s[i] as int)
  }

  /** `createDenseRange`. Signed overflow of the loop's own sum has no defined result, and
      is `None` here: a list comes back exactly when the sum past its last value fits. */
  method CreateDenseRange(low: int64, high: int64, step: int64) returns (r: Option<seq<int64>>)
    requires step >= 1 && low <= high
    ensures r.Some? <==> LastDense(low as int, high as int, step as int) + step as int <= CEIL as int
    ensures r.Some? ==> Ints(r.value) == Dense(low as int, high as int, step as int)
  {
    ghost var l: int, h: int, d: int := low as int, high as int, step as int;
    var values: seq<int64> := [];
    var value := low;
    while value <= high
      invariant Ints(values) + Dense(value as int, h, d) == Dense(l, h, d)
      invariant if value <= high then LastDense(l, h, d) == LastDense(value as int, h, d)
                else LastDense(l, h, d) + d == value as int
      decreases h - value as int
    {
      values := values + [value];
      if value > CEIL - step {
        return None;
      }
      value := value + step;
    }
    r := Some(values);
  }

  /** The list in closed form: from the lower bound by the step, as far as the upper. */
  lemma {:induction false} DenseIs(low: int, high: int, step: int)
    requires step >= 1 && low <= high
    ensures |Dense(low, high, step)| == (high - low) / step + 1
    ensures forall i | 0 <= i < |Dense(low, high, step)| :: Dense(low, high, step)[i] == low + i * step
    ensures LastDense(low, high, step) == low + (high - low) / step * step
    decreases high - low
  {
    if low + step > high {
      Remainder(high - low, step, 0, high - low);
    } else {
      DenseIs(low + step, high, step);
      var q, rest := (high - low - step) / step, Dense(low + step, high, step);
      Remainder(high - low, step, q + 1, (high - low - step) % step);
      forall i | 0 <= i < |Dense(low, high, step)| ensures Dense(low, high, step)[i] == low + i * step {
        if i > 0 { assert Dense(low, high, step)[i] == rest[i - 1] == low + step + (i - 1) * step; }
      }
    }
  }

  /** A dense range up to the largest 64-bit value never returns a list. */
  lemma {:induction false} DenseToTheTopOverflows(low: int, step: int)
    requires step >= 1 && low <= CEIL as int
    ensures LastDense(low, CEIL as int, step) + step > CEIL as int
    decreases CEIL as int - low
  {
    if low + step <= CEIL as int { DenseToTheTopOverflows(low + step, step); }
  }
}
