/**
 The complexity fit of a family: the least-squares coefficient of each candidate curve and
 the choice among candidates, over the reals. The square root is a parameter of which only
 its order is used.
 */
module Fit {
  import opened Common

  /** A relative error; a curve that is zero at every size has none. */
  datatype Error = Finite(value: real) | Infinite

  predicate Less(a: Error, b: Error) {
    a.Finite? && (b.Finite? ==> a.value < b.value)
  }

  /** A candidate's values at the sizes, beside the measured values. */
  type Curve = int -> real

  type Root = real -> real

  /** The root keeps the order of the values at or above zero. */
  ghost predicate KeepsOrder(root: Root) {
    forall x: real, y: real | 0.0 <= x && 0.0 <= y :: x < y <==> root(x) < root(y)
  }

  datatype Fitted = Fitted(coefficient: real, error: Error)

  // ----- sums -----

  /** A product added onto a sum. */
  function Plus(sum: real, a: real, b: real): real {
    sum + a * b
  }

  /** One residual of a coefficient, squared onto a sum. */
  function PlusResidual(sum: real, value: real, f: real, c: real): real {
    Plus(sum, value - c * f, value - c * f)
  }

  function Cross(sizes: seq<int>, values: seq<real>, curve: Curve, n: nat): real
    requires n <= |values| <= |sizes|
  {
    if n == 0 then 0.0 else Plus(Cross(sizes, values, curve, n - 1), curve(sizes[n - 1]), values[n - 1])
  }

  function Square(sizes: seq<int>, curve: Curve, n: nat): real
    requires n <= |sizes|
  {
    if n == 0 then 0.0 else Plus(Square(sizes, curve, n - 1), curve(sizes[n - 1]), curve(sizes[n - 1]))
  }

  /** The sum of squared residuals of a coefficient. */
  function Squared(sizes: seq<int>, values: seq<real>, curve: Curve, c: real, n: nat): real
    requires n <= |values| <= |sizes|
  {
    if n == 0 then 0.0
    else PlusResidual(Squared(sizes, values, curve, c, n - 1), values[n - 1], curve(sizes[n - 1]), c)
  }

  lemma {:induction false} SquaredIsNotNegative(sizes: seq<int>, values: seq<real>, curve: Curve, c: real, n: nat)
    requires n <= |values| <= |sizes|
    ensures Squared(sizes, values, curve, c, n) >= 0.0
  {
    if n > 0 {
      SquaredIsNotNegative(sizes, values, curve, c, n - 1);
      var residual := values[n - 1] - c * curve(sizes[n - 1]);
      SquareSign(residual, residual * residual);
    }
  }

  function Total(values: seq<real>, n: nat): real
    requires n <= |values|
  {
    if n == 0 then 0.0 else Total(values, n - 1) + values[n - 1]
  }

  function Mean(values: seq<real>): real
    requires values != []
  {
    Total(values, |values|) / |values| as real
  }

  function Coefficient(sizes: seq<int>, values: seq<real>, curve: Curve): real
    requires |values| <= |sizes| && Square(sizes, curve, |values|) > 0.0
  {
    Cross(sizes, values, curve, |values|) / Square(sizes, curve, |values|)
  }

  /** The two numbers a curve earns; `tiny` is the least mean that counts as one. */
  function FitOf(root: Root, tiny: real, sizes: seq<int>, values: seq<real>, curve: Curve): Fitted
    requires 0 < |values| <= |sizes| && tiny >= 0.0
  {
    if Square(sizes, curve, |values|) <= 0.0 then Fitted(0.0, Infinite)
    else
      var c := Coefficient(sizes, values, curve);
      var squared := Squared(sizes, values, curve, c, |values|);
      if -tiny <= Mean(values) <= tiny then Fitted(c, if squared <= 0.0 then Finite(0.0) else Infinite)
      else Fitted(c, Finite(root(squared / |values| as real) / Mean(values) * 100.0))
  }

  /** `fitCurve`. */
  method FitCurve(root: Root, tiny: real, sizes: seq<int>, values: seq<real>, curve: Curve) returns (r: Fitted)
    requires 0 < |values| <= |sizes| && tiny >= 0.0
    ensures r == FitOf(root, tiny, sizes, values, curve)
  {
    var cross, square := 0.0, 0.0;
    for i := 0 to |values|
      invariant cross == Cross(sizes, values, curve, i) && square == Square(sizes, curve, i)
    {
      var y := curve(sizes[i]);
      cross := Plus(cross, y, values[i]);
      square := Plus(square, y, y);
    }
    if square <= 0.0 {
      return Fitted(0.0, Infinite);
    }
    var coefficient := cross / square;
    var squared, total := 0.0, 0.0;
    for i := 0 to |values|
      invariant squared == Squared(sizes, values, curve, coefficient, i) && total == Total(values, i)
    {
      squared := PlusResidual(squared, values[i], curve(sizes[i]), coefficient);
      total := total + values[i];
    }
    var mean := total / |values| as real;
    if -tiny <= mean <= tiny {
      return Fitted(coefficient, if squared <= 0.0 then Finite(0.0) else Infinite);
    }
    var rootMean := root(squared / |values| as real);
    r := Fitted(coefficient, Finite(rootMean / mean * 100.0));
  }

  // ----- the coefficient is least -----

  function SquareOfValues(values: seq<real>, n: nat): real
    requires n <= |values|
  {
    if n == 0 then 0.0 else Plus(SquareOfValues(values, n - 1), values[n - 1], values[n - 1])
  }

  /** A parabola in the coefficient. */
  function Quadratic(v: real, x: real, s: real, c: real): real {
    v - 2.0 * c * x + c * c * s
  }

  /** The residual sum is a parabola in the coefficient. */
  lemma {:induction false} SquaredExpands(sizes: seq<int>, values: seq<real>, curve: Curve, c: real, n: nat)
    requires n <= |values| <= |sizes|
    ensures Squared(sizes, values, curve, c, n)
         == Quadratic(SquareOfValues(values, n), Cross(sizes, values, curve, n), Square(sizes, curve, n), c)
  {
    if n > 0 {
      SquaredExpands(sizes, values, curve, c, n - 1);
    }
  }

  /** The coefficient of the fit leaves the least sum of squared residuals of all. */
  lemma CoefficientIsLeast(sizes: seq<int>, values: seq<real>, curve: Curve, other: real)
    requires |values| <= |sizes| && Square(sizes, curve, |values|) > 0.0
    ensures var least := Squared(sizes, values, curve, Coefficient(sizes, values, curve), |values|);
            && least <= Squared(sizes, values, curve, other, |values|)
            && (other != Coefficient(sizes, values, curve) ==> least < Squared(sizes, values, curve, other, |values|))
  {
    var n := |values|;
    var c := Coefficient(sizes, values, curve);
    var v, x, s := SquareOfValues(values, n), Cross(sizes, values, curve, n), Square(sizes, curve, n);
    SquaredExpands(sizes, values, curve, c, n);
    SquaredExpands(sizes, values, curve, other, n);
    Parabola(v, x, s, c, other);
  }

  /** A parabola that opens upward is least at its vertex alone. */
  lemma Parabola(v: real, x: real, s: real, c: real, d: real)
    requires s > 0.0 && c == x / s
    ensures Quadratic(v, x, s, c) <= Quadratic(v, x, s, d)
    ensures d != c ==> Quadratic(v, x, s, c) < Quadratic(v, x, s, d)
  {
    var e := d - c;
    var w := e * e;
    assert x == c * s && d == c + e;
    assert d * d == c * c + 2.0 * c * e + w;
    assert Quadratic(v, x, s, d) - Quadratic(v, x, s, c) == s * w;
    SquareSign(e, w);
  }

  lemma Positive(a: real, b: real, w: real)
    requires a > 0.0 && b > 0.0 && w == a * b
    ensures w > 0.0
  {
  }

  lemma SquareSign(e: real, w: real)
    requires w == e * e
    ensures w >= 0.0 && (e != 0.0 ==> w > 0.0)
  {
    if e > 0.0 {
      Positive(e, e, w);
    } else if e < 0.0 {
      Positive(-e, -e, w);
    }
  }

  /** A candidate's least residual sum; only one that is not zero everywhere has one. */
  function Least(sizes: seq<int>, values: seq<real>, curve: Curve): real
    requires |values| <= |sizes| && Square(sizes, curve, |values|) > 0.0
  {
    Squared(sizes, values, curve, Coefficient(sizes, values, curve), |values|)
  }

  // ----- what a fit is -----

  /** The curve times the coefficient is the value at each of the first n sizes. */
  predicate Matches(sizes: seq<int>, values: seq<real>, curve: Curve, c: real, n: nat)
    requires n <= |values| <= |sizes|
  {
    forall k | 0 <= k < n :: values[k] == c * curve(sizes[k])
  }

  /** The curve is zero at each of the first n sizes. */
  predicate Vanishes(sizes: seq<int>, curve: Curve, n: nat)
    requires n <= |sizes|
  {
    forall k | 0 <= k < n :: curve(sizes[k]) == 0.0
  }

  /** The residual sum is zero exactly where every value is met. */
  lemma {:induction false} NoResidualIff(sizes: seq<int>, values: seq<real>, curve: Curve, c: real, n: nat)
    requires n <= |values| <= |sizes|
    ensures Squared(sizes, values, curve, c, n) <= 0.0 <==> Matches(sizes, values, curve, c, n)
  {
    if n > 0 {
      NoResidualIff(sizes, values, curve, c, n - 1);
      SquaredIsNotNegative(sizes, values, curve, c, n - 1);
      var residual := values[n - 1] - c * curve(sizes[n - 1]);
      SquareSign(residual, residual * residual);
    }
  }

  lemma {:induction false} NoSquareIff(sizes: seq<int>, curve: Curve, n: nat)
    requires n <= |sizes|
    ensures Square(sizes, curve, n) >= 0.0 && (Square(sizes, curve, n) <= 0.0 <==> Vanishes(sizes, curve, n))
  {
    if n > 0 {
      NoSquareIff(sizes, curve, n - 1);
      var y := curve(sizes[n - 1]);
      SquareSign(y, y * y);
    }
  }

  /** What a fit holds. For a curve that vanishes at every size, zero and no error. For any
      other, the one coefficient of the least residual sum, and an error: times the mean, a
      hundred times the root of the mean squared residual; where the mean counts as zero,
      zero if every value is met and none otherwise. */
  lemma FitIs(root: Root, tiny: real, sizes: seq<int>, values: seq<real>, curve: Curve, other: real)
    requires 0 < |values| <= |sizes| && tiny >= 0.0
    ensures var fit, n := FitOf(root, tiny, sizes, values, curve), |values|;
            if Vanishes(sizes, curve, n) then fit == Fitted(0.0, Infinite)
            else
              var left := Squared(sizes, values, curve, fit.coefficient, n);
              && (other != fit.coefficient ==> left < Squared(sizes, values, curve, other, n))
              && (if -tiny <= Mean(values) <= tiny then
                    fit.error == if Matches(sizes, values, curve, fit.coefficient, n) then Finite(0.0) else Infinite
                  else
                    fit.error.Finite? && fit.error.value * Mean(values) == 100.0 * root(left / n as real))
  {
    NoSquareIff(sizes, curve, |values|);
    if !Vanishes(sizes, curve, |values|) {
      var c := Coefficient(sizes, values, curve);
      CoefficientIsLeast(sizes, values, curve, other);
      NoResidualIff(sizes, values, curve, c, |values|);
      if !(-tiny <= Mean(values) <= tiny) {
        Scaled(root(Squared(sizes, values, curve, c, |values|) / |values| as real), Mean(values));
      }
    }
  }

  lemma Scaled(x: real, m: real)
    requires m != 0.0
    ensures x / m * 100.0 * m == 100.0 * x
  {
    assert x / m * m == x;
  }

  /** A family that follows a curve exactly is fitted with that curve's own coefficient. */
  lemma ExactFamilyIsRecovered(root: Root, tiny: real, sizes: seq<int>, values: seq<real>, curve: Curve, c: real)
    requires 0 < |values| <= |sizes| && tiny >= 0.0
    requires Matches(sizes, values, curve, c, |values|) && !Vanishes(sizes, curve, |values|)
    ensures FitOf(root, tiny, sizes, values, curve).coefficient == c
    ensures Square(sizes, curve, |values|) > 0.0 && Least(sizes, values, curve) == 0.0
  {
    NoSquareIff(sizes, curve, |values|);
    NoResidualIff(sizes, values, curve, c, |values|);
    CoefficientIsLeast(sizes, values, curve, c);
    SquaredIsNotNegative(sizes, values, curve, Coefficient(sizes, values, curve), |values|);
  }

  // ----- the choice -----

  /** The earliest candidate no later one beats. */
  predicate Chosen(errors: seq<Error>, best: nat) {
    && best < |errors|
    && (forall k | 0 <= k < |errors| :: !Less(errors[k], errors[best]))
    && (forall k | 0 <= k < best :: Less(errors[best], errors[k]))
  }

  function Errors(root: Root, tiny: real, sizes: seq<int>, values: seq<real>, curves: seq<Curve>): (r: seq<Error>)
    requires 0 < |values| <= |sizes| && tiny >= 0.0
    ensures |r| == |curves|
    ensures forall k | 0 <= k < |r| :: r[k] == FitOf(root, tiny, sizes, values, curves[k]).error
  {
    seq(|curves|, k requires 0 <= k < |curves| => FitOf(root, tiny, sizes, values, curves[k]).error)
  }

  /** The inner loop of `fitFamily`: one quantity against every candidate. */
  method ChooseCurve(root: Root, tiny: real, sizes: seq<int>, values: seq<real>, curves: seq<Curve>)
    returns (best: nat, fit: Fitted)
    requires 0 < |values| <= |sizes| && tiny >= 0.0 && curves != []
    ensures best < |curves| && fit == FitOf(root, tiny, sizes, values, curves[best])
    ensures Chosen(Errors(root, tiny, sizes, values, curves), best)
  {
    ghost var errors := Errors(root, tiny, sizes, values, curves);
    best := 0;
    fit := FitCurve(root, tiny, sizes, values, curves[0]);
    for k := 1 to |curves|
      invariant best < k && fit == FitOf(root, tiny, sizes, values, curves[best]) && fit.error == errors[best]
      invariant forall j | 0 <= j < k :: !Less(errors[j], errors[best])
      invariant forall j | 0 <= j < best :: Less(errors[best], errors[j])
    {
      var candidate := FitCurve(root, tiny, sizes, values, curves[k]);
      assert candidate.error == errors[k];
      if Less(candidate.error, fit.error) {
        best, fit := k, candidate;
      }
    }
  }

  /** How two candidates compare: by their residuals for a positive mean, and the other way
      round for a negative one. */
  lemma ErrorsCompare(root: Root, tiny: real, sizes: seq<int>, values: seq<real>, a: Curve, b: Curve)
    requires 0 < |values| <= |sizes| && tiny >= 0.0 && KeepsOrder(root)
    requires Square(sizes, a, |values|) > 0.0 && Square(sizes, b, |values|) > 0.0
    requires Mean(values) > tiny || Mean(values) < -tiny
    ensures var x, y := FitOf(root, tiny, sizes, values, a).error, FitOf(root, tiny, sizes, values, b).error;
            && x.Finite? && y.Finite?
            && (Mean(values) > tiny ==> (Less(x, y) <==> Least(sizes, values, a) < Least(sizes, values, b)))
            && (Mean(values) < -tiny ==> (Less(x, y) <==> Least(sizes, values, a) > Least(sizes, values, b)))
  {
    var n, m := |values| as real, Mean(values);
    var p, q := Least(sizes, values, a), Least(sizes, values, b);
    SquaredIsNotNegative(sizes, values, a, Coefficient(sizes, values, a), |values|);
    SquaredIsNotNegative(sizes, values, b, Coefficient(sizes, values, b), |values|);
    DivideKeepsOrder(p, q, n);
    var x, y := root(p / n), root(q / n);
    assert x < y <==> p < q;
    assert y < x <==> q < p by { assert y < x <==> q / n < p / n; DivideKeepsOrder(q, p, n); }
    ScaleOrder(x, y, m);
  }

  lemma DivideKeepsOrder(p: real, q: real, n: real)
    requires p >= 0.0 && q >= 0.0 && n > 0.0
    ensures p / n >= 0.0 && q / n >= 0.0 && (p < q <==> p / n < q / n)
  {
    var a, b := p / n, q / n;
    assert p == a * n && q == b * n;
    if p < q { assert (b - a) * n > 0.0; }
    if a < b { assert (b - a) * n > 0.0; }
  }

  lemma ScaleOrder(x: real, y: real, m: real)
    requires m != 0.0
    ensures m > 0.0 ==> (x / m * 100.0 < y / m * 100.0 <==> x < y)
    ensures m < 0.0 ==> (x / m * 100.0 < y / m * 100.0 <==> y < x)
  {
    var a, b := x / m, y / m;
    assert x == a * m && y == b * m;
    assert y - x == (b - a) * m;
  }

  /** For a positive mean the choice is the earliest candidate of the least residual sum,
      among those that are not zero at every size. */
  lemma PositiveMeanChoosesTheBest(root: Root, tiny: real, sizes: seq<int>, values: seq<real>,
                                   curves: seq<Curve>, best: nat, k: nat)
    requires 0 < |values| <= |sizes| && tiny >= 0.0 && KeepsOrder(root) && Mean(values) > tiny
    requires Chosen(Errors(root, tiny, sizes, values, curves), best) && k < |curves|
    requires Square(sizes, curves[k], |values|) > 0.0
    ensures Square(sizes, curves[best], |values|) > 0.0
    ensures Least(sizes, values, curves[best]) <= Least(sizes, values, curves[k])
    ensures k < best ==> Least(sizes, values, curves[best]) < Least(sizes, values, curves[k])
  {
    var errors := Errors(root, tiny, sizes, values, curves);
    assert !Less(errors[k], errors[best]);
    ErrorsCompare(root, tiny, sizes, values, curves[k], curves[k]);
    if Square(sizes, curves[best], |values|) > 0.0 {
      ErrorsCompare(root, tiny, sizes, values, curves[k], curves[best]);
      ErrorsCompare(root, tiny, sizes, values, curves[best], curves[k]);
    }
  }

  /** For a negative mean the relative errors are negative and the same comparison picks the
      candidate of the GREATEST residual sum: the worst fit. */
  lemma NegativeMeanChoosesTheWorst(root: Root, tiny: real, sizes: seq<int>, values: seq<real>,
                                    curves: seq<Curve>, best: nat, k: nat)
    requires 0 < |values| <= |sizes| && tiny >= 0.0 && KeepsOrder(root) && Mean(values) < -tiny
    requires Chosen(Errors(root, tiny, sizes, values, curves), best) && k < |curves|
    requires Square(sizes, curves[k], |values|) > 0.0
    ensures Square(sizes, curves[best], |values|) > 0.0
    ensures Least(sizes, values, curves[best]) >= Least(sizes, values, curves[k])
  {
    var errors := Errors(root, tiny, sizes, values, curves);
    assert !Less(errors[k], errors[best]);
    ErrorsCompare(root, tiny, sizes, values, curves[k], curves[k]);
    if Square(sizes, curves[best], |values|) > 0.0 {
      ErrorsCompare(root, tiny, sizes, values, curves[k], curves[best]);
    }
  }

  /** The curve reproduces every value. */
  predicate Reproduces(sizes: seq<int>, values: seq<real>, curve: Curve)
    requires |values| <= |sizes|
  {
    Square(sizes, curve, |values|) > 0.0 && Least(sizes, values, curve) <= 0.0
  }

  /** For a mean that counts as zero the choice is the earliest candidate that reproduces the
      values; where none does, the first candidate stands whatever the others leave. */
  lemma ZeroMeanChoosesTheFirstExact(root: Root, tiny: real, sizes: seq<int>, values: seq<real>,
                                     curves: seq<Curve>, best: nat, k: nat)
    requires 0 < |values| <= |sizes| && tiny >= 0.0 && -tiny <= Mean(values) <= tiny
    requires Chosen(Errors(root, tiny, sizes, values, curves), best) && k < |curves|
    ensures Reproduces(sizes, values, curves[k]) ==> Reproduces(sizes, values, curves[best]) && best <= k
    ensures !Reproduces(sizes, values, curves[best]) ==> best == 0
  {
    var errors := Errors(root, tiny, sizes, values, curves);
    ZeroMeanError(root, tiny, sizes, values, curves[k]);
    ZeroMeanError(root, tiny, sizes, values, curves[best]);
    assert !Less(errors[k], errors[best]);
    if k < best { assert Less(errors[best], errors[k]); }
    if 0 < best { assert Less(errors[best], errors[0]); }
  }

  lemma ZeroMeanError(root: Root, tiny: real, sizes: seq<int>, values: seq<real>, curve: Curve)
    requires 0 < |values| <= |sizes| && tiny >= 0.0 && -tiny <= Mean(values) <= tiny
    ensures FitOf(root, tiny, sizes, values, curve).error == if Reproduces(sizes, values, curve) then Finite(0.0) else Infinite
  {
  }

  // ----- two families the automatic fit does not serve -----

  /** The constant curve and the linear one, the first two of the table. */
  function ConstantAndLinear(): seq<Curve> {
    [n => 1.0, n => n as real]
  }

  /** The sums of a curve over the sizes 1 and 2, in its values `f` and `g` there. */
  lemma SumsOfTwo(x: real, y: real, curve: Curve, f: real, g: real, c: real)
    requires curve(1) == f && curve(2) == g
    ensures Square([1, 2], curve, 2) == f * f + g * g && Cross([1, 2], [x, y], curve, 2) == f * x + g * y
    ensures Squared([1, 2], [x, y], curve, c, 2) == (x - c * f) * (x - c * f) + (y - c * g) * (y - c * g)
    ensures Mean([x, y]) == (x + y) / 2.0
  {
    assert Square([1, 2], curve, 1) == f * f;
    assert Cross([1, 2], [x, y], curve, 1) == f * x;
    assert Squared([1, 2], [x, y], curve, c, 1) == (x - c * f) * (x - c * f);
    assert Total([x, y], 1) == x;
  }

  /** Values -1 and -2 at the sizes 1 and 2: the linear curve reproduces them, and the
      automatic fit keeps the constant one. */
  lemma NegativeMeanLosesTheExactCurve(root: Root, tiny: real)
    requires KeepsOrder(root) && 0.0 <= tiny < 1.5
    ensures var sizes, values, curves := [1, 2], [-1.0, -2.0], ConstantAndLinear();
            && Chosen(Errors(root, tiny, sizes, values, curves), 0)
            && Square(sizes, curves[0], 2) > 0.0 && Least(sizes, values, curves[0]) == 0.5
            && Square(sizes, curves[1], 2) > 0.0 && Least(sizes, values, curves[1]) == 0.0
  {
    var sizes, values, curves := [1, 2], [-1.0, -2.0], ConstantAndLinear();
    SumsOfTwo(-1.0, -2.0, curves[0], 1.0, 1.0, -1.5);
    SumsOfTwo(-1.0, -2.0, curves[1], 1.0, 2.0, -1.0);
    ErrorsCompare(root, tiny, sizes, values, curves[0], curves[1]);
    ErrorsCompare(root, tiny, sizes, values, curves[1], curves[0]);
  }

  /** Values -1 and 1: their mean is zero and neither curve reproduces them, so the constant
      one is kept over the linear one, which leaves less. */
  lemma ZeroMeanLosesTheBetterCurve(root: Root, tiny: real)
    requires tiny >= 0.0
    ensures var sizes, values, curves := [1, 2], [-1.0, 1.0], ConstantAndLinear();
            && Chosen(Errors(root, tiny, sizes, values, curves), 0)
            && Square(sizes, curves[0], 2) > 0.0 && Least(sizes, values, curves[0]) == 2.0
            && Square(sizes, curves[1], 2) > 0.0 && Least(sizes, values, curves[1]) == 1.8
  {
    var sizes, values, curves := [1, 2], [-1.0, 1.0], ConstantAndLinear();
    SumsOfTwo(-1.0, 1.0, curves[0], 1.0, 1.0, 0.0);
    SumsOfTwo(-1.0, 1.0, curves[1], 1.0, 2.0, 0.2);
    assert Least(sizes, values, curves[0]) == 2.0;
    assert Least(sizes, values, curves[1]) == 1.8;
    ZeroMeanError(root, tiny, sizes, values, curves[0]);
    ZeroMeanError(root, tiny, sizes, values, curves[1]);
  }

  // ----- the family -----

  datatype Quantity = Quantity(values: seq<Option<real>>)

  datatype Result = Missing | Chose(curve: nat, fit: Fitted)

  datatype FamilyFit = TooFewInstances | NoPositiveSize | Fits(results: seq<Result>)

  predicate Complete(q: Quantity) {
    forall k | 0 <= k < |q.values| :: q.values[k].Some?
  }

  function Plain(q: Quantity): (r: seq<real>)
    requires Complete(q)
    ensures |r| == |q.values| && forall k | 0 <= k < |r| :: r[k] == q.values[k].value
  {
    seq(|q.values|, k requires 0 <= k < |q.values| => q.values[k].value)
  }

  /** What one quantity's row holds. */
  ghost predicate ResultOk(root: Root, tiny: real, sizes: seq<int>, q: Quantity, curves: seq<Curve>, r: Result)
    requires 0 < |q.values| <= |sizes| && tiny >= 0.0
  {
    if Complete(q) then
      r.Chose? && r.curve < |curves| && r.fit == FitOf(root, tiny, sizes, Plain(q), curves[r.curve])
      && Chosen(Errors(root, tiny, sizes, Plain(q), curves), r.curve)
    else r == Missing
  }

  /** What the caller asks for: the automatic fit, or one entry of the table. */
  datatype BigO = Automatic | Named(entry: nat)

  /** A user function stands alone, a named curve too, and the automatic fit holds the table. */
  function Candidates(table: seq<Curve>, selection: BigO, user: Option<Curve>): seq<Curve>
    requires selection.Named? ==> selection.entry < |table|
  {
    if user.Some? then [user.value]
    else match selection
         case Automatic => table
         case Named(entry) => [table[entry]]
  }

  /** `fitFamily`: the reasons that stop it, in their order, then one row a quantity. */
  method FitFamily(root: Root, tiny: real, sizes: seq<int>, quantities: seq<Quantity>, table: seq<Curve>, selection: BigO,
                   user: Option<Curve>)
    returns (r: FamilyFit)
    requires tiny >= 0.0 && table != [] && (selection.Named? ==> selection.entry < |table|)
    requires forall k | 0 <= k < |quantities| :: |quantities[k].values| == |sizes|
    ensures r == TooFewInstances <==> |sizes| < 2
    ensures r == NoPositiveSize <==> |sizes| >= 2 && exists k :: 0 <= k < |sizes| && sizes[k] <= 0
    ensures r.Fits? ==> |r.results| == |quantities| && forall k | 0 <= k < |quantities| ::
              ResultOk(root, tiny, sizes, quantities[k], Candidates(table, selection, user), r.results[k])
  {
    if |sizes| < 2 {
      return TooFewInstances;
    }
    for k := 0 to |sizes|
      invariant forall j | 0 <= j < k :: sizes[j] > 0
    {
      if sizes[k] <= 0 {
        return NoPositiveSize;
      }
    }
    var curves := Candidates(table, selection, user);
    var results: seq<Result> := [];
    for k := 0 to |quantities|
      invariant |results| == k
      invariant forall j | 0 <= j < k :: ResultOk(root, tiny, sizes, quantities[j], curves, results[j])
    {
      var q := quantities[k];
      if Complete(q) {
        var best, fit := ChooseCurve(root, tiny, sizes, Plain(q), curves);
        results := results + [Chose(best, fit)];
      } else {
        results := results + [Missing];
      }
    }
    r := Fits(results);
  }
}
