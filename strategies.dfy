/** The three strategies that plug into the search engine: each supplies the
    characteristic of a segment (`getValue`), the point at which a segment is
    split (`getPoint`) and the refresh of the Lipschitz estimate `m`
    (`preprocess`). */
module Strategies {
  import opened Samples

  /** Sequential scanning, Piyavskiy's saw-tooth method and Strongin's method;
      the last two carry the Lipschitz safety parameter `m_parameter`. */
  datatype Strategy = SeqScan | Piyavskiy(parameter: real) | Strongin(parameter: real)

  /** The strategies the engine is modelled for: scanning, or a cone strategy
      whose safety parameter exceeds one. */
  predicate WellFormed(st: Strategy) {
    st.SeqScan? || st.parameter > 1.0
  }

  /** `std::fabs` */
  function Abs(x: real): real {
    if x < 0.0 then -x else x
  }

  /** `std::max` */
  function Max(a: real, b: real): real {
    if a < b then b else a
  }

  function Min(a: real, b: real): real {
    if b < a then b else a
  }

  /** The slope `|f(b) - f(a)| / (b - a)` of the chord over one pair. */
  function Slope(f: real -> real, a: real, b: real): (s: real)
    requires a < b
    ensures s >= 0.0
    ensures Abs(f(b) - f(a)) == s * (b - a)
  {
    Abs(f(b) - f(a)) / (b - a)
  }

  /** The slope over the adjacent pair `(xs[i-1], xs[i])`. */
  function PairSlope(f: real -> real, xs: seq<real>, i: int): real
    requires StrictlyIncreasing(xs) && 1 <= i < |xs|
  {
    Slope(f, xs[i - 1], xs[i])
  }

  /** The accumulator `M` of `preprocess`, started at 0 and raised by `std::max`
      over the adjacent pairs from left to right: the largest adjacent slope of
      the sample vector, or 0 when there is no pair. */
  function MaxSlope(f: real -> real, xs: seq<real>): (M: real)
    requires StrictlyIncreasing(xs)
    ensures M >= 0.0
    ensures forall i :: 1 <= i < |xs| ==> PairSlope(f, xs, i) <= M
    ensures M == 0.0 || exists i :: 1 <= i < |xs| && PairSlope(f, xs, i) == M
    decreases |xs|
  {
    if |xs| < 2 then 0.0
    else
      var init := xs[..|xs| - 1];
      assert StrictlyIncreasing(init);
      var prev := MaxSlope(f, init);
      var last := PairSlope(f, xs, |xs| - 1);
      assert forall i :: 1 <= i < |init| ==> PairSlope(f, init, i) == PairSlope(f, xs, i);
      assert prev == 0.0 || exists i :: 1 <= i < |xs| && PairSlope(f, xs, i) == prev by {
        if prev != 0.0 {
          var i :| 1 <= i < |init| && PairSlope(f, init, i) == prev;
          assert PairSlope(f, xs, i) == prev;
        }
      }
      Max(prev, last)
  }

  /** `MaxSlope` of the first `n` samples: the accumulator `M` of `preprocess`
      before it looks at the pair ending at `n`. */
  function PrefixMaxSlope(f: real -> real, xs: seq<real>, n: nat): real
    requires StrictlyIncreasing(xs) && n <= |xs|
  {
    assert StrictlyIncreasing(xs[..n]);
    MaxSlope(f, xs[..n])
  }

  /** Looking at the pair ending at `i` raises the accumulator by `std::max`. */
  lemma PrefixMaxSlopeNext(f: real -> real, xs: seq<real>, i: nat)
    requires StrictlyIncreasing(xs) && 1 <= i < |xs|
    ensures PrefixMaxSlope(f, xs, i + 1) == Max(PrefixMaxSlope(f, xs, i), Slope(f, xs[i - 1], xs[i]))
  {
    var p := xs[..i + 1];
    assert p[..|p| - 1] == xs[..i];
    assert p[|p| - 2] == xs[i - 1] && p[|p| - 1] == xs[i];
  }

  /** The last statement of `preprocess`: the scaled maximum slope, or 1 when the
      maximum is not positive. */
  function Estimate(parameter: real, M: real): (e: real)
    ensures parameter > 0.0 ==> e > 0.0
  {
    if M <= 0.0 then 1.0 else parameter * M
  }

  /** The value of `m` after `preprocess`, given its value `m` before: sequential
      scanning leaves it alone, the cone strategies recompute it from all samples. */
  function Refresh(st: Strategy, f: real -> real, xs: seq<real>, m: real): (m': real)
    requires StrictlyIncreasing(xs)
    ensures st.SeqScan? ==> m' == m
    ensures !st.SeqScan? && st.parameter > 0.0 ==> m' > 0.0
  {
    match st
    case SeqScan => m
    case Piyavskiy(parameter) => Estimate(parameter, MaxSlope(f, xs))
    case Strongin(parameter) => Estimate(parameter, MaxSlope(f, xs))
  }

  /** For the cone strategies the refreshed `m` is 1 when every adjacent chord
      is flat, and otherwise the safety parameter times the steepest adjacent
      slope. */
  lemma RefreshIsScaledMaxSlope(st: Strategy, f: real -> real, xs: seq<real>, m: real)
    requires !st.SeqScan? && StrictlyIncreasing(xs)
    ensures var m' := Refresh(st, f, xs, m);
      ((forall i :: 1 <= i < |xs| ==> PairSlope(f, xs, i) == 0.0) ==> m' == 1.0) &&
      ((exists i :: 1 <= i < |xs| && PairSlope(f, xs, i) > 0.0) ==>
         exists i :: 1 <= i < |xs| && m' == st.parameter * PairSlope(f, xs, i) &&
           forall j :: 1 <= j < |xs| ==> PairSlope(f, xs, j) <= PairSlope(f, xs, i))
  {
    var M := MaxSlope(f, xs);
    assert Refresh(st, f, xs, m) == Estimate(st.parameter, M);
    if M != 0.0 {
      var k :| 1 <= k < |xs| && PairSlope(f, xs, k) == M;
      assert Refresh(st, f, xs, m) == st.parameter * PairSlope(f, xs, k);
    }
  }

  /** `getValue(l, r)`: the priority of the segment `[l, r]`. Scanning ranks a
      segment by its positive width; on a segment of positive width with `m > 0`
      Piyavskiy's estimate of the minimum, `-c`, lies strictly below the mean of
      the two end values (Strongin's is bounded by `StronginEstimateBelowEnds`). */
  function Characteristic(st: Strategy, f: real -> real, m: real, l: real, r: real): (c: real)
    requires st.Strongin? ==> m * (r - l) != 0.0
    ensures st.SeqScan? && l < r ==> c > 0.0
    ensures st.Piyavskiy? && m > 0.0 && l < r ==> c > -(f(l) + f(r)) / 2.0
  {
    match st
    case SeqScan => r - l
    case Piyavskiy(_) =>
      assert m > 0.0 && l < r ==> 0.5 * m * (r - l) > 0.0 by {
        if m > 0.0 && l < r {
          PositiveFactor(m, r - l);
          assert 0.5 * m * (r - l) == 0.5 * (m * (r - l));
        }
      }
      0.5 * m * (r - l) - (f(r) + f(l)) / 2.0
    case Strongin(_) =>
      var z1, z2 := f(l), f(r);
      m * (r - l) + (z2 - z1) * (z2 - z1) / (m * (r - l)) - 2.0 * (z1 + z2)
  }

  /** `getPoint(l, r)`: sequential scanning takes the point equidistant from both
      ends; the cone strategies take the point where the cone falling from `l`
      with slope `m` meets the cone rising to `r` with slope `m`. */
  function SplitPoint(st: Strategy, f: real -> real, m: real, l: real, r: real): (p: real)
    requires !st.SeqScan? ==> m != 0.0
    ensures st.SeqScan? ==> p - l == r - p
    ensures !st.SeqScan? ==> f(l) - m * (p - l) == f(r) - m * (r - p)
  {
    match st
    case SeqScan => (l + r) / 2.0
    case Piyavskiy(_) => 0.5 * (r + l) - (f(r) - f(l)) / (2.0 * m)
    case Strongin(_) => 0.5 * (r + l) - (f(r) - f(l)) / (2.0 * m)
  }

  /** The split point lies strictly inside the segment exactly when the segment's
      chord is flatter than the cones: always for scanning, and for the cone
      strategies iff `|f(r) - f(l)| < m * (r - l)`. */
  lemma SplitInside(st: Strategy, f: real -> real, m: real, l: real, r: real)
    requires l < r && (!st.SeqScan? ==> m > 0.0)
    ensures var p := SplitPoint(st, f, m, l, r);
      (l < p < r) <==> (st.SeqScan? || Abs(f(r) - f(l)) < m * (r - l))
  {
    var p := SplitPoint(st, f, m, l, r);
    if !st.SeqScan? {
      var d := f(r) - f(l);
      var w := r - l;
      // p - l and r - p, scaled by 2m
      assert 2.0 * m * (p - l) == m * w - d;
      assert 2.0 * m * (r - p) == m * w + d;
      assert (l < p) <==> d < m * w by {
        PositiveFactor(2.0 * m, p - l);
      }
      assert (p < r) <==> -d < m * w by {
        PositiveFactor(2.0 * m, r - p);
        assert (p < r) <==> r - p > 0.0;
        assert (2.0 * m * (r - p) > 0.0) <==> m * w + d > 0.0;
      }
    }
  }

  /** With `c > 0`, `c * x` has the sign of `x`. */
  lemma PositiveFactor(c: real, x: real)
    requires c > 0.0
    ensures (c * x > 0.0) <==> (x > 0.0)
  {
    if x > 0.0 {
      assert c * x > 0.0;
    } else {
      assert c * x <= 0.0 by {
        assert c * (-x) >= 0.0;
      }
    }
  }

  /** Multiplying by a positive `w` keeps a strict order. */
  lemma ScaleStrict(a: real, b: real, w: real)
    requires a < b && w > 0.0
    ensures a * w < b * w
  {
    PositiveFactor(w, b - a);
    assert w * (b - a) == b * w - a * w;
  }

  /** A chord whose slope is below `c` rises or falls by less than `c` times its width. */
  lemma ChordFlatter(f: real -> real, a: real, b: real, c: real)
    requires a < b && Slope(f, a, b) < c
    ensures Abs(f(b) - f(a)) < c * (b - a)
  {
    ScaleStrict(Slope(f, a, b), c, b - a);
  }

  /** Piyavskiy's saw-tooth minorant on `[l, r]`: the larger of the two cones of
      slope `m` anchored at the ends. */
  function Minorant(f: real -> real, m: real, l: real, r: real, x: real): real {
    Max(f(l) - m * (x - l), f(r) - m * (r - x))
  }

  /** Piyavskiy's characteristic is the depth of the saw-tooth: its negation is
      the minorant's value at the split point, and the minorant never goes lower
      anywhere on the segment. */
  lemma SawToothDepth(parameter: real, f: real -> real, m: real, l: real, r: real)
    requires l < r && m > 0.0
    ensures var st := Piyavskiy(parameter);
      var v := Characteristic(st, f, m, l, r);
      var p := SplitPoint(st, f, m, l, r);
      Minorant(f, m, l, r, p) == -v &&
      forall x :: l <= x <= r ==> Minorant(f, m, l, r, x) >= -v
  {
    var st := Piyavskiy(parameter);
    var v := Characteristic(st, f, m, l, r);
    var p := SplitPoint(st, f, m, l, r);
    assert 2.0 * m * (p - l) == m * (r - l) - (f(r) - f(l));
    assert f(l) - m * (p - l) == -v;
    forall x | l <= x <= r ensures Minorant(f, m, l, r, x) >= -v {
      if x <= p {
        assert m * (p - x) >= 0.0;
        assert f(l) - m * (x - l) >= f(l) - m * (p - l);
      } else {
        assert m * (x - p) >= 0.0;
        assert f(r) - m * (r - x) >= f(r) - m * (r - p);
      }
    }
  }

  /** Strongin's characteristic `R` read as the estimate `-R/4` of the segment's
      minimum never exceeds the better of the two end values. */
  lemma StronginEstimateBelowEnds(parameter: real, f: real -> real, m: real, l: real, r: real)
    requires l < r && m > 0.0
    ensures -Characteristic(Strongin(parameter), f, m, l, r) / 4.0 <= Min(f(l), f(r))
  {
    var a := m * (r - l);
    var d := f(r) - f(l);
    assert a > 0.0;
    var q := d * d / a;
    assert q * a == d * d;
    // a + d^2/a >= 2|d|, because a * (a + d^2/a - 2|d|) = (a - |d|)^2 >= 0
    assert a * (a + q - 2.0 * Abs(d)) == (a - Abs(d)) * (a - Abs(d));
    assert (a - Abs(d)) * (a - Abs(d)) >= 0.0;
    assert a + q - 2.0 * Abs(d) >= 0.0 by {
      if a + q - 2.0 * Abs(d) < 0.0 {
        PositiveFactor(a, -(a + q - 2.0 * Abs(d)));
      }
    }
  }

  /** A safety parameter above one puts the estimate strictly above any slope
      that does not exceed the maximum. */
  lemma EstimateAbove(parameter: real, M: real, s: real)
    requires parameter > 1.0 && 0.0 <= s <= M
    ensures Estimate(parameter, M) > s
  {
    if M > 0.0 {
      PositiveFactor(M, parameter - 1.0);
      assert parameter * M - M == (parameter - 1.0) * M;
    }
  }

  /** The refreshed estimate is steeper than every adjacent chord of the samples
      it was computed from, once the safety parameter exceeds one. */
  lemma RefreshDominatesSlopes(st: Strategy, f: real -> real, xs: seq<real>, m: real, i: int)
    requires WellFormed(st) && !st.SeqScan?
    requires StrictlyIncreasing(xs) && 1 <= i < |xs|
    ensures Abs(f(xs[i]) - f(xs[i - 1])) < Refresh(st, f, xs, m) * (xs[i] - xs[i - 1])
  {
    var M := MaxSlope(f, xs);
    var s := PairSlope(f, xs, i);
    assert Refresh(st, f, xs, m) == Estimate(st.parameter, M);
    assert 0.0 <= s <= M;
    EstimateAbove(st.parameter, M, s);
    assert xs[i - 1] < xs[i];
    ChordFlatter(f, xs[i - 1], xs[i], Refresh(st, f, xs, m));
  }

  /** On a constant objective the cone strategies fall back to `m = 1` and split
      every segment at its midpoint, like sequential scanning. */
  lemma FlatObjective(st: Strategy, f: real -> real, c: real, xs: seq<real>, m: real, l: real, r: real)
    requires !st.SeqScan? && StrictlyIncreasing(xs)
    requires forall x :: f(x) == c
    ensures Refresh(st, f, xs, m) == 1.0
    ensures SplitPoint(st, f, 1.0, l, r) == (l + r) / 2.0
  {
    var M := MaxSlope(f, xs);
    forall i | 1 <= i < |xs| ensures PairSlope(f, xs, i) == 0.0 {
      assert f(xs[i]) == c && f(xs[i - 1]) == c;
    }
    assert Refresh(st, f, xs, m) == Estimate(st.parameter, M);
    assert f(r) - f(l) == 0.0 by {
      assert f(r) == c && f(l) == c;
    }
  }
}
