/** The search engine `IMethod`: the loop of `execute`, the choice of the segment
    to split (`getOptimalInex`) and the sample vector `m_x`.
    The loop is given twice: as the pure transition `Step` iterated by `Run`,
    where its properties are proved, and as the class `Method` (`IMethod`), whose methods
    update the fields in place and are proved to follow `Step` and `Run`. */
module Engine {
  import opened Samples
  import opened Strategies

  /** `uint32_t` */
  newtype uint32 = x: int | 0 <= x < 0x1_0000_0000

  function MaxInt(a: int, b: int): int {
    if a < b then b else a
  }

  /** `std::numeric_limits<double>::min()`: the smallest positive normal double,
      2^-1022. `getOptimalInex` starts its running maximum here. */
  const DoubleMin: real := 1.0 / 44942328371557897693232629769725618340449424473557664318357520289433168951375240783177119330601884005280028469967848339414697442203604155623211857659868531094441973356216371319075554900311523529863270738021251442209537670585615720368478277635206809290837627671146574559986811484619929076208839082406056034304.0

  /** 2^n, as an independent reference for `DoubleMin`. */
  function Pow2(n: nat): (p: real)
    ensures p > 0.0
  {
    if n == 0 then 1.0 else 2.0 * Pow2(n - 1)
  }

  /** 2^(a+b) = 2^a * 2^b. */
  lemma {:induction false} Pow2Split(n: nat, a: nat, b: nat)
    requires n == a + b
    ensures Pow2(n) == Pow2(a) * Pow2(b)
    decreases a
  {
    if a > 0 {
      Pow2Split(n - 1, a - 1, b);
    }
  }

  /** 2^63 and 2^511, reached through the exponents 1, 3, 7, ..., 511, each one
      twice the previous plus one. */
  lemma Pow2At63()
    ensures Pow2(63) == 9223372036854775808.0
  {
    assert Pow2(1) == 2.0;
    Pow2Split(3, 1, 2);
    assert Pow2(3) == 8.0;
    Pow2Split(7, 3, 4);
    assert Pow2(7) == 128.0;
    Pow2Split(15, 7, 8);
    assert Pow2(15) == 32768.0;
    Pow2Split(31, 15, 16);
    assert Pow2(31) == 2147483648.0;
    Pow2Split(63, 31, 32);
  }

  lemma Pow2At511()
    ensures Pow2(511) == 6703903964971298549787012499102923063739682910296196688861780721860882015036773488400937149083451713845015929093243025426876941405973284973216824503042048.0
  {
    Pow2At63();
    Pow2Split(127, 63, 64);
    assert Pow2(127) == 170141183460469231731687303715884105728.0;
    Pow2Split(255, 127, 128);
    assert Pow2(255) == 57896044618658097711785492504343953926634992332820282019728792003956564819968.0;
    Pow2Split(511, 255, 256);
  }

  /** `DoubleMin` is exactly 2^-1022, the least positive normal IEEE double. */
  lemma DoubleMinIsPow2()
    ensures DoubleMin * Pow2(1022) == 1.0
  {
    Pow2At511();
    Pow2Split(1022, 511, 511);
  }

  /** The vectors on which the strategy hooks are well defined: strictly
      ascending, and with a positive `m` for the cone strategies. */
  predicate Admissible(st: Strategy, m: real, xs: seq<real>) {
    StrictlyIncreasing(xs) && (st.SeqScan? || m > 0.0)
  }

  /** `getValue(m_x[i - 1], m_x[i])` */
  function PairValue(st: Strategy, f: real -> real, m: real, xs: seq<real>, i: int): (v: real)
    requires Admissible(st, m, xs) && 1 <= i < |xs|
    ensures st.SeqScan? ==> v > 0.0
  {
    assert xs[i - 1] < xs[i];
    Characteristic(st, f, m, xs[i - 1], xs[i])
  }

  /** The pair `(maxValue, index)` of `getOptimalInex` once its loop has looked at
      the pairs ending at `1 .. n - 1`, starting from `(DoubleMin, 1)` and taking
      a pair over only when its characteristic is strictly larger. */
  function ScanPairs(st: Strategy, f: real -> real, m: real, xs: seq<real>, n: nat): (acc: (real, nat))
    requires Admissible(st, m, xs) && 2 <= |xs| && 1 <= n <= |xs|
    ensures 1 <= acc.1 < |xs|
  {
    if n == 1 then (DoubleMin, 1)
    else
      var prev := ScanPairs(st, f, m, xs, n - 1);
      var value := PairValue(st, f, m, xs, n - 1);
      if value > prev.0 then (value, n - 1) else prev
  }

  /** After the pairs ending at `1 .. n - 1`, `maxValue` bounds their
      characteristics and `index` is the first pair attaining it when it exceeds
      `DoubleMin`; otherwise the accumulator is still `(DoubleMin, 1)`. */
  lemma {:induction false} ScanPairsFirstMax(st: Strategy, f: real -> real, m: real, xs: seq<real>, n: nat)
    requires Admissible(st, m, xs) && 2 <= |xs| && 1 <= n <= |xs|
    ensures var acc := ScanPairs(st, f, m, xs, n);
      (forall i :: 1 <= i < n ==> PairValue(st, f, m, xs, i) <= acc.0) &&
      (forall i :: 1 <= i < acc.1 ==> PairValue(st, f, m, xs, i) < acc.0) &&
      ((acc.0 == DoubleMin && acc.1 == 1) ||
       (acc.1 < n && acc.0 == PairValue(st, f, m, xs, acc.1) && acc.0 > DoubleMin))
  {
    if n > 1 {
      ScanPairsFirstMax(st, f, m, xs, n - 1);
    }
  }

  /** `getOptimalInex`: the index `i` of the pair `(m_x[i - 1], m_x[i])` to split. */
  function OptimalIndex(st: Strategy, f: real -> real, m: real, xs: seq<real>): (k: nat)
    requires Admissible(st, m, xs) && |xs| >= 2
    ensures 1 <= k < |xs|
  {
    ScanPairs(st, f, m, xs, |xs|).1
  }

  /** The index is the first one with the largest characteristic when some
      characteristic exceeds `DoubleMin`, and 1 when none does. */
  lemma OptimalIndexFirstMax(st: Strategy, f: real -> real, m: real, xs: seq<real>)
    requires Admissible(st, m, xs) && |xs| >= 2
    ensures var k := OptimalIndex(st, f, m, xs);
      ((forall i :: 1 <= i < |xs| ==> PairValue(st, f, m, xs, i) <= DoubleMin) ==> k == 1) &&
      ((exists i :: 1 <= i < |xs| && PairValue(st, f, m, xs, i) > DoubleMin) ==>
         PairValue(st, f, m, xs, k) > DoubleMin &&
         (forall i :: 1 <= i < |xs| ==> PairValue(st, f, m, xs, i) <= PairValue(st, f, m, xs, k)) &&
         (forall i :: 1 <= i < k ==> PairValue(st, f, m, xs, i) < PairValue(st, f, m, xs, k)))
  {
    ScanPairsFirstMax(st, f, m, xs, |xs|);
  }

  /** Conversely, the first index with the largest characteristic, when that
      characteristic exceeds `DoubleMin`, is the one `getOptimalInex` returns. */
  lemma FirstMaxIsOptimal(st: Strategy, f: real -> real, m: real, xs: seq<real>, k: nat)
    requires Admissible(st, m, xs) && |xs| >= 2 && 1 <= k < |xs|
    requires PairValue(st, f, m, xs, k) > DoubleMin
    requires forall i :: 1 <= i < |xs| ==> PairValue(st, f, m, xs, i) <= PairValue(st, f, m, xs, k)
    requires forall i :: 1 <= i < k ==> PairValue(st, f, m, xs, i) < PairValue(st, f, m, xs, k)
    ensures OptimalIndex(st, f, m, xs) == k
  {
    OptimalIndexFirstMax(st, f, m, xs);
  }

  /** What `execute` keeps between iterations: the sample vector `m_x`, the
      estimate `m`, `globalMin`, `currPoint`, `currCount` and `currEps` (the width
      of the segment split last). `order` lists the evaluated points in the order
      of evaluation; the source does not keep it, it serves to state which
      minimiser `currPoint` is. */
  datatype State = State(xs: seq<real>, m: real, best: real, point: real,
                         count: nat, width: real, order: seq<real>)

  /** `best` is the least value of `f` over `order`, and `k` the first position
      where it is attained. */
  ghost predicate FirstMinimum(f: real -> real, order: seq<real>, k: int, best: real) {
    0 <= k < |order| && f(order[k]) == best &&
    (forall j :: 0 <= j < |order| ==> best <= f(order[j])) &&
    (forall j :: 0 <= j < k ==> best < f(order[j]))
  }

  /** The invariant of the loop of `execute`: the vector has the two bounds plus
      one point per iteration, strictly ascending, holds exactly the evaluated
      points, and `(best, point)` is the first minimiser in evaluation order. */
  ghost predicate Inv(f: real -> real, s: State) {
    |s.xs| == s.count + 2 &&
    StrictlyIncreasing(s.xs) &&
    multiset(s.xs) == multiset(s.order) &&
    exists k :: FirstMinimum(f, s.order, k, s.best) && s.order[k] == s.point
  }

  /** The state before the first iteration: both bounds in the vector, and the
      better bound as the best so far, `x2` only when `f(x1) > f(x2)`.
      `width` stands for `currEps`, which the first iteration overwrites before
      it is read; `m` is whatever the object held. */
  function Init(f: real -> real, x1: real, x2: real, m: real): (s: State)
    ensures x1 < x2 ==> Inv(f, s)
    ensures s.count == 0 && s.xs == [x1, x2] && s.order == [x1, x2]
  {
    var s := if f(x1) > f(x2) then State([x1, x2], m, f(x2), x2, 0, 0.0, [x1, x2])
             else State([x1, x2], m, f(x1), x1, 0, 0.0, [x1, x2]);
    assert x1 < x2 ==> StrictlyIncreasing(s.xs);
    assert f(x1) > f(x2) ==> FirstMinimum(f, s.order, 1, s.best);
    assert f(x1) <= f(x2) ==> FirstMinimum(f, s.order, 0, s.best);
    s
  }

  /** Evaluating one more point keeps `(best, point)` the first minimiser:
      the new point takes over only on a strict improvement. */
  lemma NextBest(f: real -> real, order: seq<real>, best: real, point: real, x: real)
    requires exists k :: FirstMinimum(f, order, k, best) && order[k] == point
    ensures var better := f(x) < best;
      exists k :: FirstMinimum(f, order + [x], k, if better then f(x) else best) &&
                  (order + [x])[k] == if better then x else point
  {
    var k :| FirstMinimum(f, order, k, best) && order[k] == point;
    if f(x) < best {
      assert FirstMinimum(f, order + [x], |order|, f(x));
    } else {
      assert FirstMinimum(f, order + [x], k, best);
    }
  }

  /** The split point of the chosen pair lies strictly inside it, once `m` has
      been refreshed from the same vector. */
  lemma SplitStrictlyInside(st: Strategy, f: real -> real, xs: seq<real>, m: real, k: int)
    requires WellFormed(st) && StrictlyIncreasing(xs) && 1 <= k < |xs|
    ensures var m' := Refresh(st, f, xs, m);
      xs[k - 1] < SplitPoint(st, f, m', xs[k - 1], xs[k]) < xs[k]
  {
    var m' := Refresh(st, f, xs, m);
    assert xs[k - 1] < xs[k];
    if !st.SeqScan? {
      RefreshDominatesSlopes(st, f, xs, m, k);
    }
    SplitInside(st, f, m', xs[k - 1], xs[k]);
  }

  /** The first and the last sample. */
  function Bounds(xs: seq<real>): (real, real)
    requires |xs| > 0
  {
    (xs[0], xs[|xs| - 1])
  }

  /** The pair `getOptimalInex` picks once `preprocess` has refreshed `m`, and
      the point `getPoint` returns for it: the index `k` of the pair
      `(xs[k - 1], xs[k])` and a point strictly between the two. */
  function Target(st: Strategy, f: real -> real, xs: seq<real>, m: real): (t: (nat, real))
    requires WellFormed(st) && |xs| >= 2 && StrictlyIncreasing(xs)
    ensures 1 <= t.0 < |xs| && xs[t.0 - 1] < t.1 < xs[t.0]
  {
    var m' := Refresh(st, f, xs, m);
    var k := OptimalIndex(st, f, m', xs);
    SplitStrictlyInside(st, f, xs, m, k);
    (k, SplitPoint(st, f, m', xs[k - 1], xs[k]))
  }

  /** One pass of the do-while body of `execute`: refresh `m`, pick the pair,
      split it, add the point to the sorted vector, evaluate it, update the best
      and count the iteration. */
  function Step(st: Strategy, f: real -> real, s: State): (n: State)
    requires WellFormed(st) && |s.xs| >= 2 && StrictlyIncreasing(s.xs)
    ensures n.count == s.count + 1 && |n.xs| == |s.xs| + 1
  {
    var t := Target(st, f, s.xs, s.m);
    var left, right, middle := s.xs[t.0 - 1], s.xs[t.0], t.1;
    var value := f(middle);
    State(Insert(s.xs, middle), Refresh(st, f, s.xs, s.m),
          if value < s.best then value else s.best,
          if value < s.best then middle else s.point,
          s.count + 1, Abs(right - left), s.order + [middle])
  }

  /** One pass keeps the invariant: the new point lands strictly between the two
      neighbours it splits, so the vector stays strictly ascending with one more
      point per pass, and the best pair stays the first minimiser. */
  lemma StepKeepsInv(st: Strategy, f: real -> real, s: State)
    requires WellFormed(st) && Inv(f, s)
    ensures Inv(f, Step(st, f, s))
  {
    var t := Target(st, f, s.xs, s.m);
    var n := Step(st, f, s);
    InsertInside(s.xs, t.1, t.0);
    assert multiset(n.xs) == multiset(n.order) by {
      assert multiset(s.order + [t.1]) == multiset(s.order) + multiset{t.1};
    }
    NextBest(f, s.order, s.best, s.point, t.1);
  }

  /** One pass puts the new point between the two ends of the chosen pair,
      appends it to the evaluation order and records the pair's width. */
  lemma StepInserts(st: Strategy, f: real -> real, s: State)
    requires WellFormed(st) && |s.xs| >= 2 && StrictlyIncreasing(s.xs)
    ensures var t := Target(st, f, s.xs, s.m);
      var n := Step(st, f, s);
      n.xs == s.xs[..t.0] + [t.1] + s.xs[t.0..] && n.order == s.order + [t.1] &&
      n.width == s.xs[t.0] - s.xs[t.0 - 1]
  {
    var t := Target(st, f, s.xs, s.m);
    InsertBetween(s.xs, t.1, t.0);
  }

  /** One pass keeps the vector strictly ascending and both bounds as its
      outermost samples. */
  lemma StepKeepsBounds(st: Strategy, f: real -> real, s: State)
    requires WellFormed(st) && |s.xs| >= 2 && StrictlyIncreasing(s.xs)
    ensures var n := Step(st, f, s);
      StrictlyIncreasing(n.xs) && Bounds(n.xs) == Bounds(s.xs)
  {
    var t := Target(st, f, s.xs, s.m);
    InsertInside(s.xs, t.1, t.0);
  }

  /** One pass evaluates one more point, splits a pair of positive width and
      never raises the best value. */
  lemma StepProgress(st: Strategy, f: real -> real, s: State)
    requires WellFormed(st) && |s.xs| >= 2 && StrictlyIncreasing(s.xs)
    ensures var n := Step(st, f, s);
      n.best <= s.best && s.order < n.order && n.width > 0.0
  {
    var t := Target(st, f, s.xs, s.m);
    assert s.xs[t.0 - 1] < s.xs[t.0];
  }

  /** The do-while loop from a given state: one pass, then another while the
      width just split is at least `eps` and fewer than `maxCount` passes ran. */
  function Run(st: Strategy, f: real -> real, eps: real, maxCount: nat, s: State): (r: State)
    requires WellFormed(st) && |s.xs| >= 2 && StrictlyIncreasing(s.xs)
    ensures r.count > s.count
    ensures r.width < eps || r.count >= maxCount
    decreases maxCount - s.count
  {
    var n := Step(st, f, s);
    StepKeepsBounds(st, f, s);
    if n.width >= eps && n.count < maxCount then Run(st, f, eps, maxCount, n) else n
  }

  /** The do-while rule: after a pass the loop goes on exactly when the width
      just split is at least `eps` and fewer than `maxCount` passes ran. */
  lemma RunUnfold(st: Strategy, f: real -> real, eps: real, maxCount: nat, s: State)
    requires WellFormed(st) && |s.xs| >= 2 && StrictlyIncreasing(s.xs)
    ensures var n := Step(st, f, s);
      |n.xs| >= 2 && StrictlyIncreasing(n.xs) &&
      (n.width >= eps && n.count < maxCount ==> Run(st, f, eps, maxCount, s) == Run(st, f, eps, maxCount, n)) &&
      (!(n.width >= eps && n.count < maxCount) ==> Run(st, f, eps, maxCount, s) == n)
  {
    StepKeepsBounds(st, f, s);
  }

  /** The loop runs at least once, stops only by one of its two rules, and never
      runs more than `maxCount` passes counted from zero, except for the one
      pass a do-while always makes. */
  lemma {:induction false} RunCount(st: Strategy, f: real -> real, eps: real, maxCount: nat, s: State)
    requires WellFormed(st) && |s.xs| >= 2 && StrictlyIncreasing(s.xs)
    ensures var r := Run(st, f, eps, maxCount, s);
      s.count < r.count <= MaxInt(s.count + 1, maxCount) &&
      |r.xs| == |s.xs| + (r.count - s.count) &&
      (r.width < eps || r.count >= maxCount)
    decreases maxCount - s.count
  {
    var n := Step(st, f, s);
    StepKeepsBounds(st, f, s);
    if n.width >= eps && n.count < maxCount {
      RunCount(st, f, eps, maxCount, n);
    }
  }

  /** The loop keeps the invariant. */
  lemma {:induction false} RunKeepsInv(st: Strategy, f: real -> real, eps: real, maxCount: nat, s: State)
    requires WellFormed(st) && Inv(f, s)
    ensures Inv(f, Run(st, f, eps, maxCount, s))
    decreases maxCount - s.count
  {
    var n := Step(st, f, s);
    StepKeepsInv(st, f, s);
    if n.width >= eps && n.count < maxCount {
      RunKeepsInv(st, f, eps, maxCount, n);
    }
  }

  /** The loop never raises the best value, only appends to the evaluation
      order and keeps both bounds as the outermost samples. */
  lemma {:induction false} RunProgress(st: Strategy, f: real -> real, eps: real, maxCount: nat, s: State)
    requires WellFormed(st) && |s.xs| >= 2 && StrictlyIncreasing(s.xs)
    ensures var r := Run(st, f, eps, maxCount, s);
      r.best <= s.best && s.order < r.order &&
      StrictlyIncreasing(r.xs) && |r.xs| > |s.xs| && Bounds(r.xs) == Bounds(s.xs)
    decreases maxCount - s.count
  {
    var n := Step(st, f, s);
    StepKeepsBounds(st, f, s);
    StepProgress(st, f, s);
    if n.width >= eps && n.count < maxCount {
      RunProgress(st, f, eps, maxCount, n);
    }
  }

  /** What `execute` returns on `[x1, x2]`: between 1 and max(1, maxCount)
      iterations, a strictly ascending vector from `x1` to `x2` holding the two
      bounds and one point per iteration, and the value at `point`, a sample,
      below or equal to the value at every sample. Among the evaluated points,
      which start with `x1, x2`, `point` is the first with that value. */
  lemma RunFromInit(st: Strategy, f: real -> real, eps: real, maxCount: nat, x1: real, x2: real, m: real)
    requires WellFormed(st) && x1 < x2
    ensures var r := Run(st, f, eps, maxCount, Init(f, x1, x2, m));
      1 <= r.count <= MaxInt(1, maxCount) && |r.xs| == r.count + 2 &&
      StrictlyIncreasing(r.xs) && Bounds(r.xs) == (x1, x2) &&
      r.best == f(r.point) && r.point in r.xs &&
      (forall x :: x in r.xs ==> r.best <= f(x)) &&
      r.best <= f(x1) && r.best <= f(x2) &&
      [x1, x2] < r.order &&
      exists k :: FirstMinimum(f, r.order, k, r.best) && r.order[k] == r.point
  {
    var s := Init(f, x1, x2, m);
    RunCount(st, f, eps, maxCount, s);
    RunKeepsInv(st, f, eps, maxCount, s);
    RunProgress(st, f, eps, maxCount, s);
    FinalSamples(f, Run(st, f, eps, maxCount, s));
    assert s.best <= f(x1) && s.best <= f(x2);
  }

  /** The strategy object: configuration fixed at construction, the sample vector
      `m_x` and the estimate `m` (sequential scanning never reads `m`). */
  class Method {
    const strategy: Strategy
    const maxCount: uint32
    const eps: real
    const f: real -> real
    var xs: seq<real>
    var m: real

    /** A fresh object: nothing sampled yet. */
    constructor (strategy: Strategy, maxCount: uint32, eps: real, f: real -> real)
      ensures this.strategy == strategy && this.maxCount == maxCount
      ensures this.eps == eps && this.f == f
      ensures xs == []
    {
      this.strategy := strategy;
      this.maxCount := maxCount;
      this.eps := eps;
      this.f := f;
      xs := [];
      m := 0.0;
    }

    /** `getXVector`: a copy of the sample vector. */
    function SampledPoints(): (r: seq<real>)
      reads this
      ensures r == xs
    {
      xs
    }

    /** `preprocess`: no-op for sequential scanning; the cone strategies scan the
        adjacent pairs for the largest slope and set `m` from it. */
    method Preprocess()
      requires |xs| >= 2 && StrictlyIncreasing(xs)
      modifies this`m
      ensures m == Refresh(strategy, f, xs, old(m))
    {
      if !strategy.SeqScan? {
        var M := 0.0;
        for i := 1 to |xs|
          invariant M == PrefixMaxSlope(f, xs, i)
        {
          var prevX := xs[i - 1];
          var currX := xs[i];
          assert prevX < currX;
          M := Max(M, Slope(f, prevX, currX));
          PrefixMaxSlopeNext(f, xs, i);
        }
        assert xs[..|xs|] == xs;
        assert M == MaxSlope(f, xs);
        m := Estimate(strategy.parameter, M);
      }
    }

    /** `getOptimalInex`, as the loop over the adjacent pairs. */
    method GetOptimalIndex() returns (index: nat)
      requires |xs| >= 2 && Admissible(strategy, m, xs)
      ensures index == OptimalIndex(strategy, f, m, xs)
    {
      var maxValue := DoubleMin;
      index := 1;
      for i := 1 to |xs|
        invariant (maxValue, index) == ScanPairs(strategy, f, m, xs, i)
      {
        var value := Characteristic(strategy, f, m, xs[i - 1], xs[i]);
        if value > maxValue {
          maxValue := value;
          index := i;
        }
      }
    }

    /** The part of the do-while body of `execute` that works on the vector:
        refresh `m`, pick the pair, split it and sort the new point in. Returns
        the new point and the width of the pair it split; the vector and `m` are
        those of `Step`. */
    method SplitOptimal(ghost s: State) returns (middle: real, width: real)
      requires WellFormed(strategy) && |s.xs| >= 2 && StrictlyIncreasing(s.xs)
      requires xs == s.xs && m == s.m
      modifies this`xs, this`m
      ensures var n := Step(strategy, f, s);
        xs == n.xs && m == n.m && width == n.width && n.order == s.order + [middle] &&
        n.best == (if f(middle) < s.best then f(middle) else s.best) &&
        n.point == (if f(middle) < s.best then middle else s.point)
    {
      Preprocess();
      var index := GetOptimalIndex();
      var left := xs[index - 1];
      var right := xs[index];
      middle := SplitPoint(strategy, f, m, left, right);
      assert (index, middle) == Target(strategy, f, s.xs, s.m);
      width := Abs(right - left);
      xs := Insert(xs, middle);
    }

    /** The do-while loop of `execute` from the state `s` it has set up: the
        outputs, the vector and `m` are those `Run` reaches from `s`. */
    method Search(ghost s: State, globalMin: real, currPoint: real) returns (count: uint32, min: real, point: real)
      requires WellFormed(strategy) && |s.xs| >= 2 && StrictlyIncreasing(s.xs)
      requires xs == s.xs && m == s.m && s.count == 0 && s.width == 0.0
      requires s.best == globalMin && s.point == currPoint
      modifies this`xs, this`m
      ensures var r := Run(strategy, f, eps, maxCount as nat, s);
        count as int == r.count && min == r.best && point == r.point && xs == r.xs && m == r.m
    {
      min, point := globalMin, currPoint;
      count := 0;
      var currEps := 0.0;
      ghost var order := s.order;
      ghost var goal := Run(strategy, f, eps, maxCount as nat, s);
      while true
        invariant count == 0 || count < maxCount
        invariant |xs| >= 2 && StrictlyIncreasing(xs)
        invariant Run(strategy, f, eps, maxCount as nat,
                      State(xs, m, min, point, count as nat, currEps, order)) == goal
        decreases maxCount as int - count as int + 1
      {
        ghost var cur := State(xs, m, min, point, count as nat, currEps, order);
        var middle;
        middle, currEps := SplitOptimal(cur);
        var currMin := f(middle);
        order := order + [middle];
        if currMin < min {
          min := currMin;
          point := middle;
        }
        count := count + 1;
        assert State(xs, m, min, point, count as nat, currEps, order) == Step(strategy, f, cur);
        StepKeepsBounds(strategy, f, cur);
        if !(currEps >= eps && count < maxCount) {
          assert goal == State(xs, m, min, point, count as nat, currEps, order);
          break;
        }
      }
    }

    /** `execute(&count, &min, &point, x1, x2)` on a fresh object. The outputs
        and the final vector are those of `Run` from `Init`; in particular the
        loop ran between 1 and max(1, maxCount) times, the vector holds the two
        bounds and one point per iteration in strictly ascending order, `min` is
        `f(point)` and no sample has a smaller value, and `min` does not exceed
        the value at either bound. */
    method Execute(x1: real, x2: real) returns (count: uint32, min: real, point: real)
      requires xs == [] && x1 < x2 && WellFormed(strategy)
      modifies this
      ensures var r := Run(strategy, f, eps, maxCount as nat, Init(f, x1, x2, old(m)));
        count as int == r.count && min == r.best && point == r.point && xs == r.xs && m == r.m
      ensures 1 <= count as int <= MaxInt(1, maxCount as int)
      ensures |xs| == 2 + count as int
      ensures StrictlyIncreasing(xs) && Bounds(xs) == (x1, x2)
      ensures min == f(point) && point in xs
      ensures forall x :: x in xs ==> min <= f(x)
      ensures min <= f(x1) && min <= f(x2)
    {
      var globalMin, currPoint;
      if f(x1) > f(x2) {
        globalMin := f(x2);
        currPoint := x2;
      } else {
        globalMin := f(x1);
        currPoint := x1;
      }
      xs := xs + [x1];
      xs := xs + [x2];
      ghost var start := Init(f, x1, x2, m);
      assert start == State(xs, m, globalMin, currPoint, 0, 0.0, [x1, x2]);
      count, min, point := Search(start, globalMin, currPoint);
      RunFromInit(strategy, f, eps, maxCount as nat, x1, x2, old(m));
    }
  }

  /** The samples of a state satisfying the invariant are all evaluated points,
      `best` is the value at `point`, one of them, and no sample has a smaller value. */
  lemma FinalSamples(f: real -> real, s: State)
    requires Inv(f, s)
    ensures s.best == f(s.point) && s.point in s.xs
    ensures forall x :: x in s.xs ==> s.best <= f(x)
  {
    var k :| FirstMinimum(f, s.order, k, s.best) && s.order[k] == s.point;
    assert s.point in multiset(s.order);
    forall x | x in s.xs ensures s.best <= f(x) {
      assert x in multiset(s.order);
      var j :| 0 <= j < |s.order| && s.order[j] == x;
    }
  }
}
