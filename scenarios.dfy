/** Concrete behaviour of the engine: the order in which sequential scanning
    visits `[0, 8]`, and the effect of starting the running maximum of
    `getOptimalInex` at the smallest positive normal double, 2^-1022. */
module Scenarios {
  import opened Samples
  import opened Strategies
  import opened Engine

  /** Sequential scanning picks the first widest pair and its midpoint. */
  lemma SeqScanTarget(f: real -> real, xs: seq<real>, m: real, k: nat)
    requires |xs| >= 2 && StrictlyIncreasing(xs) && 1 <= k < |xs|
    requires xs[k] - xs[k - 1] > DoubleMin
    requires forall i :: 1 <= i < |xs| ==> xs[i] - xs[i - 1] <= xs[k] - xs[k - 1]
    requires forall i :: 1 <= i < k ==> xs[i] - xs[i - 1] < xs[k] - xs[k - 1]
    ensures Target(SeqScan, f, xs, m) == (k, (xs[k - 1] + xs[k]) / 2.0)
  {
    forall i | 1 <= i < |xs| ensures PairValue(SeqScan, f, m, xs, i) == xs[i] - xs[i - 1] {
    }
    FirstMaxIsOptimal(SeqScan, f, m, xs, k);
  }

  /** One pass of sequential scanning puts the midpoint of the first widest
      pair between its two ends. */
  lemma SeqScanStep(f: real -> real, s: State, k: nat)
    requires |s.xs| >= 2 && StrictlyIncreasing(s.xs) && 1 <= k < |s.xs|
    requires s.xs[k] - s.xs[k - 1] > DoubleMin
    requires forall i :: 1 <= i < |s.xs| ==> s.xs[i] - s.xs[i - 1] <= s.xs[k] - s.xs[k - 1]
    requires forall i :: 1 <= i < k ==> s.xs[i] - s.xs[i - 1] < s.xs[k] - s.xs[k - 1]
    ensures var middle := (s.xs[k - 1] + s.xs[k]) / 2.0;
      var n := Step(SeqScan, f, s);
      n.xs == s.xs[..k] + [middle] + s.xs[k..] && n.order == s.order + [middle] &&
      n.width == s.xs[k] - s.xs[k - 1]
  {
    SeqScanTarget(f, s.xs, s.m, k);
    StepInserts(SeqScan, f, s);
  }

  /** Sequential scanning on `[0, 8]` with `maxCount = 7` and `eps` at most 2,
      for every objective: the points are evaluated in the order
      0, 8, 4, 2, 6, 1, 3, 5, 7, the loop stops by the count after seven passes
      and the vector holds the integers 0 to 8. */
  lemma ScanZeroToEight(f: real -> real, eps: real, m: real)
    requires eps <= 2.0
    ensures var r := Run(SeqScan, f, eps, 7, Init(f, 0.0, 8.0, m));
      r.order == [0.0, 8.0, 4.0, 2.0, 6.0, 1.0, 3.0, 5.0, 7.0] &&
      r.xs == Grid(7) && r.count == 7
  {
    ScanFrom0(f, eps, Init(f, 0.0, 8.0, m));
  }

  /** The vector after `i` passes of sequential scanning on `[0, 8]`. */
  function Grid(i: nat): seq<real>
    requires i <= 7
  {
    if i == 0 then [0.0, 8.0]
    else if i == 1 then [0.0, 4.0, 8.0]
    else if i == 2 then [0.0, 2.0, 4.0, 8.0]
    else if i == 3 then [0.0, 2.0, 4.0, 6.0, 8.0]
    else if i == 4 then [0.0, 1.0, 2.0, 4.0, 6.0, 8.0]
    else if i == 5 then [0.0, 1.0, 2.0, 3.0, 4.0, 6.0, 8.0]
    else if i == 6 then [0.0, 1.0, 2.0, 3.0, 4.0, 5.0, 6.0, 8.0]
    else [0.0, 1.0, 2.0, 3.0, 4.0, 5.0, 6.0, 7.0, 8.0]
  }

  /** The pair split by pass `i + 1`, the first widest of `Grid(i)`. */
  function Widest(i: nat): nat
    requires i < 7
  {
    if i == 0 then 1 else if i == 1 then 1 else if i == 2 then 3 else if i == 3 then 1 else if i == 4 then 3 else if i == 5 then 5 else 7
  }

  /** The points evaluated by passes `i + 1` to 7. */
  function Remaining(i: nat): seq<real>
    requires i <= 7
  {
    if i == 0 then [4.0, 2.0, 6.0, 1.0, 3.0, 5.0, 7.0] else if i == 1 then [2.0, 6.0, 1.0, 3.0, 5.0, 7.0] else if i == 2 then [6.0, 1.0, 3.0, 5.0, 7.0] else if i == 3 then [1.0, 3.0, 5.0, 7.0] else if i == 4 then [3.0, 5.0, 7.0] else if i == 5 then [5.0, 7.0] else if i == 6 then [7.0] else []
  }

  /** Adjacent samples in ascending order make the whole vector ascending. */
  lemma {:induction false} AdjacentIncreasing(xs: seq<real>)
    requires forall i :: 1 <= i < |xs| ==> xs[i - 1] < xs[i]
    ensures StrictlyIncreasing(xs)
  {
    if |xs| > 1 {
      var init := xs[..|xs| - 1];
      assert forall i :: 1 <= i < |init| ==> init[i - 1] < init[i];
      AdjacentIncreasing(init);
      forall i, j | 0 <= i < j < |xs| ensures xs[i] < xs[j] {
        if j < |xs| - 1 {
          assert init[i] < init[j];
        } else if i < j - 1 {
          assert init[i] < init[j - 1];
        }
      }
    }
  }

  /** `Grid(i)` is strictly ascending. */
  lemma GridAscending(i: nat)
    requires i <= 7
    ensures StrictlyIncreasing(Grid(i))
  {
    var xs := Grid(i);
    forall j | 1 <= j < |xs| ensures xs[j - 1] < xs[j] {
      if i == 0 {
      } else if i == 1 {
      } else if i == 2 {
      } else if i == 3 {
      } else if i == 4 {
      } else if i == 5 {
      } else if i == 6 {
      } else {
      }
    }
    AdjacentIncreasing(xs);
  }

  /** `Widest(i)` is the first widest pair of `Grid(i)`, at least 2 wide. */
  predicate GridWidest(i: nat)
    requires i < 7
  {
    var xs, k := Grid(i), Widest(i);
    1 <= k < |xs| && xs[k] - xs[k - 1] >= 2.0 &&
    (forall j :: 1 <= j < |xs| ==> xs[j] - xs[j - 1] <= xs[k] - xs[k - 1]) &&
    (forall j :: 1 <= j < k ==> xs[j] - xs[j - 1] < xs[k] - xs[k - 1])
  }

  /** Splitting that pair at its midpoint, the next point of `Remaining(i)`,
      gives `Grid(i + 1)`. */
  predicate GridSplice(i: nat)
    requires i < 7
  {
    var xs, k := Grid(i), Widest(i);
    1 <= k < |xs| &&
    Remaining(i) == [(xs[k - 1] + xs[k]) / 2.0] + Remaining(i + 1) &&
    xs[..k] + [(xs[k - 1] + xs[k]) / 2.0] + xs[k..] == Grid(i + 1)
  }

  lemma GridWidest0()
    ensures GridWidest(0)
  {
  }

  lemma GridSplice0()
    ensures GridSplice(0)
  {
  }

  lemma GridWidest1()
    ensures GridWidest(1)
  {
  }

  lemma GridSplice1()
    ensures GridSplice(1)
  {
  }

  lemma GridWidest2()
    ensures GridWidest(2)
  {
  }

  lemma GridSplice2()
    ensures GridSplice(2)
  {
  }

  lemma GridWidest3()
    ensures GridWidest(3)
  {
  }

  lemma GridSplice3()
    ensures GridSplice(3)
  {
  }

  lemma GridWidest4()
    ensures GridWidest(4)
  {
  }

  lemma GridSplice4()
    ensures GridSplice(4)
  {
  }

  lemma GridWidest5()
    ensures GridWidest(5)
  {
  }

  lemma GridSplice5()
    ensures GridSplice(5)
  {
  }

  lemma GridWidest6()
    ensures GridWidest(6)
  {
  }

  lemma GridSplice6()
    ensures GridSplice(6)
  {
  }

  /** A pass of sequential scanning stated with the resulting vector and the
      new point given by value. */
  lemma ScanPass(f: real -> real, s: State, k: nat, ys: seq<real>, x: real)
    requires |s.xs| >= 2 && StrictlyIncreasing(s.xs) && 1 <= k < |s.xs|
    requires s.xs[k] - s.xs[k - 1] > DoubleMin
    requires forall i :: 1 <= i < |s.xs| ==> s.xs[i] - s.xs[i - 1] <= s.xs[k] - s.xs[k - 1]
    requires forall i :: 1 <= i < k ==> s.xs[i] - s.xs[i - 1] < s.xs[k] - s.xs[k - 1]
    requires x == (s.xs[k - 1] + s.xs[k]) / 2.0 && ys == s.xs[..k] + [x] + s.xs[k..]
    ensures var n := Step(SeqScan, f, s);
      n.xs == ys && n.order == s.order + [x] && n.width == s.xs[k] - s.xs[k - 1]
  {
    SeqScanStep(f, s, k);
  }

  lemma AppendAssoc(a: seq<real>, x: real, r: seq<real>)
    ensures (a + [x]) + r == a + ([x] + r)
  {
  }

  /** From the state after `i` passes, the loop evaluates `Remaining(i)` and
      ends on the integers 0 to 8 after seven passes. */
  lemma ScanFrom0(f: real -> real, eps: real, s: State)
    requires eps <= 2.0 && s.xs == Grid(0) && s.count == 0
    ensures var r := Run(SeqScan, f, eps, 7, s);
      r.xs == Grid(7) && r.order == s.order + Remaining(0) && r.count == 7
  {
    GridAscending(0);
    GridWidest0();
    GridSplice0();
    ScanPass(f, s, 1, Grid(1), 4.0);
    RunUnfold(SeqScan, f, eps, 7, s);
    AppendAssoc(s.order, 4.0, Remaining(1));
    ScanFrom1(f, eps, Step(SeqScan, f, s));
  }

  lemma ScanFrom1(f: real -> real, eps: real, s: State)
    requires eps <= 2.0 && s.xs == Grid(1) && s.count == 1
    ensures var r := Run(SeqScan, f, eps, 7, s);
      r.xs == Grid(7) && r.order == s.order + Remaining(1) && r.count == 7
  {
    GridAscending(1);
    GridWidest1();
    GridSplice1();
    ScanPass(f, s, 1, Grid(2), 2.0);
    RunUnfold(SeqScan, f, eps, 7, s);
    AppendAssoc(s.order, 2.0, Remaining(2));
    ScanFrom2(f, eps, Step(SeqScan, f, s));
  }

  lemma ScanFrom2(f: real -> real, eps: real, s: State)
    requires eps <= 2.0 && s.xs == Grid(2) && s.count == 2
    ensures var r := Run(SeqScan, f, eps, 7, s);
      r.xs == Grid(7) && r.order == s.order + Remaining(2) && r.count == 7
  {
    GridAscending(2);
    GridWidest2();
    GridSplice2();
    ScanPass(f, s, 3, Grid(3), 6.0);
    RunUnfold(SeqScan, f, eps, 7, s);
    AppendAssoc(s.order, 6.0, Remaining(3));
    ScanFrom3(f, eps, Step(SeqScan, f, s));
  }

  lemma ScanFrom3(f: real -> real, eps: real, s: State)
    requires eps <= 2.0 && s.xs == Grid(3) && s.count == 3
    ensures var r := Run(SeqScan, f, eps, 7, s);
      r.xs == Grid(7) && r.order == s.order + Remaining(3) && r.count == 7
  {
    GridAscending(3);
    GridWidest3();
    GridSplice3();
    ScanPass(f, s, 1, Grid(4), 1.0);
    RunUnfold(SeqScan, f, eps, 7, s);
    AppendAssoc(s.order, 1.0, Remaining(4));
    ScanFrom4(f, eps, Step(SeqScan, f, s));
  }

  lemma ScanFrom4(f: real -> real, eps: real, s: State)
    requires eps <= 2.0 && s.xs == Grid(4) && s.count == 4
    ensures var r := Run(SeqScan, f, eps, 7, s);
      r.xs == Grid(7) && r.order == s.order + Remaining(4) && r.count == 7
  {
    GridAscending(4);
    GridWidest4();
    GridSplice4();
    ScanPass(f, s, 3, Grid(5), 3.0);
    RunUnfold(SeqScan, f, eps, 7, s);
    AppendAssoc(s.order, 3.0, Remaining(5));
    ScanFrom5(f, eps, Step(SeqScan, f, s));
  }

  lemma ScanFrom5(f: real -> real, eps: real, s: State)
    requires eps <= 2.0 && s.xs == Grid(5) && s.count == 5
    ensures var r := Run(SeqScan, f, eps, 7, s);
      r.xs == Grid(7) && r.order == s.order + Remaining(5) && r.count == 7
  {
    GridAscending(5);
    GridWidest5();
    GridSplice5();
    ScanPass(f, s, 5, Grid(6), 5.0);
    RunUnfold(SeqScan, f, eps, 7, s);
    AppendAssoc(s.order, 5.0, Remaining(6));
    ScanFrom6(f, eps, Step(SeqScan, f, s));
  }

  lemma ScanFrom6(f: real -> real, eps: real, s: State)
    requires eps <= 2.0 && s.xs == Grid(6) && s.count == 6
    ensures var r := Run(SeqScan, f, eps, 7, s);
      r.xs == Grid(7) && r.order == s.order + Remaining(6) && r.count == 7
  {
    GridAscending(6);
    GridWidest6();
    GridSplice6();
    ScanPass(f, s, 7, Grid(7), 7.0);
    RunUnfold(SeqScan, f, eps, 7, s);
  }

  /** `getOptimalInex` starts its running maximum at the smallest positive
      normal double, 2^-1022, so while no characteristic exceeds it it splits the first pair,
      whatever the characteristics of the others. With Piyavskiy's method on a
      constant objective 10 and samples 0, 1, 3, the second pair has the
      larger characteristic (-9 against -9.5), yet the next point is 0.5, the
      midpoint of the first pair. */
  lemma ThresholdQuirk(f: real -> real, s: State)
    requires forall x :: f(x) == 10.0
    requires s.xs == [0.0, 1.0, 3.0]
    ensures var st := Piyavskiy(2.0);
      var m := Refresh(st, f, s.xs, s.m);
      m == 1.0 &&
      PairValue(st, f, m, s.xs, 1) == -9.5 && PairValue(st, f, m, s.xs, 2) == -9.0 &&
      OptimalIndex(st, f, m, s.xs) == 1 &&
      Step(st, f, s).order == s.order + [0.5]
  {
    var st := Piyavskiy(2.0);
    AdjacentIncreasing(s.xs);
    FlatObjective(st, f, 10.0, s.xs, s.m, 0.0, 1.0);
    var m := Refresh(st, f, s.xs, s.m);
    assert f(0.0) == 10.0 && f(1.0) == 10.0 && f(3.0) == 10.0;
    assert PairValue(st, f, m, s.xs, 1) == -9.5 && PairValue(st, f, m, s.xs, 2) == -9.0;
    OptimalIndexFirstMax(st, f, m, s.xs);
    StepInserts(st, f, s);
  }

  /** Safety parameters of 1 or less, which `WellFormed` excludes, on the samples
      0 and 1 with `f(0) = 0` and `f(1) = 1`: a parameter of 0 gives `m = 0`,
      so the next `getPoint` divides by zero; a parameter of 1 gives `m` equal to
      the chord's slope, so the split point is the sample 0; a parameter of 0.5
      gives `m = 0.5` and the split point -0.5, outside the segment. */
  lemma SmallParameters(f: real -> real, m: real)
    requires f(0.0) == 0.0 && f(1.0) == 1.0
    ensures Refresh(Piyavskiy(0.0), f, [0.0, 1.0], m) == 0.0
    ensures Refresh(Piyavskiy(1.0), f, [0.0, 1.0], m) == 1.0
    ensures SplitPoint(Piyavskiy(1.0), f, 1.0, 0.0, 1.0) == 0.0
    ensures Refresh(Piyavskiy(0.5), f, [0.0, 1.0], m) == 0.5
    ensures SplitPoint(Piyavskiy(0.5), f, 0.5, 0.0, 1.0) == -0.5
  {
    var xs := [0.0, 1.0];
    AdjacentIncreasing(xs);
    assert PairSlope(f, xs, 1) == 1.0;
    assert MaxSlope(f, xs) == 1.0;
  }
}
