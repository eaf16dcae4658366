/** The sample vector `m_x` of the search engine: every abscissa evaluated so far.
    After each iteration the engine appends the new point and sorts the vector;
    `Insert` is that sorted result. */
module Samples {

  /** Non-decreasing order, as a sort leaves it. */
  predicate Sorted(xs: seq<real>) {
    forall i, j :: 0 <= i < j < |xs| ==> xs[i] <= xs[j]
  }

  /** Strictly ascending: no abscissa is present twice. */
  predicate StrictlyIncreasing(xs: seq<real>) {
    forall i, j :: 0 <= i < j < |xs| ==> xs[i] < xs[j]
  }

  /** `xs` with `x` added and the whole put in ascending order
      (a `push_back` followed by `std::sort`). */
  function Insert(xs: seq<real>, x: real): (r: seq<real>)
    ensures |r| == |xs| + 1
    ensures multiset(r) == multiset(xs) + multiset{x}
  {
    if xs == [] || x <= xs[0] then [x] + xs
    else
      assert xs == [xs[0]] + xs[1..];
      [xs[0]] + Insert(xs[1..], x)
  }

  /** Inserting into a sorted vector leaves it sorted. */
  lemma {:induction false} InsertKeepsSorted(xs: seq<real>, x: real)
    requires Sorted(xs)
    ensures Sorted(Insert(xs, x))
  {
    if xs != [] && x > xs[0] {
      var tail := Insert(xs[1..], x);
      TailSorted(xs);
      InsertKeepsSorted(xs[1..], x);
      forall i | 0 <= i < |tail| ensures xs[0] <= tail[i] {
        assert tail[i] in multiset(xs[1..]) + multiset{x};
        if tail[i] != x {
          var j :| 0 <= j < |xs[1..]| && xs[1..][j] == tail[i];
          assert xs[0] <= xs[j + 1];
        }
      }
      assert Insert(xs, x) == [xs[0]] + tail;
    }
  }

  /** The first element of a sorted vector is its least. */
  lemma HeadIsLeast(a: seq<real>, y: real)
    requires Sorted(a) && y in a
    ensures a[0] <= y
  {
    var i :| 0 <= i < |a| && a[i] == y;
    if i > 0 { assert a[0] <= a[i]; }
  }

  /** Dropping the first element of a sorted vector leaves it sorted. */
  lemma TailSorted(a: seq<real>)
    requires Sorted(a) && a != []
    ensures Sorted(a[1..])
  {
    forall i, j | 0 <= i < j < |a| - 1 ensures a[1..][i] <= a[1..][j] {
      assert a[1..][i] == a[i + 1] && a[1..][j] == a[j + 1];
    }
  }

  /** A multiset has only one sorted arrangement. */
  lemma {:induction false} SortedArrangementUnique(a: seq<real>, b: seq<real>)
    requires Sorted(a) && Sorted(b)
    requires multiset(a) == multiset(b)
    ensures a == b
  {
    if a == [] {
      assert |multiset(b)| == 0;
    } else {
      assert |b| == |multiset(b)| == |multiset(a)| == |a|;
      assert a[0] in multiset(b) && b[0] in multiset(a);
      HeadIsLeast(a, b[0]);
      HeadIsLeast(b, a[0]);
      assert a[0] == b[0];
      assert a == [a[0]] + a[1..] && b == [b[0]] + b[1..];
      assert multiset(a[1..]) == multiset(b[1..]) by {
        assert multiset(a) == multiset{a[0]} + multiset(a[1..]);
        assert multiset(b) == multiset{b[0]} + multiset(b[1..]);
        assert multiset(a[1..]) == multiset(a) - multiset{a[0]};
        assert multiset(b[1..]) == multiset(b) - multiset{b[0]};
      }
      TailSorted(a);
      TailSorted(b);
      SortedArrangementUnique(a[1..], b[1..]);
    }
  }

  /** So `Insert` is exactly what the sort produces from the vector with the new
      point appended. */
  lemma InsertIsSort(xs: seq<real>, x: real, sorted: seq<real>)
    requires Sorted(xs)
    requires Sorted(sorted) && multiset(sorted) == multiset(xs + [x])
    ensures sorted == Insert(xs, x)
  {
    assert multiset(xs + [x]) == multiset(xs) + multiset{x};
    InsertKeepsSorted(xs, x);
    SortedArrangementUnique(sorted, Insert(xs, x));
  }

  /** Putting `x` between neighbours `xs[k-1] < x < xs[k]` keeps the order strict. */
  lemma Splice(xs: seq<real>, x: real, k: nat)
    requires StrictlyIncreasing(xs)
    requires 1 <= k < |xs| && xs[k - 1] < x < xs[k]
    ensures StrictlyIncreasing(xs[..k] + [x] + xs[k..])
  {
    var r := xs[..k] + [x] + xs[k..];
    forall i, j | 0 <= i < j < |r| ensures r[i] < r[j] {
      if j < k {
        assert r[i] == xs[i] && r[j] == xs[j];
      } else if j == k {
        assert r[j] == x && r[i] == xs[i];
        assert xs[i] <= xs[k - 1];
      } else if i == k {
        assert r[i] == x && r[j] == xs[j - 1];
        assert xs[k] <= xs[j - 1];
      } else if i < k {
        assert r[i] == xs[i] && r[j] == xs[j - 1];
      } else {
        assert r[i] == xs[i - 1] && r[j] == xs[j - 1];
      }
    }
  }

  /** A point strictly between two neighbours `xs[k-1]` and `xs[k]` of a strictly
      ascending vector lands between them, and the vector stays strictly ascending. */
  lemma {:induction false} InsertBetween(xs: seq<real>, x: real, k: nat)
    requires StrictlyIncreasing(xs)
    requires 1 <= k < |xs| && xs[k - 1] < x < xs[k]
    ensures Insert(xs, x) == xs[..k] + [x] + xs[k..]
    ensures StrictlyIncreasing(Insert(xs, x))
  {
    assert xs[0] <= xs[k - 1];
    if k == 1 {
      assert Insert(xs[1..], x) == [x] + xs[1..];
      assert xs[..1] == [xs[0]];
    } else {
      InsertBetween(xs[1..], x, k - 1);
      assert xs[1..][..k - 1] == xs[1..k];
      assert xs[1..][k - 1..] == xs[k..];
      assert xs[..k] == [xs[0]] + xs[1..k];
    }
    Splice(xs, x, k);
  }

  /** After such an insertion the outermost samples are the same, and the vector
      stays strictly ascending. */
  lemma InsertInside(xs: seq<real>, x: real, k: nat)
    requires StrictlyIncreasing(xs)
    requires 1 <= k < |xs| && xs[k - 1] < x < xs[k]
    ensures Insert(xs, x)[0] == xs[0] && Insert(xs, x)[|xs|] == xs[|xs| - 1]
    ensures StrictlyIncreasing(Insert(xs, x))
  {
    InsertBetween(xs, x, k);
    var r := xs[..k] + [x] + xs[k..];
    assert r[0] == xs[0] && r[|xs|] == xs[|xs| - 1];
  }
}
