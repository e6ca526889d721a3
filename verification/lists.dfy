/** List operations shared by the stores and the filter sidebar: JavaScript's
    `filter`, `includes`-based membership toggling and `slice(0, n)`. */
module Lists {

  /** `a` is obtained from `b` by deleting some elements, keeping order. */
  ghost predicate IsSubsequence<T>(a: seq<T>, b: seq<T>) {
    if |a| == 0 then true
    else if |b| == 0 then false
    else if a[0] == b[0] then IsSubsequence(a[1..], b[1..])
    else IsSubsequence(a, b[1..])
  }

  /** Number of elements of `xs` that satisfy `keep`. */
  function CountWhere<T>(xs: seq<T>, keep: T -> bool): (n: nat)
    ensures n <= |xs|
  {
    if |xs| == 0 then 0
    else (if keep(xs[0]) then 1 else 0) + CountWhere(xs[1..], keep)
  }

  /** `xs.filter(keep)`. The contract pins the result down completely: an
      order-preserving selection from `xs` that holds every kept element and
      nothing else. */
  function Filter<T>(xs: seq<T>, keep: T -> bool): (r: seq<T>)
    ensures IsSubsequence(r, xs)
    ensures forall i :: 0 <= i < |r| ==> keep(r[i])
    ensures |r| == CountWhere(xs, keep)
    ensures forall x :: x in xs && keep(x) ==> x in r
    ensures forall x :: x in r ==> x in xs
  {
    if |xs| == 0 then []
    else if keep(xs[0]) then [xs[0]] + Filter(xs[1..], keep)
    else Filter(xs[1..], keep)
  }

  /** Filtering keeps every occurrence of a kept element and none of a dropped
      one. */
  lemma {:induction false} FilterMultiplicity<T>(xs: seq<T>, keep: T -> bool)
    ensures forall x :: multiset(Filter(xs, keep))[x] == if keep(x) then multiset(xs)[x] else 0
  {
    if |xs| > 0 {
      FilterMultiplicity(xs[1..], keep);
      assert xs == [xs[0]] + xs[1..];
    }
  }

  /** `xs.filter(x => x !== v)`. */
  function RemoveAll<T(==)>(xs: seq<T>, v: T): seq<T> {
    Filter(xs, x => x != v)
  }

  /** Remove-if-present, else append: the toggle used by the guest wishlist and
      by the category and brand checkboxes. */
  function Toggle<T(==)>(xs: seq<T>, v: T): (r: seq<T>)
    ensures v in r <==> v !in xs
    ensures forall x :: x in xs && x != v ==> x in r
    ensures forall x :: x in r && x != v ==> x in xs
    ensures v !in xs ==> r == xs + [v]
    ensures v in xs ==> IsSubsequence(r, xs) && |r| < |xs|
    ensures v in xs ==> forall i {:trigger multiset(r)[xs[i]]} :: 0 <= i < |xs| && xs[i] != v ==> multiset(r)[xs[i]] == multiset(xs)[xs[i]]
  {
    if v in xs then
      var r := RemoveAll(xs, v);
      FilterMultiplicity(xs, x => x != v);
      assert forall x :: x in r ==> x != v;
      assert CountWhere(xs, x => x != v) < |xs| by { CountBelowWhenDropped(xs, x => x != v, v); }
      r
    else xs + [v]
  }

  lemma {:induction false} CountBelowWhenDropped<T>(xs: seq<T>, keep: T -> bool, v: T)
    requires v in xs && !keep(v)
    ensures CountWhere(xs, keep) < |xs|
  {
    if xs[0] == v {
    } else {
      CountBelowWhenDropped(xs[1..], keep, v);
    }
  }

  /** Filtering out a value that does not occur changes nothing. */
  lemma {:induction false} RemoveAbsent<T>(xs: seq<T>, v: T)
    requires v !in xs
    ensures RemoveAll(xs, v) == xs
  {
    if |xs| > 0 {
      RemoveAbsent(xs[1..], v);
      assert [xs[0]] + xs[1..] == xs;
    }
  }

  /** Filtering distributes over concatenation. */
  lemma {:induction false} FilterAppend<T>(xs: seq<T>, ys: seq<T>, keep: T -> bool)
    ensures Filter(xs + ys, keep) == Filter(xs, keep) + Filter(ys, keep)
  {
    if |xs| == 0 {
      assert xs + ys == ys;
    } else {
      assert (xs + ys)[1..] == xs[1..] + ys;
      FilterAppend(xs[1..], ys, keep);
    }
  }

  /** Removing one id keeps the repeated others: toggling "b" in
      ["a", "a", "b"] gives ["a", "a"]. */
  lemma ToggleKeepsRepeats()
    ensures Toggle(["a", "a", "b"], "b") == ["a", "a"]
  {
    var r := Toggle(["a", "a", "b"], "b");
    assert multiset(r)["a"] == 2;
    assert |r| < 3;
  }

  /** Toggling an absent value twice restores the list exactly. */
  lemma ToggleTwice<T>(xs: seq<T>, v: T)
    requires v !in xs
    ensures Toggle(Toggle(xs, v), v) == xs
  {
    assert v in xs + [v];
    FilterAppend(xs, [v], x => x != v);
    RemoveAbsent(xs, v);
    assert Filter([v], x => x != v) == [];
  }

  /** `xs.slice(0, n)`: the first `n` elements, or all when fewer. */
  function Take<T>(xs: seq<T>, n: nat): (r: seq<T>)
    ensures |r| == if |xs| < n then |xs| else n
    ensures r <= xs
  {
    if |xs| <= n then xs else xs[..n]
  }
}
