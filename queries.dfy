/** Generic query operators the controllers build their LINQ queries from:
    counting, filtering (Where), and Skip/Take paging as the database runs it. */
module Queries {
  import opened Options

  /** Number of elements satisfying `p` (LINQ `CountAsync(p)`). */
  function Count<T>(xs: seq<T>, p: T -> bool): (n: nat)
    ensures n <= |xs|
    ensures n == 0 <==> forall i :: 0 <= i < |xs| ==> !p(xs[i])
  {
    if xs == [] then 0
    else Count(xs[..|xs| - 1], p) + (if p(xs[|xs| - 1]) then 1 else 0)
  }

  /** The elements satisfying `p`, in their original order (LINQ `Where(p)`). */
  function Filter<T(!new)>(xs: seq<T>, p: T -> bool): (r: seq<T>)
    ensures |r| <= |xs|
    ensures forall x :: x in r <==> x in xs && p(x)
  {
    if xs == [] then []
    else
      var init := Filter(xs[..|xs| - 1], p);
      var last := xs[|xs| - 1];
      assert forall x :: x in xs ==> x in xs[..|xs| - 1] || x == last;
      if p(last) then init + [last] else init
  }

  lemma {:induction false} CountIsFilterLength<T(!new)>(xs: seq<T>, p: T -> bool)
    ensures Count(xs, p) == |Filter(xs, p)|
  {
    if xs != [] {
      CountIsFilterLength(xs[..|xs| - 1], p);
    }
  }

  lemma {:induction false} CountAppend<T>(xs: seq<T>, ys: seq<T>, p: T -> bool)
    ensures Count(xs + ys, p) == Count(xs, p) + Count(ys, p)
  {
    if ys == [] {
      assert xs + ys == xs;
    } else {
      assert (xs + ys)[..|xs + ys| - 1] == xs + ys[..|ys| - 1];
      CountAppend(xs, ys[..|ys| - 1], p);
    }
  }

  lemma {:induction false} FilterAppend<T(!new)>(xs: seq<T>, ys: seq<T>, p: T -> bool)
    ensures Filter(xs + ys, p) == Filter(xs, p) + Filter(ys, p)
  {
    if ys == [] {
      assert xs + ys == xs;
    } else {
      assert (xs + ys)[..|xs + ys| - 1] == xs + ys[..|ys| - 1];
      FilterAppend(xs, ys[..|ys| - 1], p);
    }
  }

  /** Filtering with a predicate no element satisfies leaves nothing. */
  lemma {:induction false} FilterNone<T(!new)>(xs: seq<T>, p: T -> bool)
    requires forall i :: 0 <= i < |xs| ==> !p(xs[i])
    ensures Filter(xs, p) == []
  {
    if xs != [] {
      FilterNone(xs[..|xs| - 1], p);
    }
  }

  /** Replacing one element changes the count only by what the old and the new element contribute. */
  lemma {:induction false} CountUpdate<T>(xs: seq<T>, i: int, y: T, p: T -> bool)
    requires 0 <= i < |xs|
    ensures Count(xs[i := y], p) + (if p(xs[i]) then 1 else 0) == Count(xs, p) + (if p(y) then 1 else 0)
  {
    var n := |xs|;
    var ys := xs[i := y];
    assert Count(ys, p) == Count(ys[..n - 1], p) + (if p(ys[n - 1]) then 1 else 0);
    assert Count(xs, p) == Count(xs[..n - 1], p) + (if p(xs[n - 1]) then 1 else 0);
    if i == n - 1 {
      assert ys[..n - 1] == xs[..n - 1];
    } else {
      assert ys[..n - 1] == xs[..n - 1][i := y];
      CountUpdate(xs[..n - 1], i, y, p);
    }
  }

  /** Filtering with a predicate every element satisfies keeps everything. */
  lemma {:induction false} FilterAll<T(!new)>(xs: seq<T>, p: T -> bool)
    requires forall i :: 0 <= i < |xs| ==> p(xs[i])
    ensures Filter(xs, p) == xs
  {
    if xs != [] {
      FilterAll(xs[..|xs| - 1], p);
    }
  }

  /** A weaker predicate never counts fewer elements. */
  lemma {:induction false} CountMonotone<T>(xs: seq<T>, p: T -> bool, q: T -> bool)
    requires forall x :: p(x) ==> q(x)
    ensures Count(xs, p) <= Count(xs, q)
  {
    if xs != [] {
      CountMonotone(xs[..|xs| - 1], p, q);
    }
  }

  /** Counting under a predicate that is the disjunction of two disjoint ones. */
  lemma {:induction false} CountSplit<T>(xs: seq<T>, p: T -> bool, q: T -> bool, pq: T -> bool)
    requires forall x :: pq(x) <==> p(x) || q(x)
    requires forall x :: !(p(x) && q(x))
    ensures Count(xs, pq) == Count(xs, p) + Count(xs, q)
  {
    if xs != [] {
      CountSplit(xs[..|xs| - 1], p, q, pq);
    }
  }

  function Min(a: int, b: int): int { if a <= b then a else b }
  function Max(a: int, b: int): int { if a >= b then a else b }

  /** Whether the database runs `Skip((page - 1) * pageSize).Take(pageSize)`: the query
      becomes an OFFSET/FETCH clause, and SQL Server refuses a negative offset and a fetch
      of no rows, so both the page and the page size must be positive. */
  predicate PageAccepted(page: int, pageSize: int)
  {
    page >= 1 && pageSize >= 1
  }

  lemma MulNonNegative(a: int, b: int)
    requires a >= 0 && b >= 0
    ensures a * b >= 0
  {
  }

  /** `Skip((page - 1) * pageSize).Take(pageSize)` as the database runs it: None when it
      refuses the paging; otherwise the contiguous run of at most pageSize items after the
      skipped ones, empty once the skip passes the end. */
  function Page<T>(xs: seq<T>, page: int, pageSize: int): (r: Option<seq<T>>)
    ensures r.Some? <==> PageAccepted(page, pageSize)
    ensures r.Some? ==> |r.value| <= pageSize
    ensures r.Some? ==>
              var skip := Min((page - 1) * pageSize, |xs|);
              && 0 <= skip
              && |r.value| == Min(pageSize, |xs| - skip) && r.value == xs[skip..skip + |r.value|]
  {
    if !PageAccepted(page, pageSize) then None
    else
      MulNonNegative(page - 1, pageSize);
      var skip := Min((page - 1) * pageSize, |xs|);
      Some(xs[skip..skip + Min(pageSize, |xs| - skip)])
  }

  /** Consecutive pages of a positive page size never overlap: page `k + 1` starts where page `k` ends. */
  lemma PagesAreConsecutive<T>(xs: seq<T>, page: int, pageSize: int)
    requires page >= 1 && pageSize >= 1
    requires page * pageSize <= |xs|
    ensures Page(xs, page, pageSize).Some? && Page(xs, page + 1, pageSize).Some?
    ensures Page(xs, page, pageSize).value + Page(xs, page + 1, pageSize).value
            == xs[(page - 1) * pageSize .. Min((page + 1) * pageSize, |xs|)]
  {
    var a := (page - 1) * pageSize;
    var b := page * pageSize;
    assert b - a == pageSize by {
      assert page * pageSize == (page - 1) * pageSize + pageSize;
    }
    assert (page + 1) * pageSize == b + pageSize;
    MulNonNegative(page - 1, pageSize);
    assert Min(a, |xs|) == a;
    assert Min(b, |xs|) == b;
  }
}
