/** Order statistics over lists of prices: sorting, extremes, median and mean, with the two facts the
    pricing pipeline rests on: order of the input never matters, and every statistic is monotone. */
module OrderStatistics {

  import opened Sorting

  function AtMost(): (real, real) -> bool {
    (x: real, y: real) => x <= y
  }

  predicate Sorted(s: seq<real>) {
    SortedBy(s, AtMost())
  }

  lemma {:induction false} SortedAt(s: seq<real>, i: nat, j: nat)
    requires Sorted(s) && i <= j < |s|
    ensures s[i] <= s[j]
  {
    if i < j {
      SortedAt(s, i, j - 1);
      assert AtMost()(s[j - 1], s[j]);
    }
  }

  /** Same length and nowhere larger. */
  ghost predicate Below(s: seq<real>, t: seq<real>) {
    |s| == |t| && forall i :: 0 <= i < |s| ==> s[i] <= t[i]
  }

  function Insert(x: real, s: seq<real>): (r: seq<real>)
    ensures |r| == |s| + 1
  {
    InsertBy(x, s, AtMost())
  }

  function Sort(s: seq<real>): (r: seq<real>)
    ensures |r| == |s|
  {
    SortBy(s, AtMost())
  }

  lemma SortSorts(s: seq<real>)
    ensures Sorted(Sort(s)) && multiset(Sort(s)) == multiset(s)
  {
    SortBySorts(s, AtMost());
  }

  lemma SortedHeadIsLeast(s: seq<real>, x: real)
    requires Sorted(s) && x in s
    ensures s[0] <= x
  {
    var i :| 0 <= i < |s| && s[i] == x;
    SortedAt(s, 0, i);
  }

  /** A sorted list is determined by its elements. */
  lemma {:induction false} SortedUnique(a: seq<real>, b: seq<real>)
    requires Sorted(a) && Sorted(b) && multiset(a) == multiset(b)
    ensures a == b
  {
    if a == [] || b == [] {
      assert |a| == |multiset(a)| && |b| == |multiset(b)|;
    } else {
      SortedHeads(a, b);
      SortedHeads(b, a);
      assert a == [a[0]] + a[1..] && b == [b[0]] + b[1..];
      assert multiset(a[1..]) == multiset(a) - multiset{a[0]};
      assert multiset(b[1..]) == multiset(b) - multiset{b[0]};
      SortedUnique(a[1..], b[1..]);
    }
  }

  lemma SortedHeads(a: seq<real>, b: seq<real>)
    requires Sorted(a) && multiset(a) == multiset(b) && a != [] && b != []
    ensures a[0] <= b[0]
  {
    assert b[0] in multiset(b);
    SortedHeadIsLeast(a, b[0]);
  }

  lemma SortIgnoresOrder(s: seq<real>, t: seq<real>)
    requires multiset(s) == multiset(t)
    ensures Sort(s) == Sort(t)
  {
    SortSorts(s);
    SortSorts(t);
    SortedUnique(Sort(s), Sort(t));
  }

  lemma InsertHead(s: seq<real>)
    requires s != [] && Sorted(s)
    ensures Insert(s[0], s[1..]) == s
  {
    assert s == [s[0]] + s[1..];
  }

  lemma BelowCons(x: real, s: seq<real>, y: real, t: seq<real>)
    requires x <= y && Below(s, t)
    ensures Below([x] + s, [y] + t)
  {
  }

  lemma BelowTail(s: seq<real>, t: seq<real>)
    requires Below(s, t) && s != []
    ensures Below(s[1..], t[1..])
  {
  }

  lemma {:induction false} InsertMonotone(x: real, s: seq<real>, y: real, t: seq<real>)
    requires Sorted(s) && Sorted(t) && Below(s, t) && x <= y
    ensures Below(Insert(x, s), Insert(y, t))
    decreases s
  {
    if s == [] || (x <= s[0] && y <= t[0]) {
      BelowCons(x, s, y, t);
    } else {
      // the smaller of the two heads stays in front; the larger is inserted further down
      var front, carried := if x <= s[0] then x else s[0], if x <= s[0] then s[0] else x;
      var front', carried' := if y <= t[0] then y else t[0], if y <= t[0] then t[0] else y;
      InsertHead(s);
      InsertHead(t);
      BelowTail(s, t);
      InsertMonotone(carried, s[1..], carried', t[1..]);
      BelowCons(front, Insert(carried, s[1..]), front', Insert(carried', t[1..]));
    }
  }

  lemma {:induction false} SortMonotone(s: seq<real>, t: seq<real>)
    requires Below(s, t)
    ensures Below(Sort(s), Sort(t))
  {
    if s != [] {
      BelowTail(s, t);
      SortMonotone(s[1..], t[1..]);
      SortSorts(s[1..]);
      SortSorts(t[1..]);
      InsertMonotone(s[0], Sort(s[1..]), t[0], Sort(t[1..]));
    }
  }

  function Sum(s: seq<real>): real {
    if s == [] then 0.0 else s[0] + Sum(s[1..])
  }

  lemma {:induction false} SumMonotone(s: seq<real>, t: seq<real>)
    requires Below(s, t)
    ensures Sum(s) <= Sum(t)
  {
    if s != [] {
      SumMonotone(s[1..], t[1..]);
    }
  }

  function Min(s: seq<real>): real
    requires s != []
  {
    Sort(s)[0]
  }

  function Max(s: seq<real>): real
    requires s != []
  {
    Sort(s)[|s| - 1]
  }

  lemma SortKeepsMembers(s: seq<real>, x: real)
    ensures x in Sort(s) <==> x in s
  {
    SortSorts(s);
    assert x in Sort(s) <==> x in multiset(Sort(s));
    assert x in s <==> x in multiset(s);
  }

  lemma Extremes(s: seq<real>)
    requires s != []
    ensures Min(s) in s && Max(s) in s
    ensures forall x :: x in s ==> Min(s) <= x <= Max(s)
  {
    SortSorts(s);
    SortKeepsMembers(s, Min(s));
    SortKeepsMembers(s, Max(s));
    forall x | x in s ensures Min(s) <= x <= Max(s) {
      SortKeepsMembers(s, x);
      var i :| 0 <= i < |s| && Sort(s)[i] == x;
      SortedAt(Sort(s), 0, i);
      SortedAt(Sort(s), i, |s| - 1);
    }
  }

  function Mean(s: seq<real>): real
    requires s != []
  {
    Sum(Sort(s)) / |s| as real
  }

  /** statistics.median, and the "med" branch of the aggregation: the middle element, or the mean of
      the two middle ones. */
  function Median(s: seq<real>): real
    requires s != []
  {
    var r, mid := Sort(s), |s| / 2;
    if |s| % 2 == 1 then r[mid] else (r[mid - 1] + r[mid]) / 2.0
  }

  lemma {:induction false} SumInsert(x: real, s: seq<real>)
    ensures Sum(Insert(x, s)) == x + Sum(s)
  {
    if s != [] && !(x <= s[0]) {
      SumInsert(x, s[1..]);
      assert Insert(x, s) == [s[0]] + Insert(x, s[1..]);
    } else {
      assert Insert(x, s) == [x] + s && ([x] + s)[1..] == s;
    }
  }

  lemma {:induction false} SumSort(s: seq<real>)
    ensures Sum(Sort(s)) == Sum(s)
  {
    if s != [] {
      SumSort(s[1..]);
      SumInsert(s[0], Sort(s[1..]));
    }
  }

  lemma Shares(share: real, total: real, n: real)
    requires n > 0.0 && share == total / n
    ensures share * n == total
  {
  }

  lemma MeanOfSorted(s: seq<real>, mean: real, n: real)
    requires s != [] && mean == Mean(s) && n == |s| as real
    ensures mean * n == Sum(Sort(s))
  {
    Shares(mean, Sum(Sort(s)), n);
  }

  lemma MeanTimes(s: seq<real>)
    requires s != []
    ensures Mean(s) * |s| as real == Sum(Sort(s))
  {
    MeanOfSorted(s, Mean(s), |s| as real);
  }

  /** The mean shares out the sum of the list, in whatever order it comes. */
  lemma MeanMeaning(s: seq<real>)
    requires s != []
    ensures Mean(s) * |s| as real == Sum(s)
  {
    MeanTimes(s);
    SumSort(s);
  }

  /** The median is the middle element, or half the sum of the two middle ones, of any sorted arrangement. */
  lemma MedianMeaning(s: seq<real>, r: seq<real>)
    requires s != [] && Sorted(r) && multiset(r) == multiset(s)
    ensures |r| == |s|
    ensures |s| % 2 == 1 ==> Median(s) == r[(|s| - 1) / 2]
    ensures |s| % 2 == 0 ==> Median(s) + Median(s) == r[|s| / 2 - 1] + r[|s| / 2]
  {
    SortSorts(s);
    SortedUnique(Sort(s), r);
  }

  lemma SameSize(s: seq<real>, t: seq<real>)
    requires multiset(s) == multiset(t)
    ensures |s| == |t|
  {
    assert |multiset(s)| == |s| && |multiset(t)| == |t|;
  }

  lemma StatisticsIgnoreOrder(s: seq<real>, t: seq<real>)
    requires multiset(s) == multiset(t)
    ensures |s| == |t| && Sort(s) == Sort(t)
    ensures s != [] ==> Min(s) == Min(t) && Max(s) == Max(t) && Median(s) == Median(t) && Mean(s) == Mean(t)
  {
    SameSize(s, t);
    SortIgnoresOrder(s, t);
  }

  lemma DivideMonotone(x: real, y: real, n: real)
    requires x <= y && n > 0.0
    ensures x / n <= y / n
  {
  }

  lemma StatisticsMonotone(s: seq<real>, t: seq<real>)
    requires Below(s, t) && s != []
    ensures Min(s) <= Min(t) && Max(s) <= Max(t)
    ensures Median(s) <= Median(t) && Mean(s) <= Mean(t)
  {
    SortMonotone(s, t);
    SumMonotone(Sort(s), Sort(t));
    DivideMonotone(Sum(Sort(s)), Sum(Sort(t)), |s| as real);
  }

  /** How many elements lie in [lo, hi]. */
  function CountIn(s: seq<real>, lo: real, hi: real): nat {
    if s == [] then 0 else (if lo <= s[0] <= hi then 1 else 0) + CountIn(s[1..], lo, hi)
  }

  lemma {:induction false} CountInSplit(s: seq<real>, t: seq<real>, lo: real, hi: real)
    ensures CountIn(s + t, lo, hi) == CountIn(s, lo, hi) + CountIn(t, lo, hi)
  {
    if s == [] {
      assert s + t == t;
    } else {
      assert (s + t)[1..] == s[1..] + t;
      CountInSplit(s[1..], t, lo, hi);
    }
  }

  lemma {:induction false} CountInAtMost(s: seq<real>, lo: real, hi: real)
    ensures CountIn(s, lo, hi) <= |s|
  {
    if s != [] {
      CountInAtMost(s[1..], lo, hi);
    }
  }

  lemma {:induction false} CountInNone(s: seq<real>, lo: real, hi: real)
    requires forall i :: 0 <= i < |s| ==> s[i] < lo || hi < s[i]
    ensures CountIn(s, lo, hi) == 0
  {
    if s != [] {
      CountInNone(s[1..], lo, hi);
    }
  }

  lemma {:induction false} CountInInsert(x: real, s: seq<real>, lo: real, hi: real)
    ensures CountIn(Insert(x, s), lo, hi) == (if lo <= x <= hi then 1 else 0) + CountIn(s, lo, hi)
  {
    if s != [] && x > s[0] {
      CountInInsert(x, s[1..], lo, hi);
    }
  }

  lemma {:induction false} CountInSort(s: seq<real>, lo: real, hi: real)
    ensures CountIn(Sort(s), lo, hi) == CountIn(s, lo, hi)
  {
    if s != [] {
      CountInSort(s[1..], lo, hi);
      CountInInsert(s[0], Sort(s[1..]), lo, hi);
    }
  }

  /** In a sorted list, a position below lo (above hi) leaves only the positions after (before) it. */
  lemma CountInSorted(r: seq<real>, k: nat, lo: real, hi: real)
    requires Sorted(r) && k < |r|
    ensures r[k] < lo ==> CountIn(r, lo, hi) <= |r| - k - 1
    ensures hi < r[k] ==> CountIn(r, lo, hi) <= k
  {
    forall i | 0 <= i <= k ensures r[i] <= r[k] { SortedAt(r, i, k); }
    forall i | k <= i < |r| ensures r[k] <= r[i] { SortedAt(r, k, i); }
    if r[k] < lo {
      var front, back := r[..k + 1], r[k + 1..];
      assert r == front + back;
      CountInSplit(front, back, lo, hi);
      CountInNone(front, lo, hi);
      CountInAtMost(back, lo, hi);
    }
    if hi < r[k] {
      var front, back := r[..k], r[k..];
      assert r == front + back;
      CountInSplit(front, back, lo, hi);
      CountInAtMost(front, lo, hi);
      CountInNone(back, lo, hi);
    }
  }

  /** The median lies between the two middle elements, which coincide when the length is odd. */
  lemma MedianBetween(s: seq<real>)
    requires s != []
    ensures Sort(s)[(|s| - 1) / 2] <= Median(s) <= Sort(s)[|s| / 2]
  {
    var low, high := (|s| - 1) / 2, |s| / 2;
    assert if |s| % 2 == 1 then low == high else low == high - 1;
    SortSorts(s);
    SortedAt(Sort(s), low, high);
  }

  /** A strict majority inside [lo, hi] pins the median inside [lo, hi]. */
  lemma MajorityPinsMedian(s: seq<real>, lo: real, hi: real)
    requires 2 * CountIn(s, lo, hi) > |s|
    ensures s != [] && lo <= Median(s) <= hi
  {
    CountInAtMost(s, lo, hi);
    CountInSort(s, lo, hi);
    SortSorts(s);
    MedianBetween(s);
    CountInSorted(Sort(s), (|s| - 1) / 2, lo, hi);
    CountInSorted(Sort(s), |s| / 2, lo, hi);
  }

  /** Half of the values at or above lo keep the median of non-negative values at or above half of it. */
  lemma HalfPullsMedian(s: seq<real>, lo: real, hi: real)
    requires s != [] && lo >= 0.0 && 2 * CountIn(s, lo, hi) >= |s|
    requires forall i :: 0 <= i < |s| ==> s[i] >= 0.0
    ensures Median(s) >= lo / 2.0
  {
    CountInSort(s, lo, hi);
    SortSorts(s);
    CountInSorted(Sort(s), |s| / 2, lo, hi);
    forall i | 0 <= i < |s| ensures Sort(s)[i] >= 0.0 {
      SortKeepsMembers(s, Sort(s)[i]);
      assert Sort(s)[i] in Sort(s);
    }
  }
}
