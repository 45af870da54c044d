/** The two search plans of a run: weekly probes over the window, and one extraction search per
    representative date and duration. */
module SearchPlan {
  import opened Dates
  import opened Sorting

  const PROBE_DAYS := 7

  /** Probe pickup dates. */
  method BuildProbeSearches(start: Date, end: Date) returns (pickups: seq<Date>)
    ensures |pickups| == if start <= end then (end - start) / PROBE_DAYS else 0
    ensures forall k :: 0 <= k < |pickups| ==> pickups[k] == start + PROBE_DAYS * k && pickups[k] + PROBE_DAYS <= end
    ensures start <= end ==> end < start + PROBE_DAYS * |pickups| + PROBE_DAYS
  {
    pickups := [];
    var current := start;
    while current + PROBE_DAYS <= end
      invariant current == start + PROBE_DAYS * |pickups|
      invariant pickups != [] ==> current <= end
      invariant forall k :: 0 <= k < |pickups| ==>
        pickups[k] == start + PROBE_DAYS * k && pickups[k] + PROBE_DAYS <= end
      decreases end - current
    {
      pickups := pickups + [current];
      current := current + PROBE_DAYS;
    }
  }

  /** Pickup date and number of days; the pickup hour is the same for all searches of a plan. */
  datatype Extraction = Extraction(pickup: Date, days: int)

  predicate Before(a: Extraction, b: Extraction) {
    a.pickup < b.pickup || (a.pickup == b.pickup && a.days < b.days)
  }

  predicate Increasing(s: seq<Extraction>) {
    forall i :: 0 < i < |s| ==> Before(s[i - 1], s[i])
  }

  lemma {:induction false} IncreasingAt(s: seq<Extraction>, i: nat, j: nat)
    requires Increasing(s) && i < j < |s|
    ensures Before(s[i], s[j])
  {
    if i + 1 < j {
      IncreasingAt(s, i, j - 1);
    }
  }

  predicate SortedInts(s: seq<int>) {
    forall i :: 0 < i < |s| ==> s[i - 1] <= s[i]
  }

  function SortInts(s: seq<int>): seq<int> {
    SortBy(s, (x: int, y: int) => x <= y)
  }

  lemma SortIntsSorts(s: seq<int>)
    ensures SortedInts(SortInts(s)) && forall y :: y in SortInts(s) <==> y in s
  {
    SortBySorts(s, (x: int, y: int) => x <= y);
    forall y ensures y in SortInts(s) <==> y in s {
      assert y in multiset(SortInts(s)) <==> y in multiset(s);
    }
  }

  lemma {:induction false} SortedIntsAt(s: seq<int>, i: nat, j: nat)
    requires SortedInts(s) && i <= j < |s|
    ensures s[i] <= s[j]
  {
    if i < j {
      SortedIntsAt(s, i, j - 1);
    }
  }

  /** The pairs of the first k representative dates, and of the k-th date with the first j durations. */
  ghost predicate Planned(searches: seq<Extraction>, reps: seq<Date>, k: nat, durations: seq<int>, j: nat, end: Date)
    requires k < |reps| && j <= |durations|
  {
    && Increasing(searches)
    && forall e :: e in searches <==>
         e.pickup + e.days <= end && ((e.pickup in reps[..k] && e.days in durations) ||
           (e.pickup == reps[k] && e.days in durations[..j]))
  }

  /** The inner loop: one representative date, all durations. */
  method PlanDate(searches: seq<Extraction>, reps: seq<Date>, k: nat, durations: seq<int>, end: Date)
    returns (r: seq<Extraction>)
    requires Ascending(reps) && SortedInts(durations) && k < |reps|
    requires Planned(searches, reps, k, durations, 0, end)
    ensures Planned(r, reps, k, durations, |durations|, end)
  {
    r := searches;
    var seen := set e | e in r;
    var j := 0;
    while j < |durations|
      invariant 0 <= j <= |durations|
      invariant Planned(r, reps, k, durations, j, end)
      invariant seen == set e | e in r
    {
      var key := Extraction(reps[k], durations[j]);
      assert durations[..j + 1] == durations[..j] + [durations[j]];
      if key.pickup + key.days <= end && key !in seen {
        ComesLast(r, reps, k, durations, j, end);
        seen := seen + {key};
        r := r + [key];
      }
      j := j + 1;
    }
    assert durations[..|durations|] == durations;
  }

  lemma ComesLast(searches: seq<Extraction>, reps: seq<Date>, k: nat, durations: seq<int>, j: nat, end: Date)
    requires Ascending(reps) && SortedInts(durations) && k < |reps| && j < |durations|
    requires Planned(searches, reps, k, durations, j, end) && Extraction(reps[k], durations[j]) !in searches
    ensures searches != [] ==> Before(searches[|searches| - 1], Extraction(reps[k], durations[j]))
  {
    if searches != [] {
      var e := searches[|searches| - 1];
      assert e in searches;
      if e.pickup in reps[..k] {
        var i :| 0 <= i < k && reps[i] == e.pickup;
        AscendingAt(reps, i, k);
      } else {
        var i :| 0 <= i < j && durations[i] == e.days;
        SortedIntsAt(durations, i, j);
      }
    }
  }

  /** build_short_searches: exactly the admissible (representative, duration) pairs, each once, in
      strictly increasing order. */
  method BuildShortSearches(reps: set<Date>, durations: seq<int>, end: Date) returns (searches: seq<Extraction>)
    ensures Increasing(searches)
    ensures forall e :: e in searches <==> e.pickup in reps && e.days in durations && e.pickup + e.days <= end
  {
    var dates: seq<Date> := SortedSet(reps);
    var sorted := SortInts(durations);
    SortIntsSorts(durations);
    searches := [];
    var k := 0;
    while k < |dates|
      invariant 0 <= k <= |dates|
      invariant Increasing(searches)
      invariant forall e :: e in searches <==> e.pickup + e.days <= end && e.pickup in dates[..k] && e.days in sorted
    {
      assert dates[..k + 1] == dates[..k] + [dates[k]];
      searches := PlanDate(searches, dates, k, sorted, end);
      k := k + 1;
    }
    assert dates[..|dates|] == dates;
    forall e ensures e in searches <==> e.pickup in reps && e.days in durations && e.pickup + e.days <= end {
      assert e.pickup in Elements(dates) <==> e.pickup in reps;
    }
  }

  /** In a strictly increasing plan every search occurs once. */
  lemma PlannedOnce(searches: seq<Extraction>, i: nat, j: nat)
    requires Increasing(searches) && i < |searches| && j < |searches| && searches[i] == searches[j]
    ensures i == j
  {
    if i < j { IncreasingAt(searches, i, j); }
    if j < i { IncreasingAt(searches, j, i); }
  }
}
