/** run_session: group requests by provider, run one session per provider, scatter the results back to
    the original order; and the single retry pass over errored searches. */
module SessionRunner {
  import opened Comprehension
  import opened ScrapeSession

  /** Every car of this model carries one rate, named "default". */
  datatype RateFilter = RateFilter(names: Option<seq<string>>, excludeZero: bool)

  datatype Job = Job(request: Request, filter: Option<RateFilter>)

  function KeptCar(f: RateFilter): Car -> Option<Car> {
    (c: Car) =>
      if f.excludeZero && c.total == 0.0 then None
      else if f.names.Some? && f.names.value != [] && "default" !in f.names.value then None
      else Some(c)
  }

  /** RateFilter.apply builds a new result and does not pass the confirmed-empty flag on. */
  function Filtered(job: Job, r: BookingResult): BookingResult {
    if job.filter == None then r
    else BookingResult(r.provider, Gather(r.cars, KeptCar(job.filter.value)), r.errors, false)
  }

  /** Which cars the filter keeps: those with a price when free ones are excluded, and whose one rate is named when
      rates are named. */
  lemma FilterKeeps(f: RateFilter, cars: seq<Car>, c: Car)
    ensures c in Gather(cars, KeptCar(f)) <==>
      c in cars && (f.excludeZero ==> c.total != 0.0) &&
        (f.names.Some? && f.names.value != [] ==> exists i :: 0 <= i < |f.names.value| && f.names.value[i] == "default")
  {
    GatherMembers(cars, KeptCar(f), c);
  }

  /** Without a filter nothing changes; a filter keeps provider and errors and drops the confirmed-empty flag. */
  lemma FilteredMeaning(job: Job, r: BookingResult)
    ensures job.filter == None ==> Filtered(job, r) == r
    ensures job.filter.Some? ==>
      var f := Filtered(job, r);
      && f.provider == r.provider && f.errors == r.errors && !f.confirmedEmpty
      && f.cars == Gather(r.cars, KeptCar(job.filter.value))
  {
  }

  function Provider(job: Job): string {
    job.request.search.provider
  }

  /** Positions of the provider's jobs among the first n, ascending. */
  function Indices(jobs: seq<Job>, p: string, n: nat): seq<nat>
    requires n <= |jobs|
  {
    if n == 0 then []
    else Indices(jobs, p, n - 1) + if Provider(jobs[n - 1]) == p then [n - 1] else []
  }

  /** How many earlier jobs go to the same provider. */
  function Rank(jobs: seq<Job>, i: nat): nat
    requires i < |jobs|
  {
    |Indices(jobs, Provider(jobs[i]), i)|
  }

  /** Grouping and scattering are inverse: the rank-th position of a job's provider is the job's own. */
  lemma {:induction false} RankInverts(jobs: seq<Job>, i: nat, n: nat)
    requires i < n <= |jobs|
    ensures var idx := Indices(jobs, Provider(jobs[i]), n); Rank(jobs, i) < |idx| && idx[Rank(jobs, i)] == i
  {
    if i < n - 1 {
      RankInverts(jobs, i, n - 1);
    }
  }

  lemma {:induction false} IndicesInvert(jobs: seq<Job>, p: string, n: nat, k: nat)
    requires n <= |jobs| && k < |Indices(jobs, p, n)|
    ensures var i := Indices(jobs, p, n)[k]; i < n && Provider(jobs[i]) == p && Rank(jobs, i) == k
  {
    if k < |Indices(jobs, p, n - 1)| {
      IndicesInvert(jobs, p, n - 1, k);
    }
  }

  function Providers(jobs: seq<Job>): set<string> {
    set j | j in jobs :: Provider(j)
  }

  /** What a job's position receives: its provider's result at its rank, or nothing after an early stop. */
  function ResultAt(jobs: seq<Job>, sessions: map<string, seq<BookingResult>>, i: nat): Option<BookingResult>
    requires i < |jobs|
  {
    var p := Provider(jobs[i]);
    if p in sessions && Rank(jobs, i) < |sessions[p]| then Some(Filtered(jobs[i], sessions[p][Rank(jobs, i)])) else None
  }

  function IndicesIn(groups: map<string, seq<nat>>, p: string): seq<nat> {
    if p in groups then groups[p] else []
  }

  ghost predicate Grouped(groups: map<string, seq<nat>>, jobs: seq<Job>, n: nat)
    requires n <= |jobs|
  {
    forall p :: Lists(groups, jobs, p, n)
  }

  /** The provider's group lists its jobs among the first n. */
  predicate Lists(groups: map<string, seq<nat>>, jobs: seq<Job>, p: string, n: nat)
    requires n <= |jobs|
  {
    IndicesIn(groups, p) == Indices(jobs, p, n) && (p in groups ==> groups[p] != [])
  }

  lemma GroupedSnoc(groups: map<string, seq<nat>>, jobs: seq<Job>, n: nat)
    requires n < |jobs| && Grouped(groups, jobs, n)
    ensures var p := Provider(jobs[n]); Grouped(groups[p := IndicesIn(groups, p) + [n]], jobs, n + 1)
  {
    var p := Provider(jobs[n]);
    var next, m := groups[p := IndicesIn(groups, p) + [n]], n + 1;
    forall q ensures Lists(next, jobs, q, m) {
      assert Lists(groups, jobs, q, n);
    }
  }

  lemma ProvidersAreGroups(jobs: seq<Job>, groups: map<string, seq<nat>>)
    requires Grouped(groups, jobs, |jobs|)
    ensures groups.Keys == Providers(jobs)
    ensures forall p :: p in groups ==> groups[p] == Indices(jobs, p, |jobs|)
  {
    forall p ensures p in groups <==> p in Providers(jobs) {
      assert Lists(groups, jobs, p, |jobs|);
      if p in groups {
        IndicesInvert(jobs, p, |jobs|, 0);
      }
      if p in Providers(jobs) {
        var i :| 0 <= i < |jobs| && Provider(jobs[i]) == p;
        RankInverts(jobs, i, |jobs|);
      }
    }
    forall p | p in groups ensures groups[p] == Indices(jobs, p, |jobs|) {
      assert Lists(groups, jobs, p, |jobs|);
    }
  }

  /** groups[provider].append(i) */
  method GroupByProvider(jobs: seq<Job>) returns (groups: map<string, seq<nat>>)
    ensures groups.Keys == Providers(jobs)
    ensures forall p :: p in groups ==> groups[p] == Indices(jobs, p, |jobs|)
  {
    groups := map[];
    var i := 0;
    while i < |jobs|
      invariant 0 <= i <= |jobs|
      invariant Grouped(groups, jobs, i)
    {
      GroupedSnoc(groups, jobs, i);
      groups := groups[Provider(jobs[i]) := IndicesIn(groups, Provider(jobs[i])) + [i]];
      i := i + 1;
    }
    ProvidersAreGroups(jobs, groups);
  }

  /** What a provider's first n results leave at a position that held was before. */
  function Delivered(jobs: seq<Job>, p: string, session: seq<BookingResult>, n: nat, i: nat,
                     was: Option<BookingResult>): Option<BookingResult>
    requires i < |jobs| && n <= |session|
  {
    if Provider(jobs[i]) == p && Rank(jobs, i) < n then Some(Filtered(jobs[i], session[Rank(jobs, i)])) else was
  }

  /** Before and after one provider task. */
  ghost predicate Deliveries(jobs: seq<Job>, p: string, session: seq<BookingResult>, n: nat,
                             before: seq<Option<BookingResult>>, after: seq<Option<BookingResult>>)
  {
    && n <= |session| && |before| == |after| == |jobs|
    && forall i :: 0 <= i < |jobs| ==> after[i] == Delivered(jobs, p, session, n, i, before[i])
  }

  lemma DeliverNext(jobs: seq<Job>, p: string, session: seq<BookingResult>, n: nat,
                    before: seq<Option<BookingResult>>, after: seq<Option<BookingResult>>)
    requires n < |session| <= |Indices(jobs, p, |jobs|)| && Deliveries(jobs, p, session, n, before, after)
    ensures var at := Indices(jobs, p, |jobs|)[n];
      at < |jobs| && Deliveries(jobs, p, session, n + 1, before, after[at := Some(Filtered(jobs[at], session[n]))])
  {
    var at := Indices(jobs, p, |jobs|)[n];
    IndicesInvert(jobs, p, |jobs|, n);
    forall i | 0 <= i < |jobs| && Provider(jobs[i]) == p && Rank(jobs, i) == n ensures i == at {
      RankInverts(jobs, i, |jobs|);
    }
  }

  /** One provider task: write each of its results to its job's position. */
  method RunProvider(jobs: seq<Job>, p: string, indices: seq<nat>, session: seq<BookingResult>,
                     results: array<Option<BookingResult>>)
    requires results.Length == |jobs| && indices == Indices(jobs, p, |jobs|) && |session| <= |indices|
    modifies results
    ensures Deliveries(jobs, p, session, |session|, old(results[..]), results[..])
  {
    ghost var before := results[..];
    var k := 0;
    while k < |session|
      invariant 0 <= k <= |session|
      invariant Deliveries(jobs, p, session, k, before, results[..])
    {
      DeliverNext(jobs, p, session, k, before, results[..]);
      results[indices[k]] := Some(Filtered(jobs[indices[k]], session[k]));
      k := k + 1;
    }
  }

  /** Who has been served: everybody but the providers that remain. */
  ghost predicate Scattered(results: seq<Option<BookingResult>>, jobs: seq<Job>, sessions: map<string,
                            seq<BookingResult>>, remaining: set<string>)
  {
    && |results| == |jobs|
    && forall i :: 0 <= i < |jobs| ==> results[i] == if Provider(jobs[i]) in remaining then None
         else ResultAt(jobs, sessions, i)
  }

  lemma ScatterNext(before: seq<Option<BookingResult>>, after: seq<Option<BookingResult>>, jobs: seq<Job>,
                    sessions: map<string, seq<BookingResult>>, remaining: set<string>, p: string)
    requires Scattered(before, jobs, sessions, remaining) && p in remaining && p in sessions
    requires Deliveries(jobs, p, sessions[p], |sessions[p]|, before, after)
    ensures Scattered(after, jobs, sessions, remaining - {p})
  {
  }

  /** run_session: provider tasks finish in any order. sessions holds what each provider's session
      returned for its jobs, in their order. */
  method RunSession(jobs: seq<Job>, sessions: map<string, seq<BookingResult>>)
    returns (results: array<Option<BookingResult>>)
    requires forall p :: p in Providers(jobs) ==> p in sessions && |sessions[p]| <= |Indices(jobs, p, |jobs|)|
    ensures fresh(results) && results.Length == |jobs|
    ensures forall i :: 0 <= i < |jobs| ==> results[i] == ResultAt(jobs, sessions, i)
  {
    var groups := GroupByProvider(jobs);
    results := new Option<BookingResult>[|jobs|](_ => None);
    var remaining := groups.Keys;
    while remaining != {}
      invariant remaining <= groups.Keys
      invariant Scattered(results[..], jobs, sessions, remaining)
      decreases remaining
    {
      var p :| p in remaining;
      ghost var before := results[..];
      RunProvider(jobs, p, groups[p], sessions[p], results);
      ScatterNext(before, results[..], jobs, sessions, remaining, p);
      remaining := remaining - {p};
    }
    assert forall i :: 0 <= i < |jobs| ==> results[..][i] == results[i];
  }

  /** Every provider's session has as many results as requests, as it has without a stopper. */
  ghost predicate Complete(jobs: seq<Job>, sessions: map<string, seq<BookingResult>>) {
    forall p :: p in Providers(jobs) ==> p in sessions && |sessions[p]| == |Indices(jobs, p, |jobs|)|
  }

  /** The results come back in request order: whatever relates the k-th job of every provider to the
      k-th result of its session relates every job to the result at its own position; and no position is left
      empty unless a session stopped early. */
  lemma OrderRestored(jobs: seq<Job>, sessions: map<string, seq<BookingResult>>, good: (Job, BookingResult) -> bool,
                      i: nat)
    requires i < |jobs|
    requires forall p, k :: p in sessions && 0 <= k < |sessions[p]| && k < |Indices(jobs, p, |jobs|)| ==>
      Indices(jobs, p, |jobs|)[k] < |jobs| && good(jobs[Indices(jobs, p, |jobs|)[k]], sessions[p][k])
    ensures Complete(jobs, sessions) ==> ResultAt(jobs, sessions, i).Some?
    ensures ResultAt(jobs, sessions, i).Some? ==>
      exists r :: good(jobs[i], r) && ResultAt(jobs, sessions, i) == Some(Filtered(jobs[i], r))
  {
    RankInverts(jobs, i, |jobs|);
    if ResultAt(jobs, sessions, i).Some? {
      var r := sessions[Provider(jobs[i])][Rank(jobs, i)];
      assert good(jobs[i], r);
    }
  }

  /** With a single provider the executed jobs are a prefix, as long as the session's results. */
  lemma {:induction false} SingleProvider(jobs: seq<Job>, p: string, n: nat)
    requires n <= |jobs| && forall i :: 0 <= i < n ==> Provider(jobs[i]) == p
    ensures Indices(jobs, p, n) == seq(n, i => i)
    ensures forall i :: 0 <= i < n ==> Rank(jobs, i) == i
  {
    if n > 0 {
      SingleProvider(jobs, p, n - 1);
    }
  }

  /** With a single provider, what is executed is a prefix of the requests, in their order. */
  lemma PrefixExecuted(jobs: seq<Job>, p: string, sessions: map<string, seq<BookingResult>>, i: nat)
    requires (forall j :: 0 <= j < |jobs| ==> Provider(jobs[j]) == p) && p in sessions && i < |jobs|
    ensures ResultAt(jobs, sessions, i) == if i < |sessions[p]| then Some(Filtered(jobs[i], sessions[p][i])) else None
  {
    SingleProvider(jobs, p, |jobs|);
  }

  lemma {:induction false} IndicesBound(jobs: seq<Job>, p: string, n: nat)
    requires n <= |jobs|
    ensures forall k :: 0 <= k < |Indices(jobs, p, n)| ==> Indices(jobs, p, n)[k] < n
  {
    if n > 0 {
      IndicesBound(jobs, p, n - 1);
    }
  }

  /** The requests a provider's session receives. */
  function RequestsOf(jobs: seq<Job>, p: string): (r: seq<Request>)
    ensures |r| == |Indices(jobs, p, |jobs|)|
    ensures forall k :: 0 <= k < |r| ==>
      Indices(jobs, p, |jobs|)[k] < |jobs| && r[k] == jobs[Indices(jobs, p, |jobs|)[k]].request
  {
    IndicesBound(jobs, p, |jobs|);
    var indices := Indices(jobs, p, |jobs|);
    seq(|indices|, k requires 0 <= k < |indices| && indices[k] < |jobs| => jobs[indices[k]].request)
  }

  /** The result is the job's own: scraped for one of its searches, or the error after all of them failed. */
  ghost predicate Own(job: Job, r: BookingResult) {
    exists tries: seq<Try> :: Served(tries, job.request, r) && AllReal(tries)
  }

  /** From the browser to the caller: when every provider's session is one that the scraper can produce,
      every filled position holds its own request's result, filtered by its own filter; and when no session
      stopped early, every position is filled. */
  lemma OwnResultRestored(jobs: seq<Job>, sessions: map<string, seq<BookingResult>>, i: nat)
    requires i < |jobs|
    requires forall p :: p in sessions ==>
      exists served: seq<seq<Try>> :: OwnResults(served, RequestsOf(jobs, p), sessions[p])
    ensures Complete(jobs, sessions) ==> ResultAt(jobs, sessions, i).Some?
    ensures ResultAt(jobs, sessions, i).Some? ==>
      exists r :: Own(jobs[i], r) && ResultAt(jobs, sessions, i) == Some(Filtered(jobs[i], r))
  {
    RankInverts(jobs, i, |jobs|);
    if ResultAt(jobs, sessions, i).Some? {
      var p, k := Provider(jobs[i]), Rank(jobs, i);
      var served: seq<seq<Try>> :| OwnResults(served, RequestsOf(jobs, p), sessions[p]);
      assert Served(served[k], RequestsOf(jobs, p)[k], sessions[p][k]) && AllReal(served[k]);
      assert Own(jobs[i], sessions[p][k]);
    }
  }

  // ---------------------------------------------------------------- retry of errored searches

  predicate Errored(r: Option<BookingResult>) {
    r.Some? && r.value.errors != [] && r.value.cars == []
  }

  /** Positions of the errored results among the first n. */
  function ErroredUpTo(results: seq<Option<BookingResult>>, n: nat): seq<nat>
    requires n <= |results|
  {
    if n == 0 then [] else ErroredUpTo(results, n - 1) + if Errored(results[n - 1]) then [n - 1] else []
  }

  lemma {:induction false} ErroredMeaning(results: seq<Option<BookingResult>>, n: nat)
    requires n <= |results|
    ensures forall j :: 0 <= j < |ErroredUpTo(results, n)| ==>
      ErroredUpTo(results, n)[j] < n && Errored(results[ErroredUpTo(results, n)[j]])
    ensures forall i, j :: 0 <= i < j < |ErroredUpTo(results, n)| ==>
      ErroredUpTo(results, n)[i] < ErroredUpTo(results, n)[j]
    ensures forall i :: 0 <= i < n && Errored(results[i]) ==> i in ErroredUpTo(results, n)
  {
    if n > 0 {
      ErroredMeaning(results, n - 1);
    }
  }

  function Pick(jobs: seq<Job>, indices: seq<nat>): seq<Job>
    requires forall i :: i in indices ==> i < |jobs|
  {
    seq(|indices|, j requires 0 <= j < |indices| => assert indices[j] in indices; jobs[indices[j]])
  }

  /** The value an errored position ends with: the retry when it brought cars, else the old error. */
  function Recovered(old_: Option<BookingResult>, retry: Option<BookingResult>): Option<BookingResult> {
    if retry.Some? && retry.value.cars != [] then retry else old_
  }

  /** The list after the first n retries have been written back. */
  function WrittenBack(before: seq<Option<BookingResult>>, errored: seq<nat>, retry: seq<Option<BookingResult>>,
                       n: nat): (r: seq<Option<BookingResult>>)
    requires n <= |errored| == |retry| && forall j :: 0 <= j < |errored| ==> errored[j] < |before|
    ensures |r| == |before|
  {
    if n == 0 then before
    else
      var r := WrittenBack(before, errored, retry, n - 1);
      r[errored[n - 1] := Recovered(r[errored[n - 1]], retry[n - 1])]
  }

  lemma {:induction false} WrittenBackMeaning(before: seq<Option<BookingResult>>, errored: seq<nat>,
                                              retry: seq<Option<BookingResult>>, n: nat)
    requires n <= |errored| == |retry| && forall j :: 0 <= j < |errored| ==> errored[j] < |before|
    requires forall i, j :: 0 <= i < j < |errored| ==> errored[i] < errored[j]
    ensures var r := WrittenBack(before, errored, retry, n);
      && (forall j :: 0 <= j < n ==> r[errored[j]] == Recovered(before[errored[j]], retry[j]))
      && forall i :: 0 <= i < |before| && (forall j :: 0 <= j < n ==> errored[j] != i) ==> r[i] == before[i]
  {
    if n > 0 {
      WrittenBackMeaning(before, errored, retry, n - 1);
    }
  }

  /** A retry keeps what there was, or replaces an error by cars. */
  predicate OnlyGains(before: Option<BookingResult>, after: Option<BookingResult>) {
    after == before || (Errored(before) && after.Some? && after.value.cars != [] && !Errored(after))
  }

  lemma WrittenBackGains(before: seq<Option<BookingResult>>, errored: seq<nat>, retry: seq<Option<BookingResult>>,
                         n: nat)
    requires n <= |errored| == |retry| && forall j :: 0 <= j < |errored| ==>
      errored[j] < |before| && Errored(before[errored[j]])
    requires forall i, j :: 0 <= i < j < |errored| ==> errored[i] < errored[j]
    ensures forall i :: 0 <= i < |before| ==> OnlyGains(before[i], WrittenBack(before, errored, retry, n)[i])
  {
    WrittenBackMeaning(before, errored, retry, n);
    forall i | 0 <= i < |before| ensures OnlyGains(before[i], WrittenBack(before, errored, retry, n)[i]) {
      if j :| 0 <= j < n && errored[j] == i {
        assert WrittenBack(before, errored, retry, n)[errored[j]] == Recovered(before[errored[j]], retry[j]);
      }
    }
  }

  /** The retry loop. */
  method WriteBack(results: array<Option<BookingResult>>, errored: seq<nat>, retry: array<Option<BookingResult>>)
    requires retry != results && retry.Length == |errored| && forall j :: 0 <= j < |errored| ==>
      errored[j] < results.Length
    modifies results
    ensures results[..] == WrittenBack(old(results[..]), errored, retry[..], |errored|)
  {
    ghost var before := results[..];
    var j := 0;
    while j < |errored|
      invariant 0 <= j <= |errored|
      invariant results[..] == WrittenBack(before, errored, retry[..], j)
    {
      var i := errored[j];
      var rr := retry[j];
      if rr.Some? && rr.value.cars != [] {
        results[i] := rr;
      }
      j := j + 1;
    }
  }

  /** _retry_errored_searches, in place. */
  method RetryErrored(jobs: seq<Job>, results: array<Option<BookingResult>>, retrySessions: map<string,
                      seq<BookingResult>>)
    requires results.Length == |jobs|
    requires forall i :: i in ErroredUpTo(results[..], |jobs|) ==> i < |jobs|
    requires var again := Pick(jobs, ErroredUpTo(results[..], |jobs|));
      forall p :: p in Providers(again) ==> p in retrySessions && |retrySessions[p]| <= |Indices(again, p, |again|)|
    modifies results
    ensures forall i :: 0 <= i < |jobs| && !Errored(old(results[..])[i]) ==> results[i] == old(results[..])[i]
    ensures var errored := old(ErroredUpTo(results[..], |jobs|));
      forall j :: 0 <= j < |errored| ==>
        && errored[j] < |jobs|
        && var retry := ResultAt(Pick(jobs, errored), retrySessions, j);
             results[..][errored[j]] ==
               if retry.Some? && retry.value.cars != [] then retry else old(results[..])[errored[j]]
    ensures forall i :: 0 <= i < |jobs| ==> OnlyGains(old(results[..])[i], results[..][i])
  {
    ghost var before := results[..];
    ErroredMeaning(before, |jobs|);
    var errored := ErroredUpTo(results[..], |jobs|);
    if errored == [] {
      return;
    }
    var retry := RunSession(Pick(jobs, errored), retrySessions);
    ghost var retried := retry[..];
    WriteBack(results, errored, retry);
    WrittenBackMeaning(before, errored, retried, |errored|);
    WrittenBackGains(before, errored, retried, |errored|);
    assert results[..] == WrittenBack(before, errored, retried, |errored|);
  }

}
