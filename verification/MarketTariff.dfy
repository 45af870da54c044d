/** The market tariff: one price per client group, tramo and duration, aggregated over all active
    subscriptions; and its refinement of the plain per-day query. */
module MarketTariff {
  import opened Comprehension
  import opened Catalog
  import opened Dates
  import opened Grid
  import opened OrderStatistics
  import opened Rounding

  datatype Aggregate = Average | Minimum

  /** Coverage applies to market tables only. */
  datatype Row = Row(code: string, first: Date, last: Date, prices: map<nat, Option<real>>, coverage: Option<map<nat,
                     nat>>)

  function Lookup(prices: map<PriceKey, real>, k: PriceKey): Option<real> {
    if k in prices then Some(prices[k]) else None
  }

  function Cheapest(xs: seq<real>): Option<real> {
    if xs == [] then None else Some(OrderStatistics.Min(xs))
  }

  // ---------------------------------------------------------------- the per-day query

  /** Price of a category on a day: the observation at the representative of the first listed zone
      that contains the day. */
  function CategoryOn(db: Tables, offer: Offer, t: Date, dur: nat): nat -> Option<real> {
    (c: nat) =>
      match RepOn(db, offer, c, t)
      case None => None
      case Some(rep) => Lookup(db.prices, PriceKey(offer, c, rep, dur))
  }

  /** Price of a subscription for a group on a day: the cheapest of the categories serving it. */
  function OfferOn(db: Tables, group: nat, t: Date, dur: nat): Offer -> Option<real> {
    (offer: Offer) => Cheapest(Gather(Serving(db, offer, group), CategoryOn(db, offer, t, dur)))
  }

  /** The contributing subscription prices of a day. */
  function MarketOn(db: Tables, subs: seq<Offer>, group: nat, t: Date, dur: nat): seq<real> {
    Gather(subs, OfferOn(db, group, t, dur))
  }

  function Aggregated(aggregate: Aggregate, xs: seq<real>): Option<real> {
    if xs == [] then None
    else if aggregate == Average then Some(BankersCents(Sum(xs) / |xs| as real))
    else Some(OrderStatistics.Min(xs))
  }

  // ---------------------------------------------------------------- prepared subscriptions

  /** What the service keeps per subscription between its queries and the row loop. */
  datatype SubData = SubData(
    offer: Offer, categoriesOf: map<nat, seq<nat>>, zones: seq<ZoneRow>, zoneMap: map<nat, seq<Triple>>,
      prices: map<PriceKey, real>)

  function AllIds(categoriesOf: map<nat, seq<nat>>): set<nat> {
    set g, id | g in categoriesOf && id in categoriesOf[g] :: id
  }

  /** None when the subscription serves none of the groups, or has no zone over the range. */
  function Prepare(db: Tables, groups: set<nat>, d1: Date, d2: Date, durations: set<nat>): Offer -> Option<SubData> {
    (offer: Offer) =>
      var categoriesOf := MappingsOf(db, offer, groups);
      var ids := AllIds(categoriesOf);
      var zones := LoadZones(db, offer, ids, d1, d2);
      if ids == {} || zones == [] then None
      else Some(SubData(offer, categoriesOf, zones, ZoneMapOf(zones),
                        FetchObservations(db, offer, ids, Reps(zones), durations)))
  }

  function CategoryOver(sd: SubData, tramo: Tramo, dur: nat): nat -> Option<real> {
    (c: nat) =>
      match FindRepresentative(Get(sd.zoneMap, c), tramo.first, tramo.last)
      case None => None
      case Some(rep) => Lookup(sd.prices, PriceKey(sd.offer, c, rep, dur))
  }

  function SubOver(group: nat, tramo: Tramo, dur: nat): SubData -> Option<real> {
    (sd: SubData) => Cheapest(Gather(Get(sd.categoriesOf, group), CategoryOver(sd, tramo, dur)))
  }

  ghost predicate AllAligned(rows: seq<ZoneRow>, tramo: Tramo) {
    forall z :: z in rows ==> Aligned(RangeOf(z), tramo)
  }

  lemma GetZones(rows: seq<ZoneRow>, c: nat)
    ensures Get(ZoneMapOf(rows), c) == Gather(rows, TripleOf(c))
  {
    if c !in CategoriesIn(rows) && Gather(rows, TripleOf(c)) != [] {
      GatherMembers(rows, TripleOf(c), Gather(rows, TripleOf(c))[0]);
    }
  }

  /** Over a tramo every zone covers or misses, the kept zones give each category the price of any day. */
  lemma StretchAgrees(db: Tables, sd: SubData, zones: seq<ZoneRow>, tramo: Tramo, t: Date, dur: nat, serving: seq<nat>)
    requires tramo.Contains(t) && AllAligned(sd.zones, tramo) && sd.zones == zones && sd.zoneMap == ZoneMapOf(zones)
    requires forall c :: c in serving ==> RepOn(db, sd.offer, c, t) == FirstRep(zones, c, t)
    requires forall c, rep :: c in serving && rep in Reps(zones) ==>
      Lookup(db.prices, PriceKey(sd.offer, c, rep, dur)) == Lookup(sd.prices, PriceKey(sd.offer, c, rep, dur))
    ensures forall c :: c in serving ==> CategoryOn(db, sd.offer, t, dur)(c) == CategoryOver(sd, tramo, dur)(c)
  {
    forall c | c in serving
      ensures CategoryOn(db, sd.offer, t, dur)(c) == CategoryOver(sd, tramo, dur)(c)
    {
      GetZones(zones, c);
      StretchIsAnyDay(zones, c, tramo, t);
      FirstRepIsListed(zones, c, t);
    }
  }

  /** A prepared subscription answers for a tramo what the per-day query answers for its days. */
  lemma PreparedAgrees(db: Tables, groups: set<nat>, d1: Date, d2: Date, durations: set<nat>,
                       offer: Offer, group: nat, tramo: Tramo, t: Date, dur: nat)
    requires group in groups && dur in durations && d1 <= t <= d2 && tramo.Contains(t)
    requires var sd := Prepare(db, groups, d1, d2, durations)(offer); sd.Some? ==> AllAligned(sd.value.zones, tramo)
    ensures OfferOn(db, group, t, dur)(offer) ==
      var sd := Prepare(db, groups, d1, d2, durations)(offer); if sd.Some? then SubOver(group, tramo, dur)(sd.value)
        else None
  {
    var categoriesOf := MappingsOf(db, offer, groups);
    var ids := AllIds(categoriesOf);
    var zones := LoadZones(db, offer, ids, d1, d2);
    var serving := Serving(db, offer, group);
    assert Get(categoriesOf, group) == serving;
    forall c | c in serving
      ensures c in ids && RepOn(db, offer, c, t) == FirstRep(zones, c, t)
    {
      assert group in categoriesOf && c in categoriesOf[group];
      LoadingIsEnough(db.zones, offer, ids, d1, d2, c, t);
    }
    var sd := Prepare(db, groups, d1, d2, durations)(offer);
    if sd.Some? {
      StretchAgrees(db, sd.value, zones, tramo, t, dur, serving);
      GatherCongruence(serving, CategoryOn(db, offer, t, dur), CategoryOver(sd.value, tramo, dur));
    } else {
      GatherNothing(serving, CategoryOn(db, offer, t, dur));
    }
  }

  /** All prepared subscriptions together answer for a tramo what the market answers on its days. */
  lemma MarketAgrees(db: Tables, subs: seq<Offer>, groups: set<nat>, d1: Date, d2: Date, durations: set<nat>,
                     group: nat, tramo: Tramo, t: Date, dur: nat)
    requires group in groups && dur in durations && d1 <= t <= d2 && tramo.Contains(t)
    requires forall sd :: sd in Gather(subs, Prepare(db, groups, d1, d2, durations)) ==> AllAligned(sd.zones, tramo)
    ensures Gather(Gather(subs, Prepare(db, groups, d1, d2, durations)),
                   SubOver(group, tramo, dur)) == MarketOn(db, subs, group, t, dur)
  {
    var prepare := Prepare(db, groups, d1, d2, durations);
    forall offer | offer in subs
      ensures OfferOn(db, group, t, dur)(offer) ==
        if prepare(offer).Some? then SubOver(group, tramo, dur)(prepare(offer).value) else None
    {
      if prepare(offer).Some? {
        var i :| 0 <= i < |subs| && subs[i] == offer;
        GatherMembers(subs, prepare, prepare(offer).value);
      }
      PreparedAgrees(db, groups, d1, d2, durations, offer, group, tramo, t, dur);
    }
    GatherCompose(subs, prepare, SubOver(group, tramo, dur), OfferOn(db, group, t, dur));
  }

  // ---------------------------------------------------------------- repeated durations

  /** n copies of x */
  function Copies(x: real, n: nat): (r: seq<real>)
    ensures |r| == n
  {
    seq(n, _ => x)
  }

  /** Every element n times in a row: what the row loop collects when a duration is listed n times. */
  function Spread(xs: seq<real>, n: nat): seq<real> {
    if xs == [] then [] else Spread(xs[..|xs| - 1], n) + Copies(xs[|xs| - 1], n)
  }

  lemma {:induction false} SumSplit(a: seq<real>, b: seq<real>)
    ensures Sum(a + b) == Sum(a) + Sum(b)
  {
    if a == [] {
      assert a + b == b;
    } else {
      assert (a + b)[1..] == a[1..] + b;
      SumSplit(a[1..], b);
    }
  }

  /** x added up n times */
  ghost function Scaled(n: nat, x: real): real {
    if n == 0 then 0.0 else Scaled(n - 1, x) + x
  }

  lemma {:induction false} ScaledAdds(n: nat, x: real, y: real)
    ensures Scaled(n, x + y) == Scaled(n, x) + Scaled(n, y)
  {
    if n > 0 {
      ScaledAdds(n - 1, x, y);
    }
  }

  lemma {:induction false} ScaledRatio(n: nat, x: real, y: real)
    requires y > 0.0
    ensures Scaled(n, x) == x / y * Scaled(n, y)
    ensures n > 0 ==> Scaled(n, y) > 0.0
  {
    if n > 0 {
      ScaledRatio(n - 1, x, y);
      assert x == x / y * y;
    } else {
      assert Scaled(n, y) == 0.0;
    }
  }

  lemma {:induction false} SumCopies(x: real, n: nat)
    ensures Sum(Copies(x, n)) == Scaled(n, x)
  {
    if n > 0 {
      assert Copies(x, n)[1..] == Copies(x, n - 1);
      SumCopies(x, n - 1);
    }
  }

  lemma {:induction false} SpreadSums(xs: seq<real>, n: nat)
    ensures Sum(Spread(xs, n)) == Scaled(n, Sum(xs))
    ensures |Spread(xs, n)| as real == Scaled(n, |xs| as real)
  {
    if xs == [] {
      ScaledAdds(n, 0.0, 0.0);
    } else {
      var front, last := xs[..|xs| - 1], xs[|xs| - 1];
      assert xs == front + [last];
      SpreadSums(front, n);
      SumSplit(front, [last]);
      SumSplit(Spread(front, n), Copies(last, n));
      SumCopies(last, n);
      ScaledAdds(n, Sum(front), last);
      ScaledAdds(n, |front| as real, 1.0);
      ScaledOne(n);
    }
  }

  lemma {:induction false} ScaledOne(n: nat)
    ensures Scaled(n, 1.0) == n as real
  {
    if n > 0 {
      ScaledOne(n - 1);
    }
  }

  lemma {:induction false} SpreadLength(xs: seq<real>, n: nat)
    ensures |Spread(xs, n)| == n * |xs|
  {
    if xs != [] {
      SpreadLength(xs[..|xs| - 1], n);
      assert n * |xs| == n * (|xs| - 1) + n;
    }
  }

  lemma {:induction false} SpreadMembers(xs: seq<real>, n: nat, x: real)
    requires n > 0
    ensures x in Spread(xs, n) <==> x in xs
  {
    if xs != [] {
      var front, last := xs[..|xs| - 1], xs[|xs| - 1];
      SpreadMembers(front, n, x);
      assert xs == front + [last];
      assert Copies(last, n)[0] == last;
    }
  }

  lemma MinByMembers(a: seq<real>, b: seq<real>)
    requires a != [] && b != [] && forall x :: x in a <==> x in b
    ensures OrderStatistics.Min(a) == OrderStatistics.Min(b)
  {
    Extremes(a);
    Extremes(b);
  }

  /** Listing a duration several times changes no price, only multiplies its coverage. */
  lemma SpreadAggregates(aggregate: Aggregate, xs: seq<real>, n: nat)
    requires n > 0
    ensures Aggregated(aggregate, Spread(xs, n)) == Aggregated(aggregate, xs)
    ensures |Spread(xs, n)| == n * |xs|
  {
    SpreadLength(xs, n);
    if xs != [] {
      forall x ensures x in Spread(xs, n) <==> x in xs { SpreadMembers(xs, n, x); }
      assert xs[0] in Spread(xs, n);
      MinByMembers(Spread(xs, n), xs);
      SpreadMean(xs, n);
    }
  }

  lemma SpreadMean(xs: seq<real>, n: nat)
    requires n > 0 && xs != []
    ensures |Spread(xs, n)| > 0 && Sum(Spread(xs, n)) / |Spread(xs, n)| as real == Sum(xs) / |xs| as real
  {
    SpreadSums(xs, n);
    ScaledRatio(n, Sum(xs), |xs| as real);
    Quotient(Sum(Spread(xs, n)), |Spread(xs, n)| as real, Sum(xs) / |xs| as real);
  }

  lemma Quotient(s: real, m: real, q: real)
    requires m > 0.0 && s == q * m
    ensures s / m == q
  {
  }

  // ---------------------------------------------------------------- the row loop

  function Times(durations: seq<nat>, d: nat): nat {
    multiset(durations)[d]
  }

  function PriceFor(subData: seq<SubData>, group: nat, tramo: Tramo, aggregate: Aggregate, d: nat): Option<real> {
    Aggregated(aggregate, Gather(subData, SubOver(group, tramo, d)))
  }

  function Product(a: nat, b: nat): nat {
    a * b
  }

  /** Contributing subscriptions, once per time the duration is listed. */
  function CoverageFor(subData: seq<SubData>, group: nat, tramo: Tramo, durations: seq<nat>, d: nat): nat {
    Product(Times(durations, d), |Gather(subData, SubOver(group, tramo, d))|)
  }

  function PricesFor(subData: seq<SubData>, group: nat, tramo: Tramo, durations: seq<nat>,
                     aggregate: Aggregate): map<nat, Option<real>>
  {
    map d | d in durations :: PriceFor(subData, group, tramo, aggregate, d)
  }

  function CoveragesFor(subData: seq<SubData>, group: nat, tramo: Tramo, durations: seq<nat>): map<nat, nat> {
    map d | d in durations :: CoverageFor(subData, group, tramo, durations, d)
  }

  /** One row of the table, from the prepared subscriptions. */
  function RowFor(subData: seq<SubData>, code: string, group: nat, tramo: Tramo, durations: seq<nat>,
                  aggregate: Aggregate): Row
  {
    Row(code, tramo.first, tramo.last, PricesFor(subData, group, tramo, durations, aggregate),
        Some(CoveragesFor(subData, group, tramo, durations)))
  }

  function CopiesOf(x: Option<real>, n: nat): seq<real> {
    if x.Some? then Copies(x.value, n) else []
  }

  lemma CopiesStep(x: Option<real>, durations: seq<nat>, j: nat, d: nat)
    requires j < |durations|
    ensures CopiesOf(x, Times(durations[..j + 1], d)) ==
      CopiesOf(x, Times(durations[..j], d)) + if x.Some? && durations[j] == d then [x.value] else []
  {
    assert durations[..j + 1] == durations[..j] + [durations[j]];
  }

  /** For every listed duration that has a value, append that value to the duration's list. */
  method AppendPerDuration(m: map<nat, seq<real>>, values: map<nat, Option<real>>, durations: seq<nat>)
    returns (r: map<nat, seq<real>>)
    requires forall d :: d in durations ==> d in m && d in values
    ensures r.Keys == m.Keys
    ensures forall d :: d in durations ==> r[d] == m[d] + CopiesOf(values[d], Times(durations, d))
  {
    r := m;
    var j := 0;
    while j < |durations|
      invariant 0 <= j <= |durations| && r.Keys == m.Keys
      invariant forall d :: d in durations ==> r[d] == m[d] + CopiesOf(values[d], Times(durations[..j], d))
    {
      forall d | d in durations
        ensures CopiesOf(values[d], Times(durations[..j + 1], d)) ==
          CopiesOf(values[d], Times(durations[..j], d)) + if values[d].Some? && durations[j] == d then [values[d].value]
            else []
      {
        CopiesStep(values[d], durations, j, d);
      }
      var d := durations[j];
      if values[d].Some? {
        r := r[d := r[d] + [values[d].value]];
      }
      j := j + 1;
    }
    assert durations[..|durations|] == durations;
  }

  /** The lists hold, per duration, every gathered value as often as the duration is listed. */
  ghost predicate Holds<A>(m: map<nat, seq<real>>, s: seq<A>, f: nat -> A -> Option<real>, durations: seq<nat>) {
    forall d :: d in durations ==> d in m && m[d] == Spread(Gather(s, f(d)), Times(durations, d))
  }

  lemma SpreadSnoc(xs: seq<real>, x: real, n: nat)
    ensures Spread(xs + [x], n) == Spread(xs, n) + Copies(x, n)
  {
    assert (xs + [x])[..|xs|] == xs;
  }

  lemma HoldsStep<A>(m: map<nat, seq<real>>, r: map<nat, seq<real>>, s: seq<A>, k: nat, f: nat -> A -> Option<real>,
                     durations: seq<nat>)
    requires k < |s| && Holds(m, s[..k], f, durations)
    requires forall d :: d in durations ==> d in r && r[d] == m[d] + CopiesOf(f(d)(s[k]), Times(durations, d))
    ensures Holds(r, s[..k + 1], f, durations)
  {
    forall d | d in durations ensures r[d] == Spread(Gather(s[..k + 1], f(d)), Times(durations, d)) {
      SpreadGather(s, k, f(d), Times(durations, d));
    }
  }

  lemma SpreadGather<A>(s: seq<A>, k: nat, f: A -> Option<real>, n: nat)
    requires k < |s|
    ensures Spread(Gather(s[..k + 1], f), n) == Spread(Gather(s[..k], f), n) + CopiesOf(f(s[k]), n)
  {
    GatherSnoc(s, k, f);
    if f(s[k]).Some? {
      SpreadSnoc(Gather(s[..k], f), f(s[k]).value, n);
    } else {
      assert Gather(s[..k], f) + [] == Gather(s[..k], f);
    }
  }

  function CategoryFor(sd: SubData, tramo: Tramo): nat -> nat -> Option<real> {
    (d: nat) => CategoryOver(sd, tramo, d)
  }

  function SubFor(group: nat, tramo: Tramo): nat -> SubData -> Option<real> {
    (d: nat) => SubOver(group, tramo, d)
  }

  /** The price of one category per duration. */
  method CategoryPrices(sd: SubData, c: nat, tramo: Tramo, durations: seq<nat>)
    returns (values: map<nat, Option<real>>)
    ensures forall d :: d in durations ==> d in values && values[d] == CategoryFor(sd, tramo)(d)(c)
  {
    var rep := FindRepresentative(Get(sd.zoneMap, c), tramo.first, tramo.last);
    values := map d | d in durations ::
      if rep.Some? then Lookup(sd.prices, PriceKey(sd.offer, c, rep.value, d)) else None;
  }

  /** Prices of one subscription per duration, over the categories of the group. */
  method OffersByDuration(sd: SubData, categories: seq<nat>, tramo: Tramo, durations: seq<nat>)
    returns (m: map<nat, seq<real>>)
    ensures Holds(m, categories, CategoryFor(sd, tramo), durations)
  {
    m := map d | d in durations :: [];
    var i := 0;
    while i < |categories|
      invariant 0 <= i <= |categories|
      invariant Holds(m, categories[..i], CategoryFor(sd, tramo), durations)
    {
      var values := CategoryPrices(sd, categories[i], tramo, durations);
      ghost var before := m;
      m := AppendPerDuration(m, values, durations);
      HoldsStep(before, m, categories, i, CategoryFor(sd, tramo), durations);
      i := i + 1;
    }
    assert categories[..|categories|] == categories;
  }

  lemma HeldMinimum(m: map<nat, seq<real>>, sd: SubData, group: nat, tramo: Tramo, durations: seq<nat>, d: nat)
    requires Holds(m, Get(sd.categoriesOf, group), CategoryFor(sd, tramo), durations) && d in durations
    ensures Cheapest(m[d]) == SubOver(group, tramo, d)(sd)
  {
    SpreadAggregates(Minimum, Gather(Get(sd.categoriesOf, group), CategoryOver(sd, tramo, d)), Times(durations, d));
  }

  /** What one subscription contributes to every listed duration. */
  method OneSubscription(sd: SubData, group: nat, tramo: Tramo, durations: seq<nat>)
    returns (values: map<nat, Option<real>>)
    ensures forall d :: d in durations ==> d in values && values[d] == SubOver(group, tramo, d)(sd)
  {
    var offers := OffersByDuration(sd, Get(sd.categoriesOf, group), tramo, durations);
    values := map d | d in durations :: Cheapest(offers[d]);
    forall d | d in durations ensures values[d] == SubOver(group, tramo, d)(sd) {
      HeldMinimum(offers, sd, group, tramo, durations, d);
    }
  }

  /** One coverage point for every listed duration that has a value. */
  method CountPerDuration(c: map<nat, nat>, values: map<nat, Option<real>>, durations: seq<nat>)
    returns (r: map<nat, nat>)
    requires forall d :: d in durations ==> d in c && d in values
    ensures r.Keys == c.Keys
    ensures forall d :: d in durations ==> r[d] == c[d] + |CopiesOf(values[d], Times(durations, d))|
  {
    r := c;
    var j := 0;
    while j < |durations|
      invariant 0 <= j <= |durations| && r.Keys == c.Keys
      invariant forall d :: d in durations ==> r[d] == c[d] + |CopiesOf(values[d], Times(durations[..j], d))|
    {
      assert durations[..j + 1] == durations[..j] + [durations[j]];
      var d := durations[j];
      if values[d].Some? {
        r := r[d := r[d] + 1];
      }
      j := j + 1;
    }
    assert durations[..|durations|] == durations;
  }

  ghost predicate Counted(prices: map<nat, seq<real>>, coverage: map<nat, nat>, durations: seq<nat>) {
    forall d :: d in durations ==> d in prices && d in coverage && coverage[d] == |prices[d]|
  }

  lemma HoldsNothing<A>(m: map<nat, seq<real>>, f: nat -> A -> Option<real>, durations: seq<nat>)
    requires forall d :: d in durations ==> d in m && m[d] == []
    ensures Holds(m, [], f, durations)
  {
  }

  /** The body of the subscription loop. */
  method CollectOne(before: map<nat, seq<real>>, counted: map<nat, nat>, subData: seq<SubData>, k: nat, group: nat,
                    tramo: Tramo, durations: seq<nat>) returns (prices: map<nat, seq<real>>, coverage: map<nat, nat>)
    requires k < |subData| && Holds(before, subData[..k], SubFor(group, tramo), durations)
    requires Counted(before, counted, durations)
    ensures Holds(prices, subData[..k + 1], SubFor(group, tramo), durations) && Counted(prices, coverage, durations)
  {
    var values := OneSubscription(subData[k], group, tramo, durations);
    prices := AppendPerDuration(before, values, durations);
    coverage := CountPerDuration(counted, values, durations);
    HoldsStep(before, prices, subData, k, SubFor(group, tramo), durations);
  }

  /** Empty lists and zero counts. */
  method NothingYet(ghost f: nat -> SubData -> Option<real>, durations: seq<nat>)
    returns (prices: map<nat, seq<real>>, coverage: map<nat, nat>)
    ensures Holds(prices, [], f, durations) && Counted(prices, coverage, durations)
  {
    prices := map d | d in durations :: [];
    coverage := map d | d in durations :: 0;
    HoldsNothing(prices, f, durations);
  }

  /** The loop over the subscriptions: their prices and the coverage count, per duration. */
  method CollectMarket(subData: seq<SubData>, group: nat, tramo: Tramo, durations: seq<nat>)
    returns (prices: map<nat, seq<real>>, coverage: map<nat, nat>)
    ensures Holds(prices, subData, SubFor(group, tramo), durations) && Counted(prices, coverage, durations)
  {
    prices, coverage := NothingYet(SubFor(group, tramo), durations);
    assert subData[..0] == [];
    var k := 0;
    while k < |subData|
      invariant 0 <= k <= |subData|
      invariant Holds(prices, subData[..k], SubFor(group, tramo), durations) && Counted(prices, coverage, durations)
    {
      prices, coverage := CollectOne(prices, coverage, subData, k, group, tramo, durations);
      k := k + 1;
    }
    assert subData[..|subData|] == subData;
  }

  /** The final duration loop: aggregate, or None where nothing was collected. */
  method AggregateAll(aggregate: Aggregate, prices: map<nat, seq<real>>, durations: seq<nat>)
    returns (result: map<nat, Option<real>>)
    requires forall d :: d in durations ==> d in prices
    ensures forall d :: d in result <==> d in durations
    ensures forall d :: d in result ==> result[d] == Aggregated(aggregate, prices[d])
  {
    result := map[];
    var j := 0;
    while j < |durations|
      invariant 0 <= j <= |durations|
      invariant forall d :: d in result <==> d in durations[..j]
      invariant forall d :: d in result ==> result[d] == Aggregated(aggregate, prices[d])
    {
      assert durations[..j + 1] == durations[..j] + [durations[j]];
      result := result[durations[j] := Aggregated(aggregate, prices[durations[j]])];
      j := j + 1;
    }
    assert durations[..|durations|] == durations;
  }

  method BuildRow(subData: seq<SubData>, code: string, group: nat, tramo: Tramo, durations: seq<nat>,
                  aggregate: Aggregate)
    returns (row: Row)
    ensures row == RowFor(subData, code, group, tramo, durations, aggregate)
  {
    var prices, coverage := CollectMarket(subData, group, tramo, durations);
    var result := AggregateAll(aggregate, prices, durations);
    var counts := map d | d in durations :: coverage[d];
    RowAssembled(prices, result, counts, subData, group, tramo, durations, aggregate);
    row := Row(code, tramo.first, tramo.last, result, Some(counts));
  }

  lemma RowAssembled(prices: map<nat, seq<real>>, result: map<nat, Option<real>>, counts: map<nat, nat>,
                     subData: seq<SubData>, group: nat, tramo: Tramo, durations: seq<nat>, aggregate: Aggregate)
    requires Holds(prices, subData, SubFor(group, tramo), durations)
    requires forall d :: d in result <==> d in durations
    requires forall d :: d in counts <==> d in durations
    requires forall d :: d in durations ==> result[d] == Aggregated(aggregate, prices[d]) && counts[d] == |prices[d]|
    ensures result == PricesFor(subData, group, tramo, durations, aggregate)
    ensures counts == CoveragesFor(subData, group, tramo, durations)
  {
    var wanted, covered := PricesFor(subData, group, tramo, durations, aggregate),
      CoveragesFor(subData, group, tramo, durations);
    forall d | d in durations ensures result[d] == wanted[d] && counts[d] == covered[d] {
      CollectedMeaning(prices, subData, group, tramo, durations, aggregate, d);
    }
    SameMap(result, wanted);
    SameMap(counts, covered);
  }

  lemma CollectedMeaning(prices: map<nat, seq<real>>, subData: seq<SubData>, group: nat, tramo: Tramo,
                         durations: seq<nat>, aggregate: Aggregate, d: nat)
    requires Holds(prices, subData, SubFor(group, tramo), durations) && d in durations
    ensures Aggregated(aggregate, prices[d]) == PriceFor(subData, group, tramo, aggregate, d)
    ensures |prices[d]| == CoverageFor(subData, group, tramo, durations, d)
  {
    assert prices[d] == Spread(Gather(subData, SubFor(group, tramo)(d)), Times(durations, d));
    SpreadAggregates(aggregate, Gather(subData, SubOver(group, tramo, d)), Times(durations, d));
  }
}
