/** What a price in a table is, read off the rows of the database: who serves a group, where a category is
    represented on a day, what was observed there, and which of the observed prices is shown. */
module CellPrices {
  import opened Comprehension
  import opened Catalog
  import opened Dates
  import opened MarketTable
  import opened MarketTariff
  import opened OrderStatistics
  import opened ProviderTariff
  import opened Rounding

  // ---------------------------------------------------------------- quotes

  /** An active row of the category, for the offer, carries a code that the group is mapped to. */
  ghost predicate Serves(db: Tables, offer: Offer, group: nat, c: nat) {
    exists i, j :: 0 <= i < |db.mappings| && 0 <= j < |db.categories|
      && db.mappings[i].group == group && db.categories[j].id == c && db.categories[j].offer == offer
      && db.categories[j].active && db.categories[j].acriss == Some(db.mappings[i].acriss)
  }

  /** An active zone of the category, for the offer, contains the day. */
  predicate ZoneOn(z: ZoneRow, offer: Offer, c: nat, t: Date) {
    z.offer == offer && z.active && z.category == c && z.start <= t <= z.end
  }

  /** The first such zone of the table has this representative. */
  ghost predicate Represented(zones: seq<ZoneRow>, offer: Offer, c: nat, t: Date, rep: Date) {
    exists k :: 0 <= k < |zones| && FirstZone(zones, offer, c, t, k) && zones[k].rep == rep
  }

  ghost predicate FirstZone(zones: seq<ZoneRow>, offer: Offer, c: nat, t: Date, k: nat) {
    k < |zones| && ZoneOn(zones[k], offer, c, t) && forall j :: 0 <= j < k ==> !ZoneOn(zones[j], offer, c, t)
  }

  /** The observation of that date and duration is p. */
  ghost predicate Observed(db: Tables, offer: Offer, c: nat, rep: Date, dur: nat, p: real) {
    PriceKey(offer, c, rep, dur) in db.prices && db.prices[PriceKey(offer, c, rep, dur)] == p
  }

  ghost predicate ObservedOn(db: Tables, offer: Offer, c: nat, t: Date, dur: nat, p: real) {
    exists rep :: Represented(db.zones, offer, c, t, rep) && Observed(db, offer, c, rep, dur, p)
  }

  /** Some category that serves the group has price p on the day. */
  ghost predicate Quotes(db: Tables, offer: Offer, group: nat, t: Date, dur: nat, p: real) {
    exists c :: Serves(db, offer, group, c) && ObservedOn(db, offer, c, t, dur, p)
  }

  /** p is the lowest price of the subscription for the group on the day. */
  ghost predicate LowestQuote(db: Tables, offer: Offer, group: nat, t: Date, dur: nat, p: real) {
    Quotes(db, offer, group, t, dur, p) && forall q :: Quotes(db, offer, group, t, dur, q) ==> p <= q
  }

  lemma ServesIff(db: Tables, offer: Offer, group: nat, c: nat)
    ensures c in Serving(db, offer, group) <==> Serves(db, offer, group, c)
  {
    ServingMeaning(db, offer, group, |db.mappings|, c);
  }

  lemma {:induction false} RepMeaning(zones: seq<ZoneRow>, offer: Offer, c: nat, t: Date)
    ensures var r := FirstRep(Gather(zones, ActiveRow(offer)), c, t);
      && (r == None <==> forall k :: 0 <= k < |zones| ==> !ZoneOn(zones[k], offer, c, t))
      && (r.Some? ==> Represented(zones, offer, c, t, r.value))
  {
    if zones != [] {
      var rest := zones[1..];
      RepMeaning(rest, offer, c, t);
      FirstRepStep(zones, ActiveRow(offer), c, t);
      if ZoneOn(zones[0], offer, c, t) {
        assert FirstZone(zones, offer, c, t, 0);
      } else {
        assert forall k :: 0 <= k < |rest| ==> rest[k] == zones[k + 1];
        var r := FirstRep(Gather(rest, ActiveRow(offer)), c, t);
        if r.Some? {
          var k :| 0 <= k < |rest| && FirstZone(rest, offer, c, t, k) && rest[k].rep == r.value;
          assert FirstZone(zones, offer, c, t, k + 1);
        } else {
          forall k | 0 <= k < |zones| ensures !ZoneOn(zones[k], offer, c, t) {
            assert k > 0 ==> rest[k - 1] == zones[k];
          }
        }
      }
    }
  }

  lemma RepIff(db: Tables, offer: Offer, c: nat, t: Date, rep: Date)
    ensures RepOn(db, offer, c, t) == Some(rep) <==> Represented(db.zones, offer, c, t, rep)
  {
    RepMeaning(db.zones, offer, c, t);
    if Represented(db.zones, offer, c, t, rep) {
      var k :| 0 <= k < |db.zones| && FirstZone(db.zones, offer, c, t, k) && db.zones[k].rep == rep;
      assert RepOn(db, offer, c, t).Some?;
      var j :| 0 <= j < |db.zones| && FirstZone(db.zones, offer, c, t, j) &&
        db.zones[j].rep == RepOn(db, offer, c, t).value;
      assert j == k;
    }
  }

  lemma CategoryIff(db: Tables, offer: Offer, c: nat, t: Date, dur: nat, p: real)
    ensures CategoryOn(db, offer, t, dur)(c) == Some(p) <==> ObservedOn(db, offer, c, t, dur, p)
  {
    forall rep: Date ensures RepOn(db, offer, c, t) == Some(rep) <==> Represented(db.zones, offer, c, t, rep) {
      RepIff(db, offer, c, t, rep);
    }
  }

  lemma QuotesIff(db: Tables, offer: Offer, group: nat, t: Date, dur: nat, p: real)
    ensures p in Gather(Serving(db, offer, group), CategoryOn(db, offer, t, dur)) <==>
      Quotes(db, offer, group, t, dur, p)
  {
    var serving, f := Serving(db, offer, group), CategoryOn(db, offer, t, dur);
    GatherMembers(serving, f, p);
    forall c ensures c in serving && f(c) == Some(p) <==>
      Serves(db, offer, group, c) && ObservedOn(db, offer, c, t, dur, p)
    {
      ServesIff(db, offer, group, c);
      CategoryIff(db, offer, c, t, dur, p);
    }
    if p in Gather(serving, f) {
      var i :| 0 <= i < |serving| && f(serving[i]) == Some(p);
      assert Serves(db, offer, group, serving[i]) && ObservedOn(db, offer, serving[i], t, dur, p);
    }
    if Quotes(db, offer, group, t, dur, p) {
      var c :| Serves(db, offer, group, c) && ObservedOn(db, offer, c, t, dur, p);
      var i :| 0 <= i < |serving| && serving[i] == c;
    }
  }

  /** The price of a subscription is the lowest price of the categories that serve the group, and there is none
      exactly when none of them has a price. */
  lemma OfferMeaning(db: Tables, offer: Offer, group: nat, t: Date, dur: nat)
    ensures var price := OfferOn(db, group, t, dur)(offer);
      && (price == None <==> forall p :: !Quotes(db, offer, group, t, dur, p))
      && (price.Some? ==> LowestQuote(db, offer, group, t, dur, price.value))
  {
    var xs := Gather(Serving(db, offer, group), CategoryOn(db, offer, t, dur));
    forall p ensures p in xs <==> Quotes(db, offer, group, t, dur, p) {
      QuotesIff(db, offer, group, t, dur, p);
    }
    if xs != [] {
      Extremes(xs);
      assert xs[0] in xs;
    }
  }

  // ---------------------------------------------------------------- the market

  /** One number per subscription that quotes, its lowest quote, in the order of the subscriptions. */
  ghost predicate Contributions(db: Tables, subs: seq<Offer>, group: nat, t: Date, dur: nat, xs: seq<real>) {
    if subs == [] then xs == []
    else if exists p :: Quotes(db, subs[0], group, t, dur, p) then
      && xs != [] && LowestQuote(db, subs[0], group, t, dur, xs[0])
      && Contributions(db, subs[1..], group, t, dur, xs[1..])
    else Contributions(db, subs[1..], group, t, dur, xs)
  }

  lemma {:induction false} MarketContributes(db: Tables, subs: seq<Offer>, group: nat, t: Date, dur: nat)
    ensures Contributions(db, subs, group, t, dur, MarketOn(db, subs, group, t, dur))
  {
    if subs != [] {
      MarketContributes(db, subs[1..], group, t, dur);
      OfferMeaning(db, subs[0], group, t, dur);
      var xs := MarketOn(db, subs, group, t, dur);
      if OfferOn(db, group, t, dur)(subs[0]).Some? {
        assert xs[1..] == MarketOn(db, subs[1..], group, t, dur);
      } else {
        assert xs == MarketOn(db, subs[1..], group, t, dur);
      }
    }
  }

  /** Whole cents, and within half a cent of the exact mean. */
  ghost predicate IsCentMean(a: real, xs: seq<real>) {
    WholeCents(a) && -0.005 * |xs| as real <= Sum(xs) - a * |xs| as real <= 0.005 * |xs| as real
  }

  ghost predicate IsLowest(a: real, xs: seq<real>) {
    a in xs && forall x :: x in xs ==> a <= x
  }

  /** The price a cell shows for its contributions. */
  ghost predicate Shows(price: Option<real>, aggregate: Aggregate, xs: seq<real>) {
    if xs == [] then price == None
    else price.Some? && if aggregate == Average then IsCentMean(price.value, xs) else IsLowest(price.value, xs)
  }

  lemma CentsAreWhole(x: real)
    ensures WholeCents(BankersCents(x))
  {
    assert IsCents(BankersCents(x), HalfEven(x * 100.0));
  }

  lemma NearMean(total: real, mean: real, n: real, a: real)
    requires n > 0.0 && mean * n == total && -0.005 <= mean - a <= 0.005
    ensures -0.005 * n <= total - a * n <= 0.005 * n
  {
    Between(total, mean, n, a, (a - 0.005) * n, (a + 0.005) * n);
  }

  lemma Between(total: real, mean: real, n: real, a: real, low: real, high: real)
    requires n > 0.0 && total == mean * n && -0.005 <= mean - a <= 0.005
    requires low == (a - 0.005) * n && high == (a + 0.005) * n
    ensures low <= total <= high
  {
    Ordered(a - 0.005, mean, n, low, total);
    Ordered(mean, a + 0.005, n, total, high);
  }

  lemma Ordered(x: real, y: real, n: real, low: real, high: real)
    requires n > 0.0 && x <= y && low == x * n && high == y * n
    ensures low <= high
  {
  }

  lemma MeanShows(xs: seq<real>, n: real)
    requires xs != [] && n == |xs| as real
    ensures var a := BankersCents(Sum(xs) / n); WholeCents(a) && -0.005 * n <= Sum(xs) - a * n <= 0.005 * n
  {
    var mean := Sum(xs) / n;
    CentsAreWhole(mean);
    BankersCentsIdentity(mean);
    Shares(mean, Sum(xs), n);
    NearMean(Sum(xs), mean, n, BankersCents(mean));
  }

  lemma AggregatedShows(aggregate: Aggregate, xs: seq<real>)
    ensures Shows(Aggregated(aggregate, xs), aggregate, xs)
  {
    if xs != [] {
      if aggregate == Average {
        MeanShows(xs, |xs| as real);
      } else {
        Extremes(xs);
      }
    }
  }

  /** Every cell of a row that answers the per-day query: its price is the lowest, or to the cent the mean, of the
      subscriptions' lowest quotes, and its coverage counts them, once per listing of the duration. */
  ghost predicate CellMeans(row: Row, db: Tables, subs: seq<Offer>, group: nat, t: Date, durations: seq<nat>,
                            aggregate: Aggregate, d: nat)
  {
    && row.coverage.Some? && d in row.prices && d in row.coverage.value
    && exists xs :: Contributions(db, subs, group, t, d, xs) && Shows(row.prices[d], aggregate, xs) &&
         row.coverage.value[d] == multiset(durations)[d] * |xs|
  }

  lemma CellMeaning(row: Row, db: Tables, subs: seq<Offer>, g: Group, t: Date, durations: seq<nat>,
                    aggregate: Aggregate, d: nat)
    requires Answers(row, db, subs, g, t, durations, aggregate) && d in durations
    ensures CellMeans(row, db, subs, g.id, t, durations, aggregate, d)
  {
    var xs := MarketOn(db, subs, g.id, t, d);
    MarketContributes(db, subs, g.id, t, d);
    AggregatedShows(aggregate, xs);
  }

  /** Over a whole table. */
  lemma TableMeaning(rows: seq<Row>, db: Tables, subs: seq<Offer>, groups: seq<Group>, d1: Date, d2: Date,
                     durations: seq<nat>, aggregate: Aggregate)
    requires AnswersAll(rows, db, subs, groups, d1, d2, durations, aggregate)
    ensures forall g, t, d :: g in groups && d1 <= t <= d2 && d in durations ==>
      var found := Gather(rows, Covering(g.code, t));
      |found| == 1 && CellMeans(found[0], db, subs, g.id, t, durations, aggregate, d)
  {
    forall g, t, d | g in groups && d1 <= t <= d2 && d in durations
      ensures var found := Gather(rows, Covering(g.code, t));
        |found| == 1 && CellMeans(found[0], db, subs, g.id, t, durations, aggregate, d)
    {
      assert AnswersOnce(rows, db, subs, g, t, durations, aggregate);
      CellMeaning(Gather(rows, Covering(g.code, t))[0], db, subs, g, t, durations, aggregate, d);
    }
  }

  /** With one subscription the market minimum is its lowest quote. */
  lemma OneSubscriptionMeaning(row: Row, db: Tables, offer: Offer, g: Group, t: Date, durations: seq<nat>, d: nat)
    requires Answers(row, db, [offer], g, t, durations, Minimum) && d in durations
    ensures row.prices[d] == None <==> forall p :: !Quotes(db, offer, g.id, t, d, p)
    ensures row.prices[d].Some? ==> LowestQuote(db, offer, g.id, t, d, row.prices[d].value)
  {
    OneSubscriber(OfferOn(db, g.id, t, d), offer);
    OfferMeaning(db, offer, g.id, t, d);
  }

  // ---------------------------------------------------------------- one provider

  /** The lowest observation of the group's categories at a representative date, or none. */
  ghost predicate LowestAt(db: Tables, offer: Offer, group: nat, rep: Date, dur: nat, price: Option<real>) {
    match price
    case None => forall p :: !ObservedAt(db, offer, group, rep, dur, p)
    case Some(p) =>
      ObservedAt(db, offer, group, rep, dur, p) && forall q :: ObservedAt(db, offer, group, rep, dur, q) ==> p <= q
  }

  /** p was observed for that date and duration at some category that serves the group. */
  ghost predicate ObservedAt(db: Tables, offer: Offer, group: nat, rep: Date, dur: nat, p: real) {
    exists c :: Serves(db, offer, group, c) && Observed(db, offer, c, rep, dur, p)
  }

  lemma AtRepIff(db: Tables, offer: Offer, sd: SubData, ids: set<nat>, durations: set<nat>, c: nat, rep: Date, dur: nat,
                 p: real)
    requires sd.offer == offer && sd.prices == FetchObservations(db, offer, ids, Reps(sd.zones), durations)
    requires c in ids && rep in Reps(sd.zones) && dur in durations
    ensures AtRep(sd, rep, dur)(c) == Some(p) <==> Observed(db, offer, c, rep, dur, p)
  {
  }

  /** The prices of a group at a representative date are the observations of its serving categories. */
  lemma RepObservations(db: Tables, offer: Offer, groups: set<nat>, d1: Date, d2: Date, durations: set<nat>,
                        sd: SubData, group: nat, rep: Date, dur: nat, p: real)
    requires Prepare(db, groups, d1, d2, durations)(offer) == Some(sd)
    requires group in groups && rep in Reps(sd.zones) && dur in durations
    ensures p in Gather(Get(sd.categoriesOf, group), AtRep(sd, rep, dur)) <==>
      ObservedAt(db, offer, group, rep, dur, p)
  {
    var ids := AllIds(MappingsOf(db, offer, groups));
    var serving, f := Serving(db, offer, group), AtRep(sd, rep, dur);
    assert Get(sd.categoriesOf, group) == serving;
    GatherMembers(serving, f, p);
    forall c ensures c in serving <==> Serves(db, offer, group, c) { ServesIff(db, offer, group, c); }
    forall c | c in serving ensures f(c) == Some(p) <==> Observed(db, offer, c, rep, dur, p) {
      assert group in MappingsOf(db, offer, groups) && c in MappingsOf(db, offer, groups)[group];
      AtRepIff(db, offer, sd, ids, durations, c, rep, dur, p);
    }
    if c :| Serves(db, offer, group, c) && Observed(db, offer, c, rep, dur, p) {
      var i :| 0 <= i < |serving| && serving[i] == c;
      assert f(serving[i]) == Some(p);
    }
  }

  lemma RepPriceMeaning(db: Tables, offer: Offer, groups: set<nat>, d1: Date, d2: Date, durations: set<nat>,
                        sd: SubData, group: nat, rep: Date, dur: nat)
    requires Prepare(db, groups, d1, d2, durations)(offer) == Some(sd)
    requires group in groups && rep in Reps(sd.zones) && dur in durations
    ensures LowestAt(db, offer, group, rep, dur, Cheapest(Gather(Get(sd.categoriesOf, group), AtRep(sd, rep, dur))))
  {
    var xs := Gather(Get(sd.categoriesOf, group), AtRep(sd, rep, dur));
    forall p ensures p in xs <==> ObservedAt(db, offer, group, rep, dur, p) {
      RepObservations(db, offer, groups, d1, d2, durations, sd, group, rep, dur, p);
    }
    if xs != [] {
      Extremes(xs);
    }
  }

  /** An active zone of a category serving the group overlaps the range. */
  ghost predicate GroupZone(db: Tables, offer: Offer, group: nat, d1: Date, d2: Date, z: Triple) {
    z.start <= d2 && d1 <= z.end && exists k :: 0 <= k < |db.zones| && IsZone(db, offer, group, z, k)
  }

  ghost predicate IsZone(db: Tables, offer: Offer, group: nat, z: Triple, k: nat) {
    && k < |db.zones| && db.zones[k].offer == offer && db.zones[k].active
    && Serves(db, offer, group, db.zones[k].category)
    && db.zones[k].start == z.start && db.zones[k].end == z.end && db.zones[k].rep == z.rep
  }

  /** The row shows the zone: clipped to the range, priced duration by duration at the zone's representative. */
  ghost predicate ShowsZone(row: Row, db: Tables, offer: Offer, g: Group, z: Triple, d1: Date, d2: Date,
                            durations: seq<nat>)
  {
    && row.code == g.code && row.coverage == None
    && d1 <= row.first && z.start <= row.first && (row.first == d1 || row.first == z.start)
    && row.last <= d2 && row.last <= z.end && (row.last == d2 || row.last == z.end)
    && (forall d :: d in row.prices <==> d in durations)
    && forall d :: d in durations ==> LowestAt(db, offer, g.id, z.rep, d, row.prices[d])
  }

  lemma OneShown(r: Row, s: Row, db: Tables, offer: Offer, g: Group, z: Triple, d1: Date, d2: Date, durations: seq<nat>)
    requires ShowsZone(r, db, offer, g, z, d1, d2, durations) && ShowsZone(s, db, offer, g, z, d1, d2, durations)
    ensures r == s
  {
    forall d | d in durations ensures r.prices[d] == s.prices[d] {
      OneLowest(db, offer, g.id, z.rep, d, r.prices[d], s.prices[d]);
    }
    SameMap(r.prices, s.prices);
  }

  lemma OneLowest(db: Tables, offer: Offer, group: nat, rep: Date, dur: nat, x: Option<real>, y: Option<real>)
    requires LowestAt(db, offer, group, rep, dur, x) && LowestAt(db, offer, group, rep, dur, y)
    ensures x == y
  {
  }

  lemma ZonesOfGroupMeaning(db: Tables, offer: Offer, groups: set<nat>, d1: Date, d2: Date, durations: set<nat>,
                            sd: SubData, group: nat, z: Triple)
    requires Prepare(db, groups, d1, d2, durations)(offer) == Some(sd) && group in groups
    ensures z in ZonesOfGroup(sd, group) <==> GroupZone(db, offer, group, d1, d2, z)
    ensures z in ZonesOfGroup(sd, group) ==> z.rep in Reps(sd.zones)
  {
    var ids := AllIds(MappingsOf(db, offer, groups));
    var serving := Serving(db, offer, group);
    assert Get(sd.categoriesOf, group) == serving;
    DedupMeaning(AllTriples(sd, serving));
    AllTriplesMeaning(sd, serving, z);
    forall c | c in serving
      ensures z in Get(sd.zoneMap, c) <==> exists k :: 0 <= k < |db.zones| && LoadedAs(db, offer, d1, d2, c, z, k)
      ensures z in Get(sd.zoneMap, c) ==> z.rep in Reps(sd.zones)
    {
      assert group in MappingsOf(db, offer, groups) && c in MappingsOf(db, offer, groups)[group];
      ZoneOfCategory(db, offer, ids, d1, d2, c, z);
      GetZones(sd.zones, c);
    }
    forall c ensures c in serving <==> Serves(db, offer, group, c) { ServesIff(db, offer, group, c); }
    if GroupZone(db, offer, group, d1, d2, z) {
      var k :| 0 <= k < |db.zones| && IsZone(db, offer, group, z, k);
      assert LoadedAs(db, offer, d1, d2, db.zones[k].category, z, k);
    }
    if z in ZonesOfGroup(sd, group) {
      var c :| c in serving && z in Get(sd.zoneMap, c);
      var k :| 0 <= k < |db.zones| && LoadedAs(db, offer, d1, d2, c, z, k);
      assert IsZone(db, offer, group, z, k);
    }
  }

  ghost predicate LoadedAs(db: Tables, offer: Offer, d1: Date, d2: Date, c: nat, z: Triple, k: nat) {
    && k < |db.zones| && db.zones[k].offer == offer && db.zones[k].active && db.zones[k].category == c
    && db.zones[k].start == z.start && db.zones[k].end == z.end && db.zones[k].rep == z.rep
    && z.end >= d1 && z.start <= d2
  }

  lemma ZoneOfCategory(db: Tables, offer: Offer, ids: set<nat>, d1: Date, d2: Date, c: nat, z: Triple)
    requires c in ids
    ensures var zones := LoadZones(db, offer, ids, d1, d2);
      && (z in Gather(zones, TripleOf(c)) <==>
            exists k :: 0 <= k < |db.zones| && LoadedAs(db, offer, d1, d2, c, z, k))
      && (z in Gather(zones, TripleOf(c)) ==> z.rep in Reps(zones))
  {
    var f, zones := LoadedRow(offer, ids, d1, d2), LoadZones(db, offer, ids, d1, d2);
    GatherMembers(zones, TripleOf(c), z);
    if z in Gather(zones, TripleOf(c)) {
      var i :| 0 <= i < |zones| && TripleOf(c)(zones[i]) == Some(z);
      GatherMembers(db.zones, f, zones[i]);
      var k :| 0 <= k < |db.zones| && f(db.zones[k]) == Some(zones[i]);
      assert LoadedAs(db, offer, d1, d2, c, z, k);
      assert zones[i] in zones;
    }
    if k :| 0 <= k < |db.zones| && LoadedAs(db, offer, d1, d2, c, z, k) {
      assert f(db.zones[k]) == Some(db.zones[k]);
      GatherMembers(db.zones, f, db.zones[k]);
      var i :| 0 <= i < |zones| && zones[i] == db.zones[k];
      assert TripleOf(c)(zones[i]) == Some(z);
    }
  }

  lemma ZoneRowShows(db: Tables, offer: Offer, groups: seq<Group>, d1: Date, d2: Date, durations: seq<nat>, sd: SubData,
                     g: Group, z: Triple)
    requires Prepare(db, Ids(groups), d1, d2, Listed(durations))(offer) == Some(sd) && g in groups
    requires z in ZonesOfGroup(sd, g.id)
    ensures ShowsZone(ZoneRowFor(sd, g.code, Get(sd.categoriesOf, g.id), z, d1, d2, durations), db, offer, g, z, d1, d2,
                      durations)
  {
    ZonesOfGroupMeaning(db, offer, Ids(groups), d1, d2, Listed(durations), sd, g.id, z);
    forall d | d in durations
      ensures LowestAt(db, offer, g.id, z.rep, d, Cheapest(Gather(Get(sd.categoriesOf, g.id), AtRep(sd, z.rep, d))))
    {
      RepPriceMeaning(db, offer, Ids(groups), d1, d2, Listed(durations), sd, g.id, z.rep, d);
    }
  }

  lemma {:induction false} RowsOfGroups(sd: SubData, groups: seq<Group>, d1: Date, d2: Date, durations: seq<nat>,
                                        row: Row)
    ensures row in ProviderRows(sd, groups, d1, d2, durations) <==>
      exists g, z :: g in groups && z in ZonesOfGroup(sd, g.id) &&
        row == ZoneRowFor(sd, g.code, Get(sd.categoriesOf, g.id), z, d1, d2, durations)
  {
    if groups != [] {
      var front, last := groups[..|groups| - 1], groups[|groups| - 1];
      RowsOfGroups(sd, front, d1, d2, durations, row);
      assert groups == front + [last];
      var mine := ProviderGroupRows(sd, last, d1, d2, durations);
      var zs := ZonesOfGroup(sd, last.id);
      assert |mine| == |zs|;
      if row in mine {
        var i :| 0 <= i < |mine| && mine[i] == row;
        assert zs[i] in zs;
      }
      forall z | z in zs
        ensures ZoneRowFor(sd, last.code, Get(sd.categoriesOf, last.id), z, d1, d2, durations) in mine
      {
        var i :| 0 <= i < |zs| && zs[i] == z;
        assert mine[i] in mine;
      }
    }
  }

  /** The rows of a provider's table are exactly those that show a zone of a category serving one of the groups. */
  lemma ProviderRowsMeaning(db: Tables, offer: Offer, groups: seq<Group>, d1: Date, d2: Date, durations: seq<nat>,
                            sd: SubData, row: Row)
    requires Prepare(db, Ids(groups), d1, d2, Listed(durations))(offer) == Some(sd)
    ensures row in ProviderRows(sd, groups, d1, d2, durations) <==>
      exists g, z :: g in groups && GroupZone(db, offer, g.id, d1, d2, z) &&
        ShowsZone(row, db, offer, g, z, d1, d2, durations)
  {
    RowsOfGroups(sd, groups, d1, d2, durations, row);
    forall g, z | g in groups
      ensures GroupZone(db, offer, g.id, d1, d2, z) <==> z in ZonesOfGroup(sd, g.id)
      ensures z in ZonesOfGroup(sd, g.id) ==>
        (ShowsZone(row, db, offer, g, z, d1, d2, durations) <==>
          row == ZoneRowFor(sd, g.code, Get(sd.categoriesOf, g.id), z, d1, d2, durations))
    {
      ZonesOfGroupMeaning(db, offer, Ids(groups), d1, d2, Listed(durations), sd, g.id, z);
      if z in ZonesOfGroup(sd, g.id) {
        ZoneRowShows(db, offer, groups, d1, d2, durations, sd, g, z);
        if ShowsZone(row, db, offer, g, z, d1, d2, durations) {
          OneShown(row, ZoneRowFor(sd, g.code, Get(sd.categoriesOf, g.id), z, d1, d2, durations), db, offer, g, z, d1,
                   d2, durations);
        }
      }
    }
  }
}
