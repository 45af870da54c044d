/** The single-provider tariff, and its agreement with the market table of a tenant that subscribes to
    that provider alone. */
module ProviderTariff {
  import opened Comprehension
  import opened Catalog
  import opened Dates
  import G = Grid
  import opened MarketTariff
  import opened MarketTable
  import opened OrderStatistics

  // ---------------------------------------------------------------- distinct zones of a group

  /** Zones of the categories, category after category. */
  function AllTriples(sd: SubData, categories: seq<nat>): seq<Triple> {
    if categories == [] then []
    else AllTriples(sd, categories[..|categories| - 1]) + Get(sd.zoneMap, categories[|categories| - 1])
  }

  /** Keys of a dictionary filled in this order: first occurrences only. */
  function Dedup(zs: seq<Triple>): seq<Triple> {
    if zs == [] then []
    else
      var front, last := Dedup(zs[..|zs| - 1]), zs[|zs| - 1];
      if last in front then front else front + [last]
  }

  lemma {:induction false} DedupMeaning(zs: seq<Triple>)
    ensures forall z :: z in Dedup(zs) <==> z in zs
    ensures forall i, j :: 0 <= i < j < |Dedup(zs)| ==> Dedup(zs)[i] != Dedup(zs)[j]
  {
    if zs != [] {
      DedupMeaning(zs[..|zs| - 1]);
      assert zs == zs[..|zs| - 1] + [zs[|zs| - 1]];
    }
  }

  lemma {:induction false} AllTriplesMeaning(sd: SubData, categories: seq<nat>, z: Triple)
    ensures z in AllTriples(sd, categories) <==> exists c :: c in categories && z in Get(sd.zoneMap, c)
  {
    if categories != [] {
      var front, last := categories[..|categories| - 1], categories[|categories| - 1];
      AllTriplesMeaning(sd, front, z);
      assert categories == front + [last];
    }
  }

  // ---------------------------------------------------------------- rows

  /** Price of a category at a representative date. */
  function AtRep(sd: SubData, rep: Date, dur: nat): nat -> Option<real> {
    (c: nat) => Lookup(sd.prices, PriceKey(sd.offer, c, rep, dur))
  }

  function RepPrices(sd: SubData, categories: seq<nat>, rep: Date, durations: seq<nat>): map<nat, Option<real>> {
    map d | d in durations :: Cheapest(Gather(categories, AtRep(sd, rep, d)))
  }

  /** The zone clipped to the range, priced at its representative. */
  function ZoneRowFor(sd: SubData, code: string, categories: seq<nat>, z: Triple, d1: Date, d2: Date,
                      durations: seq<nat>): Row
  {
    Row(code, G.Max(z.start, d1), G.Min(z.end, d2), RepPrices(sd, categories, z.rep, durations), None)
  }

  function ZonesOfGroup(sd: SubData, group: nat): seq<Triple> {
    Dedup(AllTriples(sd, Get(sd.categoriesOf, group)))
  }

  function ProviderGroupRows(sd: SubData, g: Group, d1: Date, d2: Date, durations: seq<nat>): seq<Row> {
    var zs := ZonesOfGroup(sd, g.id);
    seq(|zs|, i requires 0 <= i < |zs| => ZoneRowFor(sd, g.code, Get(sd.categoriesOf, g.id), zs[i], d1, d2, durations))
  }

  function ProviderRows(sd: SubData, groups: seq<Group>, d1: Date, d2: Date, durations: seq<nat>): seq<Row> {
    if groups == [] then []
    else ProviderRows(sd, groups[..|groups| - 1], d1, d2, durations) + ProviderGroupRows(sd, groups[|groups| - 1], d1,
                                                                                         d2, durations)
  }

  /** The loop that collects the distinct zones of a group. */
  method CollectZones(sd: SubData, categories: seq<nat>) returns (zones: seq<Triple>)
    ensures zones == Dedup(AllTriples(sd, categories))
  {
    zones := [];
    var i := 0;
    while i < |categories|
      invariant 0 <= i <= |categories|
      invariant zones == Dedup(AllTriples(sd, categories[..i]))
    {
      var zs := Get(sd.zoneMap, categories[i]);
      ghost var done := AllTriples(sd, categories[..i]);
      assert categories[..i + 1][..i] == categories[..i];
      assert done + zs[..0] == done;
      var j := 0;
      while j < |zs|
        invariant 0 <= j <= |zs|
        invariant zones == Dedup(done + zs[..j])
      {
        assert (done + zs[..j + 1])[..|done| + j] == done + zs[..j];
        if zs[j] !in zones {
          zones := zones + [zs[j]];
        }
        j := j + 1;
      }
      assert zs[..|zs|] == zs;
      i := i + 1;
    }
    assert categories[..|categories|] == categories;
  }

  /** The duration loop of a row. */
  method PriceZone(sd: SubData, categories: seq<nat>, rep: Date, durations: seq<nat>)
    returns (prices: map<nat, Option<real>>)
    ensures prices == RepPrices(sd, categories, rep, durations)
  {
    prices := map[];
    var j := 0;
    while j < |durations|
      invariant 0 <= j <= |durations|
      invariant prices == RepPrices(sd, categories, rep, durations[..j])
    {
      var d := durations[j];
      assert durations[..j + 1] == durations[..j] + [d];
      prices := prices[d := Cheapest(Gather(categories, AtRep(sd, rep, d)))];
      j := j + 1;
    }
    assert durations[..|durations|] == durations;
  }

  /** get_provider_tariff, after provider, location, rate and subscription have been found. */
  method GetProviderTariff(db: Tables, offer: Offer, groups: seq<Group>, d1: Date, d2: Date, durations: seq<nat>)
    returns (rows: seq<Row>)
    ensures RowsSorted(rows)
    ensures match Prepare(db, Ids(groups), d1, d2, Listed(durations))(offer)
      case None => rows == []
      case Some(sd) => multiset(rows) == multiset(ProviderRows(sd, groups, d1, d2, durations))
  {
    if groups == [] {
      return [];
    }
    var categoriesOf := ResolveMappings(db, offer, Ids(groups));
    var ids := AllIds(categoriesOf);
    if ids == {} {
      return [];
    }
    var zones := LoadZones(db, offer, ids, d1, d2);
    if zones == [] {
      return [];
    }
    var zoneMap := GroupZones(zones);
    var sd := SubData(offer, categoriesOf, zones, zoneMap,
                      FetchObservations(db, offer, ids, Reps(zones), Listed(durations)));
    var raw := BuildProviderRows(sd, groups, d1, d2, durations);
    rows := SortRows(raw);
    SortRowsSorts(raw);
  }

  method BuildProviderRows(sd: SubData, groups: seq<Group>, d1: Date, d2: Date, durations: seq<nat>)
    returns (raw: seq<Row>)
    ensures raw == ProviderRows(sd, groups, d1, d2, durations)
  {
    raw := [];
    var k := 0;
    while k < |groups|
      invariant 0 <= k <= |groups|
      invariant raw == ProviderRows(sd, groups[..k], d1, d2, durations)
    {
      var g := groups[k];
      assert groups[..k + 1][..k] == groups[..k];
      var categories := Get(sd.categoriesOf, g.id);
      var zones := CollectZones(sd, categories);
      ghost var done, mine := raw, ProviderGroupRows(sd, g, d1, d2, durations);
      var i := 0;
      while i < |zones|
        invariant 0 <= i <= |zones|
        invariant raw == done + mine[..i]
      {
        var prices := PriceZone(sd, categories, zones[i].rep, durations);
        assert mine[..i + 1] == mine[..i] + [mine[i]];
        raw := raw + [Row(g.code, G.Max(zones[i].start, d1), G.Min(zones[i].end, d2), prices, None)];
        i := i + 1;
      }
      assert mine[..|zones|] == mine;
      k := k + 1;
    }
    assert groups[..|groups|] == groups;
  }

  // ---------------------------------------------------------------- agreement of the two paths

  /** Active zones of a category. */
  function ZonesOf(db: Tables, offer: Offer, category: nat): seq<Triple> {
    Gather(Gather(db.zones, ActiveRow(offer)), TripleOf(category))
  }

  /** All categories carry the same zones, and the zones of a category do not overlap. */
  ghost predicate SharedDisjointZones(db: Tables, offer: Offer, categories: seq<nat>) {
    && (forall b, c, z :: b in categories && c in categories && z in ZonesOf(db, offer, b) ==>
         z in ZonesOf(db, offer, c))
    && (forall c, y, z, t ::
          (c in categories && y in ZonesOf(db, offer, c) && z in ZonesOf(db, offer, c) && y.Contains(t) &&
           z.Contains(t)) ==>
            y == z)
  }

  lemma {:induction false} FirstRepIn(rows: seq<ZoneRow>, category: nat, t: Date, z: Triple)
    requires z in Gather(rows, TripleOf(category)) && z.Contains(t)
    requires forall y :: y in Gather(rows, TripleOf(category)) && y.Contains(t) ==> y == z
    ensures FirstRep(rows, category, t) == Some(z.rep)
  {
    var rest := Gather(rows[1..], TripleOf(category));
    var y := Triple(rows[0].start, rows[0].end, rows[0].rep);
    if rows[0].category == category {
      assert Gather(rows, TripleOf(category)) == [y] + rest;
      if !y.Contains(t) {
        FirstRepIn(rows[1..], category, t, z);
      }
    } else {
      assert Gather(rows, TripleOf(category)) == [] + rest == rest;
      FirstRepIn(rows[1..], category, t, z);
    }
  }

  /** Loaded zones are active zones, and every active zone that meets the range is loaded. */
  lemma LoadedTriples(db: Tables, offer: Offer, ids: set<nat>, d1: Date, d2: Date, c: nat, z: Triple)
    requires c in ids
    ensures z in Gather(LoadZones(db, offer, ids, d1, d2), TripleOf(c)) <==>
            z in ZonesOf(db, offer, c) && z.end >= d1 && z.start <= d2
  {
    var loaded, active := LoadZones(db, offer, ids, d1, d2), Gather(db.zones, ActiveRow(offer));
    GatherMembers(loaded, TripleOf(c), z);
    GatherMembers(active, TripleOf(c), z);
    if z in Gather(loaded, TripleOf(c)) {
      var i :| 0 <= i < |loaded| && TripleOf(c)(loaded[i]) == Some(z);
      GatherMembers(db.zones, LoadedRow(offer, ids, d1, d2), loaded[i]);
      GatherMembers(db.zones, ActiveRow(offer), loaded[i]);
    }
    if z in ZonesOf(db, offer, c) && z.end >= d1 && z.start <= d2 {
      var i :| 0 <= i < |active| && TripleOf(c)(active[i]) == Some(z);
      GatherMembers(db.zones, ActiveRow(offer), active[i]);
      GatherMembers(db.zones, LoadedRow(offer, ids, d1, d2), active[i]);
    }
  }

  /** The one zone of the group that contains the day. */
  ghost predicate ZoneOfDay(db: Tables, offer: Offer, group: nat, t: Date, z: Triple) {
    z.Contains(t) && exists c :: c in Serving(db, offer, group) && z in ZonesOf(db, offer, c)
  }

  lemma GroupIsServed(db: Tables, groups: seq<Group>, offer: Offer, g: Group, c: nat)
    requires g in groups && c in Serving(db, offer, g.id)
    ensures Get(MappingsOf(db, offer, Ids(groups)), g.id) == Serving(db, offer, g.id)
    ensures c in AllIds(MappingsOf(db, offer, Ids(groups)))
  {
    var m := MappingsOf(db, offer, Ids(groups));
    assert g.id in Ids(groups);
    assert g.id in m && c in m[g.id];
  }

  /** A group with a zone on the day is prepared, and its distinct zones are the loaded shared ones. */
  lemma ZonesOfServedGroup(db: Tables, offer: Offer, groups: seq<Group>, d1: Date, d2: Date, durations: seq<nat>,
                           g: Group, t: Date, z: Triple)
    requires g in groups && d1 <= t <= d2 && ZoneOfDay(db, offer, g.id, t, z)
    requires SharedDisjointZones(db, offer, Serving(db, offer, g.id))
    ensures var p := Prepare(db, Ids(groups), d1, d2, Listed(durations))(offer);
      && p.Some? && z in ZonesOfGroup(p.value, g.id)
      && forall y :: y in ZonesOfGroup(p.value, g.id) && y.Contains(t) ==> y == z
  {
    var serving := Serving(db, offer, g.id);
    var ids := AllIds(MappingsOf(db, offer, Ids(groups)));
    var loaded := LoadZones(db, offer, ids, d1, d2);
    var c :| c in serving && z in ZonesOf(db, offer, c);
    GroupIsServed(db, groups, offer, g, c);
    LoadedTriples(db, offer, ids, d1, d2, c, z);
    assert loaded != [];
    var sd := Prepare(db, Ids(groups), d1, d2, Listed(durations))(offer).value;
    GetZones(loaded, c);
    var all := AllTriples(sd, serving);
    DedupMeaning(all);
    AllTriplesMeaning(sd, serving, z);
    forall y | y in ZonesOfGroup(sd, g.id) && y.Contains(t) ensures y == z {
      AllTriplesMeaning(sd, serving, y);
      var b :| b in serving && y in Get(sd.zoneMap, b);
      GroupIsServed(db, groups, offer, g, b);
      GetZones(loaded, b);
      LoadedTriples(db, offer, ids, d1, d2, b, y);
      assert y in ZonesOf(db, offer, c);
    }
  }

  lemma ZoneIndex(zs: seq<Triple>, z: Triple, t: Date) returns (k: nat)
    requires z in Dedup(zs) && z.Contains(t) && forall y :: y in Dedup(zs) && y.Contains(t) ==> y == z
    ensures k < |Dedup(zs)| && Dedup(zs)[k] == z
    ensures forall i :: 0 <= i < |Dedup(zs)| && i != k ==> !Dedup(zs)[i].Contains(t)
  {
    DedupMeaning(zs);
    var d := Dedup(zs);
    k :| 0 <= k < |d| && d[k] == z;
    forall i | 0 <= i < |d| && i != k ensures !d[i].Contains(t) {
      assert d[i] in d;
      if i < k { assert d[i] != d[k]; } else { assert d[k] != d[i]; }
    }
  }

  lemma OneProviderRowOfGroup(sd: SubData, g: Group, d1: Date, d2: Date, durations: seq<nat>, k: nat, t: Date)
    requires d1 <= t <= d2
    requires var zs := ZonesOfGroup(sd, g.id); k < |zs| && zs[k].Contains(t) && forall i :: 0 <= i < |zs| && i != k ==>
      !zs[i].Contains(t)
    ensures Gather(ProviderGroupRows(sd, g, d1, d2, durations), Covering(g.code, t))
         == [ZoneRowFor(sd, g.code, Get(sd.categoriesOf, g.id), ZonesOfGroup(sd, g.id)[k], d1, d2, durations)]
  {
    var rows := ProviderGroupRows(sd, g, d1, d2, durations);
    GatherSingle(rows, Covering(g.code, t), k, rows[k]);
  }

  lemma NoProviderRowOfOther(sd: SubData, g: Group, d1: Date, d2: Date, durations: seq<nat>, code: string, t: Date)
    requires g.code != code
    ensures Gather(ProviderGroupRows(sd, g, d1, d2, durations), Covering(code, t)) == []
  {
    GatherNothing(ProviderGroupRows(sd, g, d1, d2, durations), Covering(code, t));
  }

  lemma {:induction false} OtherProviderGroups(sd: SubData, groups: seq<Group>, d1: Date, d2: Date, durations: seq<nat>,
                                               code: string, t: Date)
    requires forall i :: 0 <= i < |groups| ==> groups[i].code != code
    ensures Gather(ProviderRows(sd, groups, d1, d2, durations), Covering(code, t)) == []
  {
    if groups != [] {
      var front, last := groups[..|groups| - 1], groups[|groups| - 1];
      OtherProviderGroups(sd, front, d1, d2, durations, code, t);
      NoProviderRowOfOther(sd, last, d1, d2, durations, code, t);
      GatherSplit(ProviderRows(sd, front, d1, d2, durations), ProviderGroupRows(sd, last, d1, d2, durations),
                  Covering(code, t));
    }
  }

  lemma {:induction false} OneProviderRow(sd: SubData, groups: seq<Group>, d1: Date, d2: Date, durations: seq<nat>,
                                          n: nat, k: nat, t: Date)
    requires n < |groups| && d1 <= t <= d2 && forall j :: 0 <= j < |groups| && j != n ==>
      groups[j].code != groups[n].code
    requires var zs := ZonesOfGroup(sd, groups[n].id);
      k < |zs| && zs[k].Contains(t) && forall i :: 0 <= i < |zs| && i != k ==> !zs[i].Contains(t)
    ensures Gather(ProviderRows(sd, groups, d1, d2, durations), Covering(groups[n].code, t))
         == [ZoneRowFor(sd, groups[n].code, Get(sd.categoriesOf, groups[n].id), ZonesOfGroup(sd, groups[n].id)[k], d1,
                        d2, durations)]
  {
    var front, last := groups[..|groups| - 1], groups[|groups| - 1];
    GatherSplit(ProviderRows(sd, front, d1, d2, durations), ProviderGroupRows(sd, last, d1, d2, durations),
                Covering(groups[n].code, t));
    if n == |groups| - 1 {
      OtherProviderGroups(sd, front, d1, d2, durations, last.code, t);
      OneProviderRowOfGroup(sd, last, d1, d2, durations, k, t);
    } else {
      OneProviderRow(sd, front, d1, d2, durations, n, k, t);
      NoProviderRowOfOther(sd, last, d1, d2, durations, groups[n].code, t);
    }
  }

  /** ... for one category of the group. */
  lemma CategoryAtRep(db: Tables, offer: Offer, groups: seq<Group>, d1: Date, d2: Date, durations: seq<nat>, g: Group,
                      t: Date, z: Triple, d: nat, sd: SubData, b: nat, c: nat)
    requires g in groups && d in durations && d1 <= t <= d2 && z.Contains(t)
    requires b in Serving(db, offer, g.id) && z in ZonesOf(db, offer, b) && c in Serving(db, offer, g.id)
    requires SharedDisjointZones(db, offer, Serving(db, offer, g.id))
    requires Prepare(db, Ids(groups), d1, d2, Listed(durations))(offer) == Some(sd)
    ensures CategoryOn(db, offer, t, d)(c) == AtRep(sd, z.rep, d)(c)
  {
    var ids := AllIds(MappingsOf(db, offer, Ids(groups)));
    assert z in ZonesOf(db, offer, c);
    GroupIsServed(db, groups, offer, g, c);
    FirstRepIn(Gather(db.zones, ActiveRow(offer)), c, t, z);
    LoadingIsEnough(db.zones, offer, ids, d1, d2, c, t);
    FirstRepIsListed(sd.zones, c, t);
  }

  /** Pricing the zone of the day at its representative is pricing the day. */
  lemma ZonePriceIsDayPrice(db: Tables, offer: Offer, groups: seq<Group>, d1: Date, d2: Date, durations: seq<nat>,
                            g: Group, t: Date, z: Triple, d: nat)
    requires g in groups && d in durations && d1 <= t <= d2 && ZoneOfDay(db, offer, g.id, t, z)
    requires SharedDisjointZones(db, offer, Serving(db, offer, g.id))
    requires Prepare(db, Ids(groups), d1, d2, Listed(durations))(offer).Some?
    ensures var sd := Prepare(db, Ids(groups), d1, d2, Listed(durations))(offer).value;
      Cheapest(Gather(Get(sd.categoriesOf, g.id), AtRep(sd, z.rep, d))) == Aggregated(Minimum,
                                                                                      MarketOn(db, [offer], g.id, t, d))
  {
    var sd := Prepare(db, Ids(groups), d1, d2, Listed(durations))(offer).value;
    var serving := Serving(db, offer, g.id);
    var b :| b in serving && z in ZonesOf(db, offer, b);
    GroupIsServed(db, groups, offer, g, b);
    forall c | c in serving ensures CategoryOn(db, offer, t, d)(c) == AtRep(sd, z.rep, d)(c) {
      CategoryAtRep(db, offer, groups, d1, d2, durations, g, t, z, d, sd, b, c);
    }
    GatherCongruence(serving, CategoryOn(db, offer, t, d), AtRep(sd, z.rep, d));
    OneSubscriber(OfferOn(db, g.id, t, d), offer);
  }

  lemma OneSubscriber(f: Offer -> Option<real>, offer: Offer)
    ensures Aggregated(Minimum, Gather([offer], f)) == f(offer)
  {
    assert [offer][1..] == [];
    if f(offer).Some? {
      var x := f(offer).value;
      assert Gather([offer], f) == [x];
      assert [x][1..] == [] && Sort([x]) == [x];
    }
  }

  /** With one subscription whose categories share disjoint zones, a day covered by a zone is in exactly
      one provider row of the group, and that row shows the prices of the market-minimum row of the day. */
  lemma TwoPathsAgree(db: Tables, offer: Offer, groups: seq<Group>, d1: Date, d2: Date, durations: seq<nat>,
                      g: Group, t: Date, z: Triple, providerRows: seq<Row>, marketRow: Row)
    requires DistinctGroups(groups) && g in groups && d1 <= t <= d2 && ZoneOfDay(db, offer, g.id, t, z)
    requires SharedDisjointZones(db, offer, Serving(db, offer, g.id))
    requires match Prepare(db, Ids(groups), d1, d2, Listed(durations))(offer)
      case None => providerRows == []
      case Some(sd) => multiset(providerRows) == multiset(ProviderRows(sd, groups, d1, d2, durations))
    requires Answers(marketRow, db, [offer], g, t, durations, Minimum)
    ensures var found := Gather(providerRows, Covering(g.code, t)); |found| == 1 && found[0].prices == marketRow.prices
  {
    ZonesOfServedGroup(db, offer, groups, d1, d2, durations, g, t, z);
    var sd := Prepare(db, Ids(groups), d1, d2, Listed(durations))(offer).value;
    UniqueProviderRow(sd, groups, d1, d2, durations, g, t, z, providerRows);
    SamePrices(db, offer, groups, d1, d2, durations, g, t, z, marketRow, sd);
  }

  lemma UniqueProviderRow(sd: SubData, groups: seq<Group>, d1: Date, d2: Date, durations: seq<nat>, g: Group, t: Date,
                          z: Triple, rows: seq<Row>)
    requires DistinctGroups(groups) && g in groups && d1 <= t <= d2 && z.Contains(t)
    requires z in ZonesOfGroup(sd, g.id) && forall y :: y in ZonesOfGroup(sd, g.id) && y.Contains(t) ==> y == z
    requires multiset(rows) == multiset(ProviderRows(sd, groups, d1, d2, durations))
    ensures Gather(rows, Covering(g.code, t)) == [ZoneRowFor(sd, g.code, Get(sd.categoriesOf, g.id), z, d1, d2,
                                                             durations)]
  {
    var k := ZoneIndex(AllTriples(sd, Get(sd.categoriesOf, g.id)), z, t);
    var n :| 0 <= n < |groups| && groups[n] == g;
    OneProviderRow(sd, groups, d1, d2, durations, n, k, t);
    GatherPermutes(rows, ProviderRows(sd, groups, d1, d2, durations), Covering(g.code, t));
    Singleton(Gather(rows, Covering(g.code, t)),
              ZoneRowFor(sd, g.code, Get(sd.categoriesOf, g.id), z, d1, d2, durations));
  }

  lemma SamePrices(db: Tables, offer: Offer, groups: seq<Group>, d1: Date, d2: Date, durations: seq<nat>,
                   g: Group, t: Date, z: Triple, marketRow: Row, sd: SubData)
    requires g in groups && d1 <= t <= d2 && ZoneOfDay(db, offer, g.id, t, z)
    requires SharedDisjointZones(db, offer, Serving(db, offer, g.id))
    requires Prepare(db, Ids(groups), d1, d2, Listed(durations))(offer) == Some(sd)
    requires Answers(marketRow, db, [offer], g, t, durations, Minimum)
    ensures RepPrices(sd, Get(sd.categoriesOf, g.id), z.rep, durations) == marketRow.prices
  {
    var prices := RepPrices(sd, Get(sd.categoriesOf, g.id), z.rep, durations);
    forall d | d in durations ensures prices[d] == marketRow.prices[d] {
      ZonePriceIsDayPrice(db, offer, groups, d1, d2, durations, g, t, z, d);
    }
    SameMap(prices, marketRow.prices);
  }
}
