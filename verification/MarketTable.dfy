/** The market table as a whole: rows for every client group and tramo, sorted, and the theorem that
    it answers exactly what the per-day query answers. */
module MarketTable {
  import opened Comprehension
  import opened Catalog
  import opened Dates
  import opened Grid
  import opened MarketTariff
  import opened OrderStatistics
  import opened Rounding
  import opened Sorting

  /** A client vehicle group: its code and its id. */
  datatype Group = Group(code: string, id: nat)

  // ---------------------------------------------------------------- row order

  /** Lexicographic order of strings. */
  predicate LexLess(a: string, b: string) {
    b != [] && (a == [] || a[0] < b[0] || (a[0] == b[0] && LexLess(a[1..], b[1..])))
  }

  /** At the first difference, the smaller character, or the end of the shorter string. */
  ghost predicate DiffersAt(a: string, b: string, k: nat) {
    k <= |a| && k < |b| && a[..k] == b[..k] && (k == |a| || a[k] < b[k])
  }

  lemma {:induction false} LexMeaning(a: string, b: string)
    ensures LexLess(a, b) <==> exists k: nat :: DiffersAt(a, b, k)
  {
    if a != [] && b != [] {
      LexMeaning(a[1..], b[1..]);
      if LexLess(a, b) && a[0] == b[0] {
        var k: nat :| DiffersAt(a[1..], b[1..], k);
        assert a[..k + 1] == [a[0]] + a[1..][..k] && b[..k + 1] == [b[0]] + b[1..][..k];
        assert DiffersAt(a, b, k + 1);
      }
      if a[0] < b[0] {
        assert DiffersAt(a, b, 0);
      }
      if k: nat :| DiffersAt(a, b, k) {
        if k > 0 {
          assert a[..k][0] == b[..k][0] && a[..k][1..] == b[..k][1..];
          assert a[1..][..k - 1] == a[..k][1..] && b[1..][..k - 1] == b[..k][1..];
          assert DiffersAt(a[1..], b[1..], k - 1);
        }
      }
    } else if b != [] {
      assert DiffersAt(a, b, 0);
    }
  }

  /** Rows come in the order of their codes, and of their first days within a code. */
  lemma RowsSortedMeaning(rows: seq<Row>, i: nat)
    requires RowsSorted(rows) && i + 1 < |rows|
    ensures !LexLess(rows[i + 1].code, rows[i].code)
    ensures rows[i].code == rows[i + 1].code ==> rows[i].first <= rows[i + 1].first
  {
    assert RowOrder()(rows[i + 1 - 1], rows[i + 1]);
  }

  lemma {:induction false} LexAsymmetric(a: string, b: string)
    ensures !(LexLess(a, b) && LexLess(b, a))
  {
    if a != [] && b != [] && a[0] == b[0] {
      LexAsymmetric(a[1..], b[1..]);
    }
  }

  predicate KeyLess(r: Row, s: Row) {
    LexLess(r.code, s.code) || (r.code == s.code && r.first < s.first)
  }

  function RowOrder(): (Row, Row) -> bool {
    (r: Row, s: Row) => !KeyLess(s, r)
  }

  predicate RowsSorted(rows: seq<Row>) {
    SortedBy(rows, RowOrder())
  }

  /** rows.sort(key=(code, period_start)), which is stable */
  function SortRows(rows: seq<Row>): seq<Row> {
    SortBy(rows, RowOrder())
  }

  lemma SortRowsSorts(rows: seq<Row>)
    ensures RowsSorted(SortRows(rows)) && multiset(SortRows(rows)) == multiset(rows)
  {
    forall r, s ensures RowOrder()(r, s) || RowOrder()(s, r) {
      LexAsymmetric(r.code, s.code);
    }
    SortBySorts(rows, RowOrder());
  }

  // ---------------------------------------------------------------- exactly one row

  ghost predicate DistinctGroups(groups: seq<Group>) {
    forall i, j :: 0 <= i < j < |groups| ==> groups[i].code != groups[j].code
  }

  /** Selects the rows of a group that contain a day. */
  function Covering(code: string, t: Date): Row -> Option<Row> {
    (r: Row) => if r.code == code && r.first <= t <= r.last then Some(r) else None
  }

  function GroupRows(subData: seq<SubData>, g: Group, grid: seq<Tramo>, durations: seq<nat>,
                     aggregate: Aggregate): seq<Row>
  {
    seq(|grid|, i requires 0 <= i < |grid| => RowFor(subData, g.code, g.id, grid[i], durations, aggregate))
  }

  function AllRows(subData: seq<SubData>, groups: seq<Group>, grid: seq<Tramo>, durations: seq<nat>,
                   aggregate: Aggregate): seq<Row>
  {
    if groups == [] then []
    else AllRows(subData, groups[..|groups| - 1], grid, durations, aggregate)
         + GroupRows(subData, groups[|groups| - 1], grid, durations, aggregate)
  }

  lemma {:induction false} OtherGroups(subData: seq<SubData>, groups: seq<Group>, grid: seq<Tramo>, durations: seq<nat>,
                                       aggregate: Aggregate, code: string, t: Date)
    requires forall i :: 0 <= i < |groups| ==> groups[i].code != code
    ensures Gather(AllRows(subData, groups, grid, durations, aggregate), Covering(code, t)) == []
  {
    if groups != [] {
      var front, g := groups[..|groups| - 1], groups[|groups| - 1];
      OtherGroups(subData, front, grid, durations, aggregate, code, t);
      NoRowOfOther(subData, g, grid, durations, aggregate, code, t);
      GatherSplit(AllRows(subData, front, grid, durations, aggregate),
                  GroupRows(subData, g, grid, durations, aggregate), Covering(code, t));
    }
  }

  lemma AllRowsStep(subData: seq<SubData>, groups: seq<Group>, grid: seq<Tramo>, durations: seq<nat>,
                    aggregate: Aggregate, code: string, t: Date)
    requires groups != []
    ensures Gather(AllRows(subData, groups, grid, durations, aggregate), Covering(code, t))
         == Gather(AllRows(subData, groups[..|groups| - 1], grid, durations, aggregate), Covering(code, t))
          + Gather(GroupRows(subData, groups[|groups| - 1], grid, durations, aggregate), Covering(code, t))
  {
    GatherSplit(AllRows(subData, groups[..|groups| - 1], grid, durations, aggregate),
                GroupRows(subData, groups[|groups| - 1], grid, durations, aggregate), Covering(code, t));
  }

  /** Before sorting, a group and a day pick out exactly the row of the tramo containing the day. */
  lemma {:induction false} OneRow(subData: seq<SubData>, groups: seq<Group>, grid: seq<Tramo>, durations: seq<nat>,
                                  aggregate: Aggregate, k: nat, i: nat, t: Date)
    requires k < |groups| && forall j :: 0 <= j < |groups| && j != k ==> groups[j].code != groups[k].code
    requires i < |grid| && grid[i].Contains(t) && forall j :: 0 <= j < |grid| && grid[j].Contains(t) ==> j == i
    ensures Gather(AllRows(subData, groups, grid, durations, aggregate), Covering(groups[k].code, t))
         == [RowFor(subData, groups[k].code, groups[k].id, grid[i], durations, aggregate)]
  {
    var front, last := groups[..|groups| - 1], groups[|groups| - 1];
    AllRowsStep(subData, groups, grid, durations, aggregate, groups[k].code, t);
    if k == |groups| - 1 {
      OtherGroups(subData, front, grid, durations, aggregate, last.code, t);
      OneRowOfGroup(subData, last, grid, durations, aggregate, i, t);
    } else {
      OneRow(subData, front, grid, durations, aggregate, k, i, t);
      NoRowOfOther(subData, last, grid, durations, aggregate, groups[k].code, t);
    }
  }

  lemma OneRowOfGroup(subData: seq<SubData>, g: Group, grid: seq<Tramo>, durations: seq<nat>, aggregate: Aggregate,
                      i: nat, t: Date)
    requires i < |grid| && grid[i].Contains(t) && forall j :: 0 <= j < |grid| && grid[j].Contains(t) ==> j == i
    ensures Gather(GroupRows(subData, g, grid, durations, aggregate), Covering(g.code, t))
         == [RowFor(subData, g.code, g.id, grid[i], durations, aggregate)]
  {
    GatherSingle(GroupRows(subData, g, grid, durations, aggregate), Covering(g.code, t), i,
                 RowFor(subData, g.code, g.id, grid[i], durations, aggregate));
  }

  lemma NoRowOfOther(subData: seq<SubData>, g: Group, grid: seq<Tramo>, durations: seq<nat>, aggregate: Aggregate,
                     code: string, t: Date)
    requires g.code != code
    ensures Gather(GroupRows(subData, g, grid, durations, aggregate), Covering(code, t)) == []
  {
    GatherNothing(GroupRows(subData, g, grid, durations, aggregate), Covering(code, t));
  }

  // ---------------------------------------------------------------- building the table

  function Ranges(rows: seq<ZoneRow>): seq<ZoneRange> {
    seq(|rows|, i requires 0 <= i < |rows| => RangeOf(rows[i]))
  }

  function ZonesBySub(subData: seq<SubData>): seq<seq<ZoneRange>> {
    seq(|subData|, i requires 0 <= i < |subData| => Ranges(subData[i].zones))
  }

  lemma {:induction false} FlattenMembers(zs: seq<seq<ZoneRange>>, i: nat, z: ZoneRange)
    requires i < |zs| && z in zs[i]
    ensures z in Flatten(zs)
  {
    if i > 0 {
      FlattenMembers(zs[1..], i - 1, z);
    }
  }

  lemma GridAligns(subData: seq<SubData>, grid: seq<Tramo>, d1: Date, d2: Date, i: nat)
    requires IsGrid(grid, Flatten(ZonesBySub(subData)), d1, d2) && i < |grid|
    ensures forall sd :: sd in subData ==> AllAligned(sd.zones, grid[i])
  {
    forall sd, z | sd in subData && z in sd.zones ensures Aligned(RangeOf(z), grid[i]) {
      var j :| 0 <= j < |subData| && subData[j] == sd;
      var k :| 0 <= k < |sd.zones| && sd.zones[k] == z;
      assert Ranges(sd.zones)[k] == RangeOf(z);
      FlattenMembers(ZonesBySub(subData), j, RangeOf(z));
    }
  }

  /** The loop over the active subscriptions. */
  method PrepareAll(db: Tables, subs: seq<Offer>, groups: set<nat>, d1: Date, d2: Date, durations: seq<nat>)
    returns (subData: seq<SubData>)
    ensures subData == Gather(subs, Prepare(db, groups, d1, d2, Listed(durations)))
  {
    subData := [];
    var k := 0;
    while k < |subs|
      invariant 0 <= k <= |subs|
      invariant subData == Gather(subs[..k], Prepare(db, groups, d1, d2, Listed(durations)))
    {
      GatherSnoc(subs, k, Prepare(db, groups, d1, d2, Listed(durations)));
      var offer := subs[k];
      var categoriesOf := ResolveMappings(db, offer, groups);
      var ids := AllIds(categoriesOf);
      if ids != {} {
        var zones := LoadZones(db, offer, ids, d1, d2);
        if zones != [] {
          var zoneMap := GroupZones(zones);
          var obs := FetchObservations(db, offer, ids, Reps(zones), Listed(durations));
          subData := subData + [SubData(offer, categoriesOf, zones, zoneMap, obs)];
        }
      }
      k := k + 1;
    }
    assert subs[..|subs|] == subs;
  }

  function Listed(durations: seq<nat>): set<nat> {
    set d | d in durations
  }

  function Ids(groups: seq<Group>): set<nat> {
    set g | g in groups :: g.id
  }

  /** Some active subscription serves one of the groups and has a zone over the range. */
  ghost predicate HasData(db: Tables, subs: seq<Offer>, groups: seq<Group>, d1: Date, d2: Date, durations: seq<nat>) {
    Gather(subs, Prepare(db, Ids(groups), d1, d2, Listed(durations))) != []
  }

  /** The row says for its group exactly what the per-day query says for the day, duration by duration. */
  ghost predicate Answers(row: Row, db: Tables, subs: seq<Offer>, g: Group, t: Date, durations: seq<nat>,
                          aggregate: Aggregate)
  {
    && row.code == g.code && row.first <= t <= row.last
    && row.coverage.Some?
    && (forall d :: d in row.prices <==> d in durations) && (forall d :: d in row.coverage.value <==> d in durations)
    && forall d :: d in durations ==>
         && row.prices[d] == Aggregated(aggregate, MarketOn(db, subs, g.id, t, d))
         && row.coverage.value[d] == Times(durations, d) * |MarketOn(db, subs, g.id, t, d)|
  }

  /** Exactly one row of the table covers the group on the day, and it answers the per-day query. */
  ghost predicate AnswersOnce(rows: seq<Row>, db: Tables, subs: seq<Offer>, g: Group, t: Date, durations: seq<nat>,
                              aggregate: Aggregate)
  {
    var found := Gather(rows, Covering(g.code, t));
    |found| == 1 && Answers(found[0], db, subs, g, t, durations, aggregate)
  }

  ghost predicate AnswersAll(rows: seq<Row>, db: Tables, subs: seq<Offer>, groups: seq<Group>, d1: Date, d2: Date,
                             durations: seq<nat>, aggregate: Aggregate)
  {
    forall g, t :: g in groups && d1 <= t <= d2 ==> AnswersOnce(rows, db, subs, g, t, durations, aggregate)
  }

  /** The row loops: one row per client group and tramo. */
  method BuildRows(subData: seq<SubData>, groups: seq<Group>, grid: seq<Tramo>, durations: seq<nat>,
                   aggregate: Aggregate)
    returns (raw: seq<Row>)
    ensures raw == AllRows(subData, groups, grid, durations, aggregate)
  {
    raw := [];
    var k := 0;
    while k < |groups|
      invariant 0 <= k <= |groups|
      invariant raw == AllRows(subData, groups[..k], grid, durations, aggregate)
    {
      var g := groups[k];
      assert groups[..k + 1][..k] == groups[..k];
      ghost var done, mine := raw, GroupRows(subData, g, grid, durations, aggregate);
      var i := 0;
      while i < |grid|
        invariant 0 <= i <= |grid|
        invariant raw == done + mine[..i]
      {
        var row := BuildRow(subData, g.code, g.id, grid[i], durations, aggregate);
        assert mine[..i + 1] == mine[..i] + [mine[i]];
        raw := raw + [row];
        i := i + 1;
      }
      assert mine[..|grid|] == mine;
      k := k + 1;
    }
    assert groups[..|groups|] == groups;
  }

  /** _get_market_tariff */
  method GetMarketTariff(db: Tables, subs: seq<Offer>, groups: seq<Group>, d1: Date, d2: Date, durations: seq<nat>,
                         aggregate: Aggregate)
    returns (rows: seq<Row>)
    requires DistinctGroups(groups)
    ensures RowsSorted(rows)
    ensures !HasData(db, subs, groups, d1, d2, durations) ==> rows == []
    ensures HasData(db, subs, groups, d1, d2, durations) ==>
      AnswersAll(rows, db, subs, groups, d1, d2, durations, aggregate)
    ensures forall r :: r in rows ==> d1 <= r.first <= r.last <= d2 && exists g :: g in groups && g.code == r.code
  {
    if subs == [] {
      return [];
    }
    if groups == [] {
      return [];
    }
    var subData := PrepareAll(db, subs, Ids(groups), d1, d2, durations);
    if subData == [] {
      return [];
    }
    var grid := ComputeIntersectedGrid(ZonesBySub(subData), d1, d2);
    if grid == [] {
      PreparedHaveZones(db, subs, Ids(groups), d1, d2, Listed(durations));
      NoDays(subData, d1, d2);
      return [];
    }
    var raw := BuildRows(subData, groups, grid, durations, aggregate);
    rows := SortRows(raw);
    SortRowsSorts(raw);
    forall g, t | g in groups && d1 <= t <= d2
      ensures AnswersOnce(rows, db, subs, g, t, durations, aggregate)
    {
      TableAnswers(db, subs, groups, d1, d2, durations, aggregate, grid, rows, g, t);
    }
    forall r | r in rows ensures d1 <= r.first <= r.last <= d2 && exists g :: g in groups && g.code == r.code {
      assert r in multiset(rows);
      assert r in multiset(raw);
      RowsInRange(subData, groups, grid, durations, aggregate, d1, d2, r);
    }
  }

  lemma PreparedHaveZones(db: Tables, subs: seq<Offer>, groups: set<nat>, d1: Date, d2: Date, durations: set<nat>)
    ensures forall sd :: sd in Gather(subs, Prepare(db, groups, d1, d2, durations)) ==> sd.zones != []
  {
    forall sd | sd in Gather(subs, Prepare(db, groups, d1, d2, durations)) ensures sd.zones != [] {
      GatherMembers(subs, Prepare(db, groups, d1, d2, durations), sd);
    }
  }

  lemma NoDays(subData: seq<SubData>, d1: Date, d2: Date)
    requires IsGrid([], Flatten(ZonesBySub(subData)), d1, d2) && subData != []
    requires forall sd :: sd in subData ==> sd.zones != []
    ensures d1 > d2
  {
    var z := Ranges(subData[0].zones)[0];
    assert z in ZonesBySub(subData)[0];
    FlattenMembers(ZonesBySub(subData), 0, z);
  }

  lemma {:induction false} RowsInRange(subData: seq<SubData>, groups: seq<Group>, grid: seq<Tramo>, durations: seq<nat>,
                                       aggregate: Aggregate, d1: Date, d2: Date, r: Row)
    requires IsGrid(grid, Flatten(ZonesBySub(subData)), d1, d2)
    requires r in AllRows(subData, groups, grid, durations, aggregate)
    ensures d1 <= r.first <= r.last <= d2 && exists g :: g in groups && g.code == r.code
  {
    var front, last := groups[..|groups| - 1], groups[|groups| - 1];
    if r in AllRows(subData, front, grid, durations, aggregate) {
      RowsInRange(subData, front, grid, durations, aggregate, d1, d2, r);
    } else {
      var i :| 0 <= i < |grid| && GroupRows(subData, last, grid, durations, aggregate)[i] == r;
      TramoOrder(grid, Flatten(ZonesBySub(subData)), d1, d2, 0, i);
      TramoOrder(grid, Flatten(ZonesBySub(subData)), d1, d2, i, |grid| - 1);
      assert last in groups;
    }
  }

  /** The refinement: grid, row loops and sorting together answer the per-day query. */
  lemma TableAnswers(db: Tables, subs: seq<Offer>, groups: seq<Group>, d1: Date, d2: Date, durations: seq<nat>,
                     aggregate: Aggregate, grid: seq<Tramo>, rows: seq<Row>, g: Group, t: Date)
    requires DistinctGroups(groups) && g in groups && d1 <= t <= d2
    requires var subData := Gather(subs, Prepare(db, Ids(groups), d1, d2, Listed(durations)));
      && IsGrid(grid, Flatten(ZonesBySub(subData)), d1, d2) && grid != []
      && multiset(rows) == multiset(AllRows(subData, groups, grid, durations, aggregate))
    ensures AnswersOnce(rows, db, subs, g, t, durations, aggregate)
  {
    var subData := Gather(subs, Prepare(db, Ids(groups), d1, d2, Listed(durations)));
    var raw := AllRows(subData, groups, grid, durations, aggregate);
    GridTiles(grid, Flatten(ZonesBySub(subData)), d1, d2, t);
    var i :| 0 <= i < |grid| && grid[i].Contains(t);
    var row := RowFor(subData, g.code, g.id, grid[i], durations, aggregate);
    var k :| 0 <= k < |groups| && groups[k] == g;
    OneRow(subData, groups, grid, durations, aggregate, k, i, t);
    GatherPermutes(rows, raw, Covering(g.code, t));
    Singleton(Gather(rows, Covering(g.code, t)), row);
    GridAligns(subData, grid, d1, d2, i);
    forall d | d in durations
      ensures PriceFor(subData, g.id, grid[i], aggregate, d) == Aggregated(aggregate, MarketOn(db, subs, g.id, t, d))
      ensures CoverageFor(subData, g.id, grid[i], durations, d) == Times(durations, d) * |MarketOn(db, subs, g.id, t,
                                                                                                   d)|
    {
      MarketAgrees(db, subs, Ids(groups), d1, d2, Listed(durations), g.id, grid[i], t, d);
    }
  }

  lemma Singleton<T>(s: seq<T>, x: T)
    requires multiset(s) == multiset([x])
    ensures s == [x]
  {
    assert |s| == |multiset(s)| == 1;
    assert s[0] in multiset(s);
  }

  // ---------------------------------------------------------------- minimum and average

  lemma {:induction false} SumAtLeast(xs: seq<real>, low: real)
    requires forall x :: x in xs ==> low <= x
    ensures Scaled(|xs|, low) <= Sum(xs)
  {
    if xs != [] {
      assert xs[0] in xs;
      assert forall x :: x in xs[1..] ==> x in xs;
      SumAtLeast(xs[1..], low);
    }
  }

  lemma MeanAtLeastMin(xs: seq<real>)
    requires xs != []
    ensures OrderStatistics.Min(xs) <= Sum(xs) / |xs| as real
  {
    Extremes(xs);
    SumAtLeast(xs, OrderStatistics.Min(xs));
    ScaledMean(|xs|, OrderStatistics.Min(xs), Sum(xs));
  }

  lemma ScaledMean(n: nat, low: real, total: real)
    requires n > 0 && Scaled(n, low) <= total
    ensures low <= total / n as real
  {
    ScaledProduct(n, low, n as real);
    Quotient(Scaled(n, low), n as real, low);
    DivideMonotone(Scaled(n, low), total, n as real);
  }

  lemma {:induction false} ScaledProduct(n: nat, x: real, k: real)
    requires k == n as real
    ensures Scaled(n, x) == x * k
  {
    if n > 0 {
      ScaledProduct(n - 1, x, k - 1.0);
    }
  }

  /** Over one list of whole-cent prices the minimum never exceeds the rounded average. */
  lemma MinimumBelowMean(xs: seq<real>)
    requires xs != [] && forall x :: x in xs ==> WholeCents(x)
    ensures Aggregated(Minimum, xs).value <= Aggregated(Average, xs).value
  {
    Extremes(xs);
    MeanAtLeastMin(xs);
    BankersCentsIdentity(OrderStatistics.Min(xs));
    BankersCentsMonotone(OrderStatistics.Min(xs), Sum(xs) / |xs| as real);
  }

  /** The price columns hold two decimals. */
  ghost predicate WholeCentPrices(db: Tables) {
    forall k :: k in db.prices ==> WholeCents(db.prices[k])
  }

  /** Whatever a subscription contributes on a day is a stored price. */
  lemma MarketIsCents(db: Tables, subs: seq<Offer>, group: nat, t: Date, dur: nat, x: real)
    requires WholeCentPrices(db) && x in MarketOn(db, subs, group, t, dur)
    ensures WholeCents(x)
  {
    GatherMembers(subs, OfferOn(db, group, t, dur), x);
    var i :| 0 <= i < |subs| && OfferOn(db, group, t, dur)(subs[i]) == Some(x);
    var offered := Gather(Serving(db, subs[i], group), CategoryOn(db, subs[i], t, dur));
    Extremes(offered);
    GatherMembers(Serving(db, subs[i], group), CategoryOn(db, subs[i], t, dur), x);
  }

  /** Two rows for the same group, day and duration: priced together, equally covered, and ordered. */
  ghost predicate CellBelow(low: Row, high: Row, d: nat) {
    && low.coverage.Some? && high.coverage.Some?
    && d in low.prices && d in high.prices && d in low.coverage.value && d in high.coverage.value
    && low.coverage.value[d] == high.coverage.value[d]
    && low.prices[d].Some? == high.prices[d].Some?
    && (low.prices[d].Some? ==> low.prices[d].value <= high.prices[d].value)
  }

  lemma RowBelow(low: Row, high: Row, db: Tables, subs: seq<Offer>, g: Group, t: Date, durations: seq<nat>, d: nat)
    requires WholeCentPrices(db) && d in durations
    requires Answers(low, db, subs, g, t, durations, Minimum) && Answers(high, db, subs, g, t, durations, Average)
    ensures CellBelow(low, high, d)
  {
    var xs := MarketOn(db, subs, g.id, t, d);
    if xs != [] {
      forall x | x in xs ensures WholeCents(x) { MarketIsCents(db, subs, g.id, t, d, x); }
      MinimumBelowMean(xs);
    }
  }

  /** The market-minimum table never exceeds the market-average table: for every group, day and duration both have
      a price or neither, with the same coverage, and the minimum is at most the average. */
  lemma MinimumBelowAverage(low: seq<Row>, high: seq<Row>, db: Tables, subs: seq<Offer>, groups: seq<Group>, d1: Date,
                            d2: Date, durations: seq<nat>)
    requires WholeCentPrices(db)
    requires AnswersAll(low, db, subs, groups, d1, d2, durations, Minimum)
    requires AnswersAll(high, db, subs, groups, d1, d2, durations, Average)
    ensures forall g, t, d :: g in groups && d1 <= t <= d2 && d in durations ==>
      var m, a := Gather(low, Covering(g.code, t)), Gather(high, Covering(g.code, t));
      |m| == 1 && |a| == 1 && CellBelow(m[0], a[0], d)
  {
    forall g, t, d | g in groups && d1 <= t <= d2 && d in durations
      ensures var m, a := Gather(low, Covering(g.code, t)), Gather(high, Covering(g.code, t));
        |m| == 1 && |a| == 1 && CellBelow(m[0], a[0], d)
    {
      assert AnswersOnce(low, db, subs, g, t, durations, Minimum) &&
        AnswersOnce(high, db, subs, g, t, durations, Average);
      RowBelow(Gather(low, Covering(g.code, t))[0], Gather(high, Covering(g.code, t))[0], db, subs, g, t, durations, d);
    }
  }
}
