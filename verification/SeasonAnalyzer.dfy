/** Season detection: cutting a period into zones of stable price from weekly probe prices. */
module SeasonAnalyzer {
  import opened Sorting
  import opened Comprehension
  import opened Dates
  import OrderStatistics

  datatype PricePoint = PricePoint(pickup: Date, duration: int, total: real, group: string)

  datatype Boundary = Boundary(left: Date, right: Date, leftPrice: real, rightPrice: real)

  /** A zone is normally a non-empty stretch of days, but the detector can emit end == start - 1. */
  datatype Zone = Zone(start: Date, end: int, price: real, group: string, rep: int)

  predicate InZone(z: Zone, d: int) {
    z.start <= d <= z.end
  }

  datatype Pick = First | Middle

  datatype Settings = Settings(threshold: real, pick: Pick)

  function Daily(p: PricePoint): real {
    p.total / (if p.duration > 1 then p.duration else 1) as real
  }

  lemma DailyTimesDays(daily: real, total: real, days: real)
    requires days > 0.0 && daily == total / days
    ensures daily * days == total
  {
  }

  /** The daily price times the days, at least one, is the total. */
  lemma DailyMeaning(p: PricePoint, days: real)
    requires days == (if p.duration >= 1 then p.duration else 1) as real
    ensures Daily(p) * days == p.total
  {
    DailyTimesDays(Daily(p), p.total, days);
  }

  function Abs(x: real): real { if x < 0.0 then -x else x }

  /** Relative change against the earlier price, never dividing by less than a cent. */
  function Change(before: real, after: real): real {
    Abs(after - before) / (if before > 0.01 then before else 0.01)
  }

  function DayBefore(d: Date): int {
    d as int - 1
  }

  function PickRep(start: Date, end: int, pick: Pick): int {
    if pick == Middle then start + (end - start) / 2 else start
  }

  /** The representative is the first day, or the middle one: as many days before it as after, or one less. */
  lemma PickMeaning(start: Date, end: int)
    requires start <= end
    ensures PickRep(start, end, First) == start
    ensures var m := PickRep(start, end, Middle); start <= m <= end && m - start <= end - m <= m - start + 1
  {
  }

  // ---------------------------------------------------------------- sorting and grouping

  predicate ByDate(points: seq<PricePoint>) {
    forall i :: 0 < i < |points| ==> points[i - 1].pickup <= points[i].pickup
  }

  /** Strictly increasing probe dates. */
  predicate DistinctDates(points: seq<PricePoint>) {
    forall i :: 0 < i < |points| ==> points[i - 1].pickup < points[i].pickup
  }

  lemma {:induction false} ByDateAt(points: seq<PricePoint>, i: nat, j: nat)
    requires ByDate(points) && i <= j < |points|
    ensures points[i].pickup <= points[j].pickup
    ensures DistinctDates(points) && i < j ==> points[i].pickup < points[j].pickup
  {
    if i < j {
      ByDateAt(points, i, j - 1);
    }
  }

  function DateOrder(): (PricePoint, PricePoint) -> bool {
    (p: PricePoint, q: PricePoint) => p.pickup <= q.pickup
  }

  /** sorted(points, key=pickup_date), which is stable */
  function SortPoints(s: seq<PricePoint>): (r: seq<PricePoint>)
    ensures |r| == |s|
  {
    SortBy(s, DateOrder())
  }

  lemma SortPointsSorts(s: seq<PricePoint>)
    ensures ByDate(SortPoints(s)) && multiset(SortPoints(s)) == multiset(s)
  {
    SortBySorts(s, DateOrder());
    assert SortedBy(SortPoints(s), DateOrder());
  }

  function OfGroup(group: string): PricePoint -> Option<PricePoint> {
    (p: PricePoint) => if p.group == group then Some(p) else None
  }

  function Relevant(points: seq<PricePoint>, group: string): seq<PricePoint> {
    SortPoints(Gather(points, OfGroup(group)))
  }

  // ---------------------------------------------------------------- boundaries

  /** The i-th point differs too much from the one before it. */
  predicate Jumps(points: seq<PricePoint>, threshold: real, i: int) {
    0 < i < |points| && Change(Daily(points[i - 1]), Daily(points[i])) > threshold
  }

  lemma ChangeExceeds(before: real, after: real, threshold: real, base: real)
    requires base == if before > 0.01 then before else 0.01
    ensures Change(before, after) > threshold <==>
      after - before > threshold * base || before - after > threshold * base
  {
    var c := Change(before, after);
    var gap := Abs(after - before);
    assert gap == c * base by { DailyTimesDays(c, gap, base); }
    if c > threshold { Scaled(threshold, c, base); } else { Scaled(c, threshold, base); }
  }

  lemma Scaled(x: real, y: real, k: real)
    requires k > 0.0
    ensures x < y ==> x * k < y * k
    ensures x <= y ==> x * k <= y * k
  {
  }

  /** A jump: the daily price moves by more than the threshold's share of the earlier price, or of a cent when that
      price is lower. */
  lemma JumpMeaning(points: seq<PricePoint>, threshold: real, i: nat, before: real, after: real)
    requires 0 < i < |points| && before == Daily(points[i - 1]) && after == Daily(points[i])
    ensures Jumps(points, threshold, i) <==>
      var share := threshold * (if before > 0.01 then before else 0.01);
      after > before + share || after < before - share
  {
    ChangeExceeds(before, after, threshold, if before > 0.01 then before else 0.01);
  }

  /** The boundaries among the first k points. */
  function Boundaries(points: seq<PricePoint>, threshold: real, k: nat): seq<Boundary>
    requires k <= |points|
  {
    if k <= 1 then []
    else Boundaries(points, threshold, k - 1)
         + if Jumps(points, threshold, k - 1) then
             [Boundary(points[k - 2].pickup, points[k - 1].pickup, Daily(points[k - 2]), Daily(points[k - 1]))]
           else []
  }

  method DetectBoundaries(points: seq<PricePoint>, threshold: real) returns (boundaries: seq<Boundary>)
    ensures boundaries == Boundaries(points, threshold, |points|)
  {
    boundaries := [];
    var i := 1;
    while i < |points|
      invariant 1 <= i && (i <= |points| || points == [])
      invariant boundaries == Boundaries(points, threshold, if i <= |points| then i else |points|)
    {
      var before, after := Daily(points[i - 1]), Daily(points[i]);
      if Change(before, after) > threshold {
        boundaries := boundaries + [Boundary(points[i - 1].pickup, points[i].pickup, before, after)];
      }
      i := i + 1;
    }
  }

  /** Every boundary is a jump ... */
  lemma {:induction false} BoundaryIsJump(points: seq<PricePoint>, threshold: real, k: nat, j: nat) returns (i: nat)
    requires k <= |points| && j < |Boundaries(points, threshold, k)|
    ensures 0 < i < k && Jumps(points, threshold, i) && Boundaries(points, threshold, k)[j].right == points[i].pickup
    ensures j > 0 ==> exists h :: (
      0 < h < i && Jumps(points, threshold, h) && Boundaries(points, threshold, k)[j - 1].right == points[h].pickup)
  {
    if j < |Boundaries(points, threshold, k - 1)| {
      i := BoundaryIsJump(points, threshold, k - 1, j);
    } else {
      i := k - 1;
      if j > 0 {
        var h := BoundaryIsJump(points, threshold, k - 1, j - 1);
      }
    }
  }

  /** ... and every jump is a boundary. */
  lemma {:induction false} JumpIsBoundary(points: seq<PricePoint>, threshold: real, k: nat, i: nat) returns (j: nat)
    requires 0 < i < k <= |points| && Jumps(points, threshold, i)
    ensures j < |Boundaries(points, threshold, k)| && Boundaries(points, threshold, k)[j].right == points[i].pickup
    ensures j == |Boundaries(points, threshold, i)|
  {
    if i < k - 1 {
      j := JumpIsBoundary(points, threshold, k - 1, i);
    } else {
      j := |Boundaries(points, threshold, k)| - 1;
    }
  }

  predicate ByLeft(bs: seq<Boundary>) {
    forall i :: 0 < i < |bs| ==> bs[i - 1].left <= bs[i].left
  }

  /** boundaries.sort(key=left_date) */
  function SortBoundaries(s: seq<Boundary>): seq<Boundary> {
    SortBy(s, (b: Boundary, c: Boundary) => b.left <= c.left)
  }

  lemma SortIdle(bs: seq<Boundary>)
    requires ByLeft(bs)
    ensures SortBoundaries(bs) == bs
  {
    SortByIdle(bs, (b: Boundary, c: Boundary) => b.left <= c.left);
  }

  lemma {:induction false} BoundariesByLeft(points: seq<PricePoint>, threshold: real, k: nat)
    requires k <= |points| && ByDate(points)
    ensures ByLeft(Boundaries(points, threshold, k))
    ensures forall b :: b in Boundaries(points, threshold, k) ==> k > 1 && b.left <= points[k - 2].pickup
  {
    if k > 1 {
      BoundariesByLeft(points, threshold, k - 1);
      var bs := Boundaries(points, threshold, k - 1);
      if bs != [] {
        assert bs[|bs| - 1] in bs;
      }
    }
  }

  // ---------------------------------------------------------------- zones

  /** First day of every zone, and the day after the last one. */
  function CutDates(bs: seq<Boundary>, start: Date, end: Date): seq<Date> {
    [start] + seq(|bs|, i requires 0 <= i < |bs| => bs[i].right) + [end + 1]
  }

  /** Daily price per probe date; later points win. */
  function DailyByDate(points: seq<PricePoint>): map<Date, real> {
    if points == [] then map[]
    else DailyByDate(points[..|points| - 1])[points[|points| - 1].pickup := Daily(points[|points| - 1])]
  }

  /** The daily price of a date is that of its last point. */
  lemma {:induction false} DailyByDateMeaning(points: seq<PricePoint>, i: nat)
    requires i < |points| && forall j :: i < j < |points| ==> points[j].pickup != points[i].pickup
    ensures points[i].pickup in DailyByDate(points) && DailyByDate(points)[points[i].pickup] == Daily(points[i])
  {
    if i < |points| - 1 {
      DailyByDateMeaning(points[..|points| - 1], i);
    }
  }

  /** The price at the first probe date on or after the day, 0 when there is none. */
  ghost predicate IsReference(daily: map<Date, real>, from: Date, price: real) {
    if forall d :: d in daily ==> d < from then price == 0.0
    else exists d :: d in daily && d >= from && price == daily[d] && forall e :: e in daily && e >= from ==> d <= e
  }

  ghost predicate AreZones(zones: seq<Zone>, cuts: seq<Date>, daily: map<Date, real>, group: string, pick: Pick) {
    && |zones| + 1 == |cuts|
    && forall k :: 0 <= k < |zones| ==>
         && zones[k].start == cuts[k] && zones[k].end == DayBefore(cuts[k + 1])
         && zones[k].rep == PickRep(zones[k].start, zones[k].end, pick)
         && zones[k].group == group
         && IsReference(daily, cuts[k], zones[k].price)
  }

  method ReferencePrice(daily: map<Date, real>, from: Date) returns (price: real)
    ensures IsReference(daily, from, price)
  {
    if from in daily && daily[from] != 0.0 {
      return daily[from];
    }
    var dates: seq<Date> := SortedSet(daily.Keys);
    var i := 0;
    while i < |dates|
      invariant 0 <= i <= |dates|
      invariant forall j :: 0 <= j < i ==> dates[j] < from
    {
      if dates[i] >= from {
        assert dates[i] in Elements(dates);
        forall e | e in daily && e >= from ensures dates[i] <= e {
          assert e in Elements(dates);
          var j :| 0 <= j < |dates| && dates[j] == e;
          if i < j { AscendingAt(dates, i, j); }
        }
        return daily[dates[i]];
      }
      i := i + 1;
    }
    forall d | d in daily ensures d < from {
      assert d in Elements(dates);
    }
    return 0.0;
  }

  lemma ZonesSnoc(zones: seq<Zone>, cuts: seq<Date>, i: nat, daily: map<Date, real>, group: string, pick: Pick,
                  price: real)
    requires i + 1 < |cuts| && AreZones(zones, cuts[..i + 1], daily, group, pick) && IsReference(daily, cuts[i], price)
    ensures var last := DayBefore(cuts[i + 1]);
      AreZones(zones + [Zone(cuts[i], last, price, group, PickRep(cuts[i], last, pick))], cuts[..i + 2], daily, group,
               pick)
  {
    var before, after := cuts[..i + 1], cuts[..i + 2];
    var next := zones + [Zone(cuts[i], DayBefore(cuts[i + 1]), price, group,
                              PickRep(cuts[i], DayBefore(cuts[i + 1]), pick))];
    assert after == before + [cuts[i + 1]] && after[i] == cuts[i];
    assert forall k :: 0 <= k < |before| ==> after[k] == before[k];
    assert forall k :: 0 <= k < |zones| ==> next[k] == zones[k];
  }

  method BuildZones(boundaries: seq<Boundary>, start: Date, end: Date, points: seq<PricePoint>, group: string,
                    pick: Pick)
    returns (zones: seq<Zone>)
    ensures AreZones(zones, CutDates(boundaries, start, end), DailyByDate(points), group, pick)
  {
    var daily := DailyByDate(points);
    var cuts := CutDates(boundaries, start, end);
    zones := [];
    var i := 0;
    while i < |cuts| - 1
      invariant 0 <= i <= |cuts| - 1
      invariant AreZones(zones, cuts[..i + 1], daily, group, pick)
    {
      var zoneEnd := DayBefore(cuts[i + 1]);
      var price := ReferencePrice(daily, cuts[i]);
      ZonesSnoc(zones, cuts, i, daily, group, pick, price);
      zones := zones + [Zone(cuts[i], zoneEnd, price, group, PickRep(cuts[i], zoneEnd, pick))];
      i := i + 1;
    }
    assert cuts[..|cuts|] == cuts;
  }

  /** The single zone of a period without prices. */
  function SingleZone(start: Date, end: Date, group: string, pick: Pick): Zone {
    Zone(start, end, 0.0, group, PickRep(start, end, pick))
  }

  /** What detection yields for a date-ordered list of points. */
  ghost predicate Detected(zones: seq<Zone>, points: seq<PricePoint>, start: Date, end: Date, group: string,
                           settings: Settings)
  {
    if points == [] then zones == [SingleZone(start, end, group, settings.pick)]
    else AreZones(zones, CutDates(Boundaries(points, settings.threshold, |points|), start, end), DailyByDate(points),
                  group, settings.pick)
  }

  method DetectZones(points: seq<PricePoint>, start: Date, end: Date, group: string, settings: Settings)
    returns (zones: seq<Zone>)
    ensures Detected(zones, Relevant(points, group), start, end, group, settings)
  {
    var relevant := Relevant(points, group);
    if relevant == [] {
      return [SingleZone(start, end, group, settings.pick)];
    }
    SortPointsSorts(Gather(points, OfGroup(group)));
    var boundaries := DetectBoundaries(relevant, settings.threshold);
    BoundariesByLeft(relevant, settings.threshold, |relevant|);
    SortIdle(boundaries);
    boundaries := SortBoundaries(boundaries);
    zones := BuildZones(boundaries, start, end, relevant, group, settings.pick);
  }

  // ---------------------------------------------------------------- provider level

  /** Daily prices observed on a date, in input order. */
  function PricesOn(points: seq<PricePoint>, d: Date): seq<real> {
    if points == [] then []
    else PricesOn(points[..|points| - 1], d)
         + if points[|points| - 1].pickup == d then [Daily(points[|points| - 1])] else []
  }

  function PickupDates(points: seq<PricePoint>): set<Date> {
    set p | p in points :: p.pickup
  }

  /** One synthetic point per probe date, carrying the mean daily price of the date. */
  ghost predicate Aggregates(result: seq<PricePoint>, points: seq<PricePoint>) {
    && DistinctDates(result)
    && PickupDates(result) == PickupDates(points)
    && forall k :: 0 <= k < |result| ==>
         PricesOn(points, result[k].pickup) != [] && result[k] == MeanPoint(points, result[k].pickup)
  }

  /** by_date.setdefault(date, []).append(daily) */
  method GroupByDate(points: seq<PricePoint>) returns (byDate: map<Date, seq<real>>)
    ensures byDate.Keys == PickupDates(points)
    ensures forall d :: d in byDate ==> byDate[d] == PricesOn(points, d) && byDate[d] != []
  {
    byDate := map[];
    var i := 0;
    while i < |points|
      invariant 0 <= i <= |points|
      invariant Groups(byDate, points[..i])
    {
      var p := points[i];
      GroupStep(byDate, points, i);
      byDate := byDate[p.pickup := (if p.pickup in byDate then byDate[p.pickup] else []) + [Daily(p)]];
      i := i + 1;
    }
    assert points[..|points|] == points;
    forall d | d in byDate ensures byDate[d] == PricesOn(points, d) && byDate[d] != [] {
      assert ListsPrices(byDate, points[..|points|], d);
    }
  }

  predicate ListsPrices(byDate: map<Date, seq<real>>, points: seq<PricePoint>, d: Date) {
    if d in byDate then byDate[d] != [] && PricesOn(points, d) == byDate[d] else PricesOn(points, d) == []
  }

  ghost predicate Groups(byDate: map<Date, seq<real>>, points: seq<PricePoint>) {
    byDate.Keys == PickupDates(points) && forall d :: ListsPrices(byDate, points, d)
  }

  lemma GroupStep(byDate: map<Date, seq<real>>, points: seq<PricePoint>, i: nat)
    requires i < |points| && Groups(byDate, points[..i])
    ensures var p := points[i];
      var next := byDate[p.pickup := (if p.pickup in byDate then byDate[p.pickup] else []) + [Daily(p)]];
      Groups(next, points[..i + 1])
  {
    var p, before, after := points[i], points[..i], points[..i + 1];
    var next := byDate[p.pickup := (if p.pickup in byDate then byDate[p.pickup] else []) + [Daily(p)]];
    assert after == before + [p];
    assert after[..|after| - 1] == before;
    forall d ensures ListsPrices(next, after, d) {
      assert ListsPrices(byDate, before, d);
    }
  }

  function MeanPoint(points: seq<PricePoint>, d: Date): PricePoint
    requires PricesOn(points, d) != []
  {
    PricePoint(d, 1, OrderStatistics.Sum(PricesOn(points, d)) / |PricesOn(points, d)| as real, "")
  }

  /** The prices of a date are the daily prices of its points ... */
  lemma {:induction false} PricesOnMeaning(points: seq<PricePoint>, d: Date, x: real)
    ensures x in PricesOn(points, d) <==> exists p :: p in points && p.pickup == d && Daily(p) == x
  {
    if points != [] {
      var front, last := points[..|points| - 1], points[|points| - 1];
      PricesOnMeaning(front, d, x);
      assert points == front + [last];
    }
  }

  function Positions(points: seq<PricePoint>, d: Date): set<nat> {
    set i: nat | i < |points| && points[i].pickup == d
  }

  lemma PositionsGrow(front: seq<PricePoint>, last: PricePoint, d: Date)
    ensures |Positions(front + [last], d)| == |Positions(front, d)| + if last.pickup == d then 1 else 0
  {
    assert Positions(front + [last], d) == Positions(front, d) + if last.pickup == d then {|front|} else {};
  }

  /** ... one for each of them ... */
  lemma {:induction false} PricesOnCount(points: seq<PricePoint>, d: Date)
    ensures |PricesOn(points, d)| == |Positions(points, d)|
  {
    if points != [] {
      var front, last := points[..|points| - 1], points[|points| - 1];
      PricesOnCount(front, d);
      PositionsGrow(front, last, d);
      assert points == front + [last];
    } else {
      assert Positions(points, d) == {};
    }
  }

  /** ... and the synthetic point shares out their sum. */
  lemma MeanPointMeaning(points: seq<PricePoint>, d: Date, mean: real, sum: real, n: real)
    requires PricesOn(points, d) != [] && n == |PricesOn(points, d)| as real
    requires mean == MeanPoint(points, d).total && sum == OrderStatistics.Sum(PricesOn(points, d))
    ensures MeanPoint(points, d).pickup == d && mean * n == sum
  {
    OrderStatistics.Shares(mean, sum, n);
  }

  method AggregateByDate(points: seq<PricePoint>) returns (result: seq<PricePoint>)
    ensures Aggregates(result, points)
  {
    var byDate := GroupByDate(points);
    var dates: seq<Date> := SortedSet(byDate.Keys);
    result := [];
    var k := 0;
    while k < |dates|
      invariant 0 <= k <= |dates| && |result| == k
      invariant forall j :: 0 <= j < k ==> PricesOn(points, dates[j]) != [] && result[j] == MeanPoint(points, dates[j])
    {
      assert dates[k] in Elements(dates);
      var prices := byDate[dates[k]];
      result := result + [PricePoint(dates[k], 1, OrderStatistics.Sum(prices) / |prices| as real, "")];
      k := k + 1;
    }
    SameDates(result, dates);
  }

  lemma SameDates(result: seq<PricePoint>, dates: seq<Date>)
    requires |result| == |dates| && forall j :: 0 <= j < |dates| ==> result[j].pickup == dates[j]
    ensures PickupDates(result) == Elements(dates)
  {
    forall d ensures d in PickupDates(result) <==> d in Elements(dates) {
      if d in Elements(dates) {
        var j :| 0 <= j < |dates| && dates[j] == d;
        assert result[j].pickup == d;
      }
    }
  }

  method DetectZonesProviderLevel(points: seq<PricePoint>, start: Date, end: Date, settings: Settings)
    returns (zones: seq<Zone>)
    ensures exists aggregated: seq<PricePoint> ::
      Aggregates(aggregated, points) && (points == [] <==> aggregated == []) &&
        Detected(zones, aggregated, start, end, "", settings)
  {
    if points == [] {
      assert Aggregates([], points);
      return [SingleZone(start, end, "", settings.pick)];
    }
    var points' := AggregateByDate(points);
    assert points[0].pickup in PickupDates(points);
    var boundaries := DetectBoundaries(points', settings.threshold);
    BoundariesByLeft(points', settings.threshold, |points'|);
    SortIdle(boundaries);
    boundaries := SortBoundaries(boundaries);
    zones := BuildZones(boundaries, start, end, points', "", settings.pick);
  }
}
