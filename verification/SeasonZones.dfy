/** What season detection guarantees about the zones it returns. */
module SeasonZones {
  import opened Comprehension
  import opened Dates
  import opened SeasonAnalyzer

  /** The zones follow each other without gap from the first to the last day of the period. */
  ghost predicate Contiguous(zones: seq<Zone>, start: Date, end: Date) {
    && zones != [] && zones[0].start == start && zones[|zones| - 1].end == end
    && forall k :: 0 < k < |zones| ==> zones[k].start == zones[k - 1].end + 1
  }

  ghost predicate NonEmpty(zones: seq<Zone>) {
    forall k :: 0 <= k < |zones| ==> zones[k].start <= zones[k].end
  }

  ghost predicate Within(points: seq<PricePoint>, start: Date, end: Date) {
    forall i :: 0 <= i < |points| ==> start <= points[i].pickup <= end
  }

  /** Detection never leaves a gap, whatever it is given. */
  lemma DetectedContiguous(zones: seq<Zone>, points: seq<PricePoint>, start: Date, end: Date, group: string,
                           settings: Settings)
    requires Detected(zones, points, start, end, group, settings)
    ensures Contiguous(zones, start, end)
    ensures points != [] ==> |zones| == |Boundaries(points, settings.threshold, |points|)| + 1
  {
    if points != [] {
      var cuts := CutDates(Boundaries(points, settings.threshold, |points|), start, end);
      assert cuts[|zones|] == end + 1;
    }
  }

  /** Zone k of a priced period begins at the k-th boundary. */
  lemma ZoneStarts(zones: seq<Zone>, points: seq<PricePoint>, start: Date, end: Date, group: string, settings: Settings,
                   k: nat)
    requires points != [] && Detected(zones, points, start, end, group, settings) && 0 < k < |zones|
    ensures k - 1 < |Boundaries(points, settings.threshold, |points|)|
    ensures zones[k].start == Boundaries(points, settings.threshold, |points|)[k - 1].right
  {
  }

  /** A contiguous list of non-empty zones puts every day of the period into exactly one of them. */
  lemma {:induction false} ContiguousTiles(zones: seq<Zone>, start: Date, end: Date, t: Date)
    requires Contiguous(zones, start, end) && NonEmpty(zones)
    ensures (exists k :: 0 <= k < |zones| && InZone(zones[k], t)) <==> start <= t <= end
    ensures forall j, k ::
      0 <= j < |zones| && 0 <= k < |zones| && InZone(zones[j], t) && InZone(zones[k], t) ==> j == k
  {
    if start <= t <= end {
      var k := ZoneOf(zones, start, end, t, |zones|);
    }
    forall k | 0 <= k < |zones| && InZone(zones[k], t) ensures start <= t <= end {
      ZoneOrder(zones, start, end, 0, k);
      ZoneOrder(zones, start, end, k, |zones| - 1);
    }
    forall j, k | 0 <= j < k < |zones| ensures !(InZone(zones[j], t) && InZone(zones[k], t)) {
      ZoneOrder(zones, start, end, j, k);
    }
  }

  lemma {:induction false} ZoneOrder(zones: seq<Zone>, start: Date, end: Date, j: nat, k: nat)
    requires Contiguous(zones, start, end) && NonEmpty(zones) && j <= k < |zones|
    ensures zones[j].start <= zones[k].start && zones[j].end <= zones[k].end
    ensures j < k ==> zones[j].end < zones[k].start
  {
    if j < k {
      ZoneOrder(zones, start, end, j, k - 1);
    }
  }

  lemma {:induction false} ZoneOf(zones: seq<Zone>, start: Date, end: Date, t: Date, n: nat) returns (k: nat)
    requires Contiguous(zones, start, end) && 0 < n <= |zones| && start <= t <= zones[n - 1].end
    ensures k < n && InZone(zones[k], t)
  {
    k := n - 1;
    if t < zones[n - 1].start {
      k := ZoneOf(zones, start, end, t, n - 1);
    }
  }

  // ---------------------------------------------------------------- when no zone is empty

  /** No probe date carries two jumps. */
  ghost predicate SeparateJumps(points: seq<PricePoint>, threshold: real) {
    forall h, i :: h < i && Jumps(points, threshold, h) && Jumps(points, threshold, i) ==>
      points[h].pickup < points[i].pickup
  }

  /** No jump lands on the first day of the period. */
  ghost predicate NoFirstJump(points: seq<PricePoint>, threshold: real, start: Date) {
    forall i :: Jumps(points, threshold, i) ==> start < points[i].pickup
  }

  ghost predicate OneJumpPerDate(points: seq<PricePoint>, threshold: real, start: Date) {
    NoFirstJump(points, threshold, start) && SeparateJumps(points, threshold)
  }

  /** Every boundary opens on a later date than the one before it. */
  ghost predicate Ascends(bs: seq<Boundary>) {
    forall k :: 0 < k < |bs| ==> bs[k - 1].right < bs[k].right
  }

  lemma {:induction false} AscendsAt(bs: seq<Boundary>, j: nat, k: nat)
    requires Ascends(bs) && j <= k < |bs|
    ensures bs[j].right <= bs[k].right && (j < k ==> bs[j].right < bs[k].right)
  {
    if j < k {
      AscendsAt(bs, j, k - 1);
    }
  }

  lemma AscendsIff(points: seq<PricePoint>, threshold: real)
    ensures Ascends(Boundaries(points, threshold, |points|)) <==> SeparateJumps(points, threshold)
  {
    var bs := Boundaries(points, threshold, |points|);
    if SeparateJumps(points, threshold) {
      forall k | 0 < k < |bs| ensures bs[k - 1].right < bs[k].right {
        var i := BoundaryIsJump(points, threshold, |points|, k);
      }
    }
    if Ascends(bs) {
      forall h, i | h < i && Jumps(points, threshold, h) && Jumps(points, threshold, i)
        ensures points[h].pickup < points[i].pickup
      {
        var j := JumpIsBoundary(points, threshold, |points|, h);
        var k := JumpIsBoundary(points, threshold, |points|, i);
        BoundariesGrow(points, threshold, h, i);
        AscendsAt(bs, j, k);
      }
    }
  }

  /** The last boundary opens within the period. */
  lemma BoundaryWithin(points: seq<PricePoint>, threshold: real, start: Date, end: Date, k: nat)
    requires Within(points, start, end) && k < |Boundaries(points, threshold, |points|)|
    ensures start <= Boundaries(points, threshold, |points|)[k].right <= end
  {
    var i := BoundaryIsJump(points, threshold, |points|, k);
  }

  /** Zone k ends the day before the k-th boundary, the last one with the period. */
  lemma ZoneEnds(zones: seq<Zone>, points: seq<PricePoint>, start: Date, end: Date, group: string, settings: Settings,
                 k: nat)
    requires points != [] && Detected(zones, points, start, end, group, settings) && k < |zones|
    ensures var bs := Boundaries(points, settings.threshold, |points|);
      |zones| == |bs| + 1 && zones[k].end == if k < |bs| then DayBefore(bs[k].right) else end
  {
    DetectedContiguous(zones, points, start, end, group, settings);
    if k + 1 < |zones| {
      ZoneStarts(zones, points, start, end, group, settings, k + 1);
    }
  }

  lemma LaterZoneNonEmptyIff(zones: seq<Zone>, points: seq<PricePoint>, start: Date, end: Date, group: string,
                             settings: Settings, k: nat)
    requires points != [] && Within(points, start, end) && 0 < k < |zones|
    requires Detected(zones, points, start, end, group, settings)
    ensures var bs := Boundaries(points, settings.threshold, |points|);
      |zones| == |bs| + 1 && (zones[k].start <= zones[k].end <==> (k < |bs| ==> bs[k - 1].right < bs[k].right))
  {
    ZoneStarts(zones, points, start, end, group, settings, k);
    ZoneEnds(zones, points, start, end, group, settings, k);
    BoundaryWithin(points, settings.threshold, start, end, k - 1);
  }

  ghost predicate TailNonEmpty(zones: seq<Zone>) {
    forall k :: 0 < k < |zones| ==> zones[k].start <= zones[k].end
  }

  /** All zones but the first are non-empty exactly when no probe date carries two jumps. */
  lemma TailNonEmptyIff(zones: seq<Zone>, points: seq<PricePoint>, start: Date, end: Date, group: string,
                        settings: Settings)
    requires points != [] && Within(points, start, end)
    requires Detected(zones, points, start, end, group, settings)
    ensures TailNonEmpty(zones) <==> SeparateJumps(points, settings.threshold)
  {
    var bs := Boundaries(points, settings.threshold, |points|);
    ZoneEnds(zones, points, start, end, group, settings, |zones| - 1);
    forall k | 0 < k < |zones|
      ensures zones[k].start <= zones[k].end <==> (k < |bs| ==> bs[k - 1].right < bs[k].right)
    {
      LaterZoneNonEmptyIff(zones, points, start, end, group, settings, k);
    }
    AscendsIff(points, settings.threshold);
  }

  /** The first boundary opens on the first day exactly when a jump lands there. */
  lemma FirstBoundary(points: seq<PricePoint>, threshold: real, start: Date)
    requires SeparateJumps(points, threshold)
    ensures var bs := Boundaries(points, threshold, |points|);
      NoFirstJump(points, threshold, start) <==> (bs != [] ==> start < bs[0].right)
  {
    var bs := Boundaries(points, threshold, |points|);
    AscendsIff(points, threshold);
    forall i | Jumps(points, threshold, i) ensures bs != [] && bs[0].right <= points[i].pickup {
      var j := JumpIsBoundary(points, threshold, |points|, i);
      AscendsAt(bs, 0, j);
    }
    if bs != [] {
      var i := BoundaryIsJump(points, threshold, |points|, 0);
    }
  }

  /** The first zone is non-empty exactly when no jump lands on the first day; when it is empty it ends one day
      before it starts. */
  lemma FirstNonEmptyIff(zones: seq<Zone>, points: seq<PricePoint>, start: Date, end: Date, group: string,
                         settings: Settings)
    requires points != [] && Within(points, start, end) && SeparateJumps(points, settings.threshold)
    requires Detected(zones, points, start, end, group, settings)
    ensures zones != [] && zones[0].start == start
    ensures zones[0].end >= start - 1
    ensures start <= zones[0].end <==> NoFirstJump(points, settings.threshold, start)
  {
    DetectedContiguous(zones, points, start, end, group, settings);
    ZoneEnds(zones, points, start, end, group, settings, 0);
    FirstBoundary(points, settings.threshold, start);
    if Boundaries(points, settings.threshold, |points|) == [] {
      assert start <= points[0].pickup <= end;
    } else {
      BoundaryWithin(points, settings.threshold, start, end, 0);
    }
  }

  /** The zones of a priced period are all non-empty exactly when the probe has at most one jump per
      date and none on the first day. */
  lemma NonEmptyIff(zones: seq<Zone>, points: seq<PricePoint>, start: Date, end: Date, group: string,
                    settings: Settings)
    requires points != [] && Within(points, start, end)
    requires Detected(zones, points, start, end, group, settings)
    ensures NonEmpty(zones) <==> OneJumpPerDate(points, settings.threshold, start)
  {
    TailNonEmptyIff(zones, points, start, end, group, settings);
    if SeparateJumps(points, settings.threshold) {
      FirstNonEmptyIff(zones, points, start, end, group, settings);
    }
  }

  lemma JumpZone(zones: seq<Zone>, points: seq<PricePoint>, start: Date, end: Date, group: string, settings: Settings,
                 i: nat)
    returns (k: nat)
    requires points != [] && Detected(zones, points, start, end, group, settings)
    requires Jumps(points, settings.threshold, i)
    ensures 0 < k < |zones| && zones[k].start == points[i].pickup
    ensures k == |Boundaries(points, settings.threshold, i)| + 1
  {
    DetectedContiguous(zones, points, start, end, group, settings);
    var j := JumpIsBoundary(points, settings.threshold, |points|, i);
    k := j + 1;
    ZoneStarts(zones, points, start, end, group, settings, k);
  }

  lemma {:induction false} BoundariesGrow(points: seq<PricePoint>, threshold: real, h: nat, i: nat)
    requires h < i <= |points| && Jumps(points, threshold, h)
    ensures |Boundaries(points, threshold, h)| < |Boundaries(points, threshold, i)|
  {
    if h < i - 1 {
      BoundariesGrow(points, threshold, h, i - 1);
    }
  }

  /** Partition: with strictly increasing probe dates inside the period, the zones are non-empty and
      tile it, and a probe date opens a zone exactly when its price jumps. */
  lemma Partition(zones: seq<Zone>, points: seq<PricePoint>, start: Date, end: Date, group: string, settings: Settings)
    requires points != [] && DistinctDates(points) && Within(points, start, end)
    requires Detected(zones, points, start, end, group, settings)
    ensures Contiguous(zones, start, end) && NonEmpty(zones)
    ensures forall i :: 0 < i < |points| ==>
      ((exists k :: 0 <= k < |zones| && zones[k].start == points[i].pickup) <==> Jumps(points, settings.threshold, i))
  {
    DetectedContiguous(zones, points, start, end, group, settings);
    forall h, i | 0 <= h < i < |points| ensures points[h].pickup < points[i].pickup {
      ByDateAt(points, h, i);
    }
    forall i | Jumps(points, settings.threshold, i) ensures start < points[i].pickup {
      assert start <= points[0].pickup < points[i].pickup;
    }
    NonEmptyIff(zones, points, start, end, group, settings);
    forall i | 0 < i < |points|
      ensures (exists k :: 0 <= k < |zones| && zones[k].start == points[i].pickup) <==>
        Jumps(points, settings.threshold, i)
    {
      OpensAt(zones, points, start, end, group, settings, i);
    }
  }

  lemma OpensAt(zones: seq<Zone>, points: seq<PricePoint>, start: Date, end: Date, group: string, settings: Settings,
                i: nat)
    requires DistinctDates(points) && Within(points, start, end) && 0 < i < |points|
    requires Detected(zones, points, start, end, group, settings)
    ensures (exists k :: 0 <= k < |zones| && zones[k].start == points[i].pickup) <==>
      Jumps(points, settings.threshold, i)
  {
    DetectedContiguous(zones, points, start, end, group, settings);
    if Jumps(points, settings.threshold, i) {
      var k := JumpZone(zones, points, start, end, group, settings, i);
    }
    if k :| 0 <= k < |zones| && zones[k].start == points[i].pickup {
      ByDateAt(points, 0, i);
      assert start <= points[0].pickup;
      ZoneStarts(zones, points, start, end, group, settings, k);
      var m := BoundaryIsJump(points, settings.threshold, |points|, k - 1);
      if m < i { ByDateAt(points, m, i); }
      if i < m { ByDateAt(points, i, m); }
    }
  }

  /** Two cars of one group on the first probe date, for a week each, at different prices. */
  function TwoPrices(d: Date): seq<PricePoint> {
    [PricePoint(d, 7, 10.0, "A"), PricePoint(d, 7, 20.0, "A")]
  }

  lemma TwoPricesJump(d: Date, threshold: real)
    requires threshold < 1.0
    ensures Relevant(TwoPrices(d), "A") == TwoPrices(d) && Jumps(TwoPrices(d), threshold, 1)
  {
    var p, q := TwoPrices(d)[0], TwoPrices(d)[1];
    assert [p, q][1..] == [q] && [q][1..] == [];
    assert Gather([q], OfGroup("A")) == [q];
    assert Gather([p, q], OfGroup("A")) == [p, q];
    assert SortPoints([q]) == [q];
  }

  /** ... open with an empty zone. */
  lemma EmptyZoneExists(d: Date, settings: Settings, zones: seq<Zone>)
    requires settings.threshold < 1.0
    requires Detected(zones, Relevant(TwoPrices(d), "A"), d, d + 7, "A", settings)
    ensures zones[0].start == d && zones[0].end == DayBefore(d)
  {
    TwoPricesJump(d, settings.threshold);
    ZoneEnds(zones, TwoPrices(d), d, d + 7, "A", settings, 0);
    var i := JumpZone(zones, TwoPrices(d), d, d + 7, "A", settings, 1);
    var j := BoundaryIsJump(TwoPrices(d), settings.threshold, 2, 0);
  }

  // ---------------------------------------------------------------- drift inside a zone

  /** ref * factor^k */
  function Grown(ref: real, factor: real, k: nat): real {
    if k == 0 then ref else factor * Grown(ref, factor, k - 1)
  }

  ghost predicate Near(before: real, after: real, h: real) {
    (1.0 - h) * before <= after <= (1.0 + h) * before
  }

  lemma OneStep(before: real, after: real, h: real)
    requires before >= 0.01 && Change(before, after) <= h
    ensures Near(before, after, h)
  {
    var c := Change(before, after);
    assert Abs(after - before) == c * before;
    Scale(before, c, h);
  }

  lemma Scale(k: real, x: real, y: real)
    requires k >= 0.0 && x <= y
    ensures k * x <= k * y
  {
  }

  /** The price band after k steps: from ref * (1 - h)^k to ref * (1 + h)^k. */
  ghost predicate Band(ref: real, price: real, h: real, k: nat) {
    Grown(ref, 1.0 - h, k) <= price <= Grown(ref, 1.0 + h, k)
  }

  /** Compounding: each price stays within (1 - h) and (1 + h) of the one before. */
  lemma {:induction false} Compound(prices: seq<real>, h: real, i: nat, j: nat)
    requires i <= j < |prices| && 0.0 <= h < 1.0
    requires forall m :: i < m <= j ==> Near(prices[m - 1], prices[m], h)
    ensures Band(prices[i], prices[j], h, j - i)
  {
    if i < j {
      Compound(prices, h, i, j - 1);
      BandStep(prices[i], prices[j - 1], prices[j], h, j - 1 - i);
    }
  }

  lemma BandStep(ref: real, before: real, after: real, h: real, k: nat)
    requires Band(ref, before, h, k) && Near(before, after, h) && 0.0 <= h < 1.0
    ensures Band(ref, after, h, k + 1)
  {
    Widened(1.0 - h, 1.0 + h, Grown(ref, 1.0 - h, k), Grown(ref, 1.0 + h, k), before, after);
  }

  lemma Widened(down: real, up: real, low: real, high: real, before: real, after: real)
    requires 0.0 <= down && 0.0 <= up && low <= before <= high && down * before <= after <= up * before
    ensures down * low <= after <= up * high
  {
    Scale(down, low, before);
    Scale(up, before, high);
  }

  lemma {:induction false} DailyAt(points: seq<PricePoint>, i: nat)
    requires DistinctDates(points) && i < |points|
    ensures points[i].pickup in DailyByDate(points) && DailyByDate(points)[points[i].pickup] == Daily(points[i])
  {
    var front := points[..|points| - 1];
    if i < |points| - 1 {
      DailyAt(front, i);
      ByDateAt(points, i, |points| - 1);
    }
  }

  lemma {:induction false} DailyDates(points: seq<PricePoint>, d: Date)
    ensures d in DailyByDate(points) <==> exists i :: 0 <= i < |points| && points[i].pickup == d
  {
    if points != [] {
      DailyDates(points[..|points| - 1], d);
    }
  }

  /** Drift bound: inside one zone, the k-th probe after the first lies between ref * (1 - h)^k and
      ref * (1 + h)^k, where ref is the zone's reference price. */
  lemma DriftBound(zones: seq<Zone>, points: seq<PricePoint>, start: Date, end: Date, group: string, settings: Settings,
                   k: nat, i: nat, j: nat)
    requires points != [] && DistinctDates(points) && Within(points, start, end) && 0.0 <= settings.threshold < 1.0
    requires Detected(zones, points, start, end, group, settings)
    requires forall m :: 0 <= m < |points| ==> Daily(points[m]) >= 0.01
    requires k < |zones| && i <= j < |points|
    requires zones[k].start <= points[i].pickup && points[j].pickup <= zones[k].end
    requires i > 0 ==> points[i - 1].pickup < zones[k].start
    ensures Band(zones[k].price, Daily(points[j]), settings.threshold, j - i)
  {
    ReferenceIsFirstProbe(zones, points, start, end, group, settings, k, i);
    var prices := seq(|points|, m requires 0 <= m < |points| => Daily(points[m]));
    forall m | i < m <= j
      ensures Near(prices[m - 1], prices[m], settings.threshold)
    {
      NoJumpInside(zones, points, start, end, group, settings, k, i, m, j);
      OneStep(prices[m - 1], prices[m], settings.threshold);
    }
    Compound(prices, settings.threshold, i, j);
  }

  lemma NoJumpInside(zones: seq<Zone>, points: seq<PricePoint>, start: Date, end: Date, group: string,
                     settings: Settings, k: nat, i: nat, m: nat, j: nat)
    requires DistinctDates(points) && Within(points, start, end)
    requires Detected(zones, points, start, end, group, settings)
    requires k < |zones| && i < m <= j < |points|
    requires zones[k].start <= points[i].pickup && points[j].pickup <= zones[k].end
    ensures !Jumps(points, settings.threshold, m)
  {
    Partition(zones, points, start, end, group, settings);
    ByDateAt(points, i, m);
    ByDateAt(points, m, j);
    if Jumps(points, settings.threshold, m) {
      var l := JumpZone(zones, points, start, end, group, settings, m);
      if l <= k { ZoneOrder(zones, start, end, l, k); } else { ZoneOrder(zones, start, end, k, l); }
    }
  }

  /** The reference price of a zone is the daily price of its first probe. */
  lemma ReferenceIsFirstProbe(zones: seq<Zone>, points: seq<PricePoint>, start: Date, end: Date, group: string,
                              settings: Settings, k: nat, i: nat)
    requires points != [] && DistinctDates(points)
    requires Detected(zones, points, start, end, group, settings)
    requires k < |zones| && i < |points| && zones[k].start <= points[i].pickup
    requires i > 0 ==> points[i - 1].pickup < zones[k].start
    ensures zones[k].price == Daily(points[i])
  {
    var daily, from := DailyByDate(points), zones[k].start;
    DailyAt(points, i);
    assert points[i].pickup in daily && points[i].pickup >= from;
    var d :| d in daily && d >= from && zones[k].price == daily[d] && forall e :: e in daily && e >= from ==> d <= e;
    DailyDates(points, d);
    var m :| 0 <= m < |points| && points[m].pickup == d;
    if m < i {
      ByDateAt(points, m, i - 1);
      assert false;
    }
    ByDateAt(points, i, m);
    assert d <= points[i].pickup;
  }
}
