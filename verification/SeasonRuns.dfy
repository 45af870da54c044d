/** One scraping run from probe prices to stored calendar, and the calendar over unbounded sequences of
    runs. */
module SeasonRuns {
  import opened Comprehension
  import opened Dates
  import opened Rounding
  import opened SeasonAnalyzer
  import opened SeasonZones
  import opened SeasonCalendar
  import S = ScrapeSession
  import SearchPlan

  // ---------------------------------------------------------------- guide group

  /** Groups in order of first appearance. */
  function GroupOrder(points: seq<PricePoint>): seq<string> {
    if points == [] then []
    else
      var front, g := GroupOrder(points[..|points| - 1]), points[|points| - 1].group;
      if g in front then front else front + [g]
  }

  function DatesOf(points: seq<PricePoint>, g: string): set<Date> {
    set p | p in points && p.group == g :: p.pickup
  }

  function CountOf(points: seq<PricePoint>, g: string): nat {
    |Gather(points, OfGroup(g))|
  }

  /** Seen on more dates, or on as many dates but in more points. */
  predicate Better(points: seq<PricePoint>, g: string, h: string) {
    |DatesOf(points, g)| > |DatesOf(points, h)|
    || (|DatesOf(points, g)| == |DatesOf(points, h)| && CountOf(points, g) > CountOf(points, h))
  }

  /** The first group that no other beats. */
  ghost predicate IsGuide(points: seq<PricePoint>, g: string) {
    exists i :: 0 <= i < |GroupOrder(points)| && GroupOrder(points)[i] == g
      && (forall j :: 0 <= j < i ==> Better(points, g, GroupOrder(points)[j]))
      && (forall j :: 0 <= j < |GroupOrder(points)| ==> !Better(points, GroupOrder(points)[j], g))
  }

  lemma {:induction false} GroupOrderMembers(points: seq<PricePoint>, g: string)
    ensures g in GroupOrder(points) <==> exists p :: p in points && p.group == g
  {
    if points != [] {
      var front, last := points[..|points| - 1], points[|points| - 1];
      GroupOrderMembers(front, g);
      assert points == front + [last];
    }
  }

  /** max(order, key=...): the first group nobody beats. */
  method BestGroup(points: seq<PricePoint>, order: seq<string>) returns (best: nat)
    requires order != []
    ensures best < |order|
    ensures forall j :: 0 <= j < best ==> Better(points, order[best], order[j])
    ensures forall j :: 0 <= j < |order| ==> !Better(points, order[j], order[best])
  {
    best := 0;
    var i := 1;
    while i < |order|
      invariant best < i <= |order|
      invariant forall j :: 0 <= j < best ==> Better(points, order[best], order[j])
      invariant forall j :: 0 <= j < i ==> !Better(points, order[j], order[best])
    {
      if Better(points, order[i], order[best]) {
        best := i;
      }
      i := i + 1;
    }
  }

  /** The guide group is seen on at least as many dates as any other, among those in at least as many points, and
      first among equals. */
  lemma GuideMeaning(points: seq<PricePoint>, g: string, h: string)
    requires IsGuide(points, g) && exists p :: p in points && p.group == h
    ensures var dates, others := set p | p in points && p.group == g :: p.pickup,
                                 set p | p in points && p.group == h :: p.pickup;
      var mine, theirs := set i | 0 <= i < |points| && points[i].group == g,
                          set i | 0 <= i < |points| && points[i].group == h;
      && |others| <= |dates|
      && (|others| == |dates| ==> |theirs| <= |mine|)
      && (|others| == |dates| && |theirs| == |mine| && h != g ==>
            exists i :: 0 <= i < |points| && points[i].group == g && forall j :: 0 <= j <= i ==> points[j].group != h)
  {
    CountMeaning(points, g);
    CountMeaning(points, h);
    GroupOrderMembers(points, h);
    var k :| 0 <= k < |GroupOrder(points)| && GroupOrder(points)[k] == h;
    var i :| 0 <= i < |GroupOrder(points)| && GroupOrder(points)[i] == g
      && (forall j :: 0 <= j < i ==> Better(points, g, GroupOrder(points)[j]))
      && (forall j :: 0 <= j < |GroupOrder(points)| ==> !Better(points, GroupOrder(points)[j], g));
    assert !Better(points, GroupOrder(points)[k], g);
    if |DatesOf(points, h)| == |DatesOf(points, g)| && CountOf(points, h) == CountOf(points, g) && h != g {
      assert !Better(points, g, GroupOrder(points)[k]);
      assert i < k;
      var m := AppearsFirst(points, i, k);
    }
  }

  lemma {:induction false} CountMeaning(points: seq<PricePoint>, g: string)
    ensures CountOf(points, g) == |set i | 0 <= i < |points| && points[i].group == g|
  {
    if points != [] {
      var n := |points| - 1;
      CountMeaning(points[..n], g);
      GatherSnoc(points, n, OfGroup(g));
      assert points[..n + 1] == points;
      OneMore(points[..n], points[n], g);
      assert points[..n] + [points[n]] == points;
    }
  }

  lemma OneMore(front: seq<PricePoint>, last: PricePoint, g: string)
    ensures var points := front + [last];
      |set i | 0 <= i < |points| && points[i].group == g| ==
        |set i | 0 <= i < |front| && front[i].group == g| + if last.group == g then 1 else 0
  {
    var points := front + [last];
    var before, after := set i | 0 <= i < |front| && front[i].group == g,
      set i | 0 <= i < |points| && points[i].group == g;
    assert after == before + if last.group == g then {|front|} else {};
  }

  /** A group earlier in the order appears before any point of a later one. */
  lemma {:induction false} AppearsFirst(points: seq<PricePoint>, i: nat, k: nat) returns (m: nat)
    requires i < k < |GroupOrder(points)|
    ensures m < |points| && points[m].group == GroupOrder(points)[i]
    ensures forall j :: 0 <= j <= m ==> points[j].group != GroupOrder(points)[k]
  {
    var n := |points| - 1;
    var front, g := points[..n], points[n].group;
    if k < |GroupOrder(front)| {
      m := AppearsFirst(front, i, k);
      assert forall j :: 0 <= j <= m ==> front[j] == points[j];
    } else {
      GroupOrderMembers(front, g);
      GroupOrderMembers(front, GroupOrder(points)[i]);
      assert GroupOrder(points)[i] in GroupOrder(front);
      m :| 0 <= m < n && front[m].group == GroupOrder(points)[i];
      forall j | 0 <= j <= m ensures points[j].group != g {
        assert front[j] in front && front[j] == points[j];
      }
    }
  }

  lemma GroupHasPoints(points: seq<PricePoint>, g: string)
    requires g in GroupOrder(points)
    ensures Gather(points, OfGroup(g)) != []
  {
    GroupOrderMembers(points, g);
    var p :| p in points && p.group == g;
    var k :| 0 <= k < |points| && points[k] == p;
    GatherMembers(points, OfGroup(g), p);
  }

  /** _select_guide_group */
  method SelectGuideGroup(points: seq<PricePoint>) returns (guide: Option<string>)
    ensures guide == None <==> points == []
    ensures guide.Some? ==> IsGuide(points, guide.value) && Gather(points, OfGroup(guide.value)) != []
  {
    if points == [] {
      return None;
    }
    var order := GroupOrder(points);
    GroupOrderMembers(points, points[0].group);
    var best := BestGroup(points, order);
    GroupHasPoints(points, order[best]);
    guide := Some(order[best]);
  }

  // ---------------------------------------------------------------- one run

  datatype RunInput = RunInput(
    start: Date, end: Date,
    probe: seq<Option<S.BookingResult>>,   // one position per probe search, empty after an early stop
    rateName: string,                      // the rate that is priced, any rate when empty
    categories: seq<nat>,                  // active vehicle categories at persist time
    classified: bool,                      // classification and category upserts went through
    extracted: bool)                       // the extraction phase went through

  /** A car's one rate is named "default". */
  predicate PricedRate(rateName: string) {
    rateName == "" || rateName == "default"
  }

  function PointOf(pickup: Date): S.Car -> Option<PricePoint> {
    (c: S.Car) => Some(PricePoint(pickup, SearchPlan.PROBE_DAYS, c.total, c.group))
  }

  /** One price point per car of a result. */
  function PointsFor(pickup: Date, r: Option<S.BookingResult>, rateName: string): seq<PricePoint> {
    if r == None || !PricedRate(rateName) then [] else Gather(r.value.cars, PointOf(pickup))
  }

  /** The k-th probe starts k weeks into the window. */
  function PointsUpTo(start: Date, probe: seq<Option<S.BookingResult>>, rateName: string, n: nat): seq<PricePoint>
    requires n <= |probe|
  {
    if n == 0 then []
    else PointsUpTo(start, probe, rateName, n - 1) + PointsFor(start + SearchPlan.PROBE_DAYS * (n - 1), probe[n - 1],
                                                               rateName)
  }

  function Points(input: RunInput): seq<PricePoint> {
    PointsUpTo(input.start, input.probe, input.rateName, |input.probe|)
  }

  function Whole(start: Date, probe: seq<Option<S.BookingResult>>, rateName: string): nat -> seq<PricePoint> {
    (k: nat) => if k <= |probe| then PointsUpTo(start, probe, rateName, k) else []
  }

  function Piece(start: Date, probe: seq<Option<S.BookingResult>>, rateName: string): nat -> seq<PricePoint> {
    (k: nat) => if k < |probe| then PointsFor(start + SearchPlan.PROBE_DAYS * k, probe[k], rateName) else []
  }

  lemma WholeGrows(start: Date, probe: seq<Option<S.BookingResult>>, rateName: string, k: nat)
    requires k < |probe|
    ensures Whole(start, probe, rateName)(k + 1) ==
      Whole(start, probe, rateName)(k) + Piece(start, probe, rateName)(k)
  {
  }

  lemma PointsInPieces(start: Date, probe: seq<Option<S.BookingResult>>, rateName: string, n: nat, p: PricePoint)
    requires n <= |probe|
    ensures p in PointsUpTo(start, probe, rateName, n) <==>
      exists k: nat :: k < n && p in Piece(start, probe, rateName)(k)
  {
    var whole, piece := Whole(start, probe, rateName), Piece(start, probe, rateName);
    forall k: nat | k < n ensures whole(k + 1) == whole(k) + piece(k) { WholeGrows(start, probe, rateName, k); }
    assert whole(0) == [] && whole(n) == PointsUpTo(start, probe, rateName, n);
    ChainMembers(whole, piece, n, p);
  }

  /** The points of a probe: one for every car with the wanted rate, dated by its search. */
  lemma PointsMeaning(start: Date, probe: seq<Option<S.BookingResult>>, rateName: string, n: nat, p: PricePoint)
    requires n <= |probe|
    ensures p in PointsUpTo(start, probe, rateName, n) <==>
      (rateName == "" || rateName == "default") && exists k: nat :: k < n && FoundAt(start, probe, k, p)
  {
    PointsInPieces(start, probe, rateName, n, p);
    if p in PointsUpTo(start, probe, rateName, n) {
      var k: nat :| k < n && p in Piece(start, probe, rateName)(k);
      PointsOfOne(start, probe, rateName, k, p);
    } else if k: nat :| k < n && FoundAt(start, probe, k, p) {
      PointsOfOne(start, probe, rateName, k, p);
      assert p !in Piece(start, probe, rateName)(k);
    }
  }

  lemma PointsOfOne(start: Date, probe: seq<Option<S.BookingResult>>, rateName: string, k: nat, p: PricePoint)
    requires k < |probe|
    ensures p in Piece(start, probe, rateName)(k) <==>
      (rateName == "" || rateName == "default") && FoundAt(start, probe, k, p)
  {
    var pickup, r := start + SearchPlan.PROBE_DAYS * k, probe[k];
    if r.Some? && PricedRate(rateName) {
      GatherMembers(r.value.cars, PointOf(pickup), p);
      if p in PointsFor(pickup, r, rateName) {
        var i :| 0 <= i < |r.value.cars| && PointOf(pickup)(r.value.cars[i]) == Some(p);
        assert PointAt(start, probe, k, r.value.cars[i], p);
      }
      if c :| PointAt(start, probe, k, c, p) {
        var i :| 0 <= i < |r.value.cars| && r.value.cars[i] == c;
        assert PointOf(pickup)(r.value.cars[i]) == Some(p);
      }
    }
  }

  ghost predicate FoundAt(start: Date, probe: seq<Option<S.BookingResult>>, k: nat, p: PricePoint) {
    exists c :: PointAt(start, probe, k, c, p)
  }

  /** The car was found by the k-th probe, a week's rental from that date, at the point's price. */
  ghost predicate PointAt(start: Date, probe: seq<Option<S.BookingResult>>, k: nat, c: S.Car, p: PricePoint) {
    && k < |probe| && probe[k].Some? && c in probe[k].value.cars
    && p.pickup == start + 7 * k && p.duration == 7 && p.total == c.total && p.group == c.group
  }

  /** The position of the first search that was not executed. */
  function Executed(probe: seq<Option<S.BookingResult>>): (n: nat)
    ensures n <= |probe| && (forall i :: 0 <= i < n ==> probe[i].Some?) && (n < |probe| ==> probe[n] == None)
  {
    if probe == [] || probe[0] == None then 0 else 1 + Executed(probe[1..])
  }

  predicate Truncated(input: RunInput) {
    Executed(input.probe) < |input.probe|
  }

  /** The probe stopped early exactly when some search has no result. */
  lemma TruncatedIff(input: RunInput)
    ensures Truncated(input) <==> exists i :: 0 <= i < |input.probe| && input.probe[i] == None
  {
  }

  predicate ErroredResult(r: Option<S.BookingResult>) {
    r.Some? && r.value.errors != []
  }

  /** PricePointExtractor.extract over the probe searches and their results. */
  method ExtractPoints(pickups: seq<Date>, input: RunInput) returns (points: seq<PricePoint>)
    requires |pickups| == |input.probe| && forall k :: 0 <= k < |pickups| ==>
      pickups[k] == input.start + SearchPlan.PROBE_DAYS * k
    ensures points == Points(input)
  {
    points := [];
    var i := 0;
    while i < |pickups|
      invariant 0 <= i <= |pickups|
      invariant points == PointsUpTo(input.start, input.probe, input.rateName, i)
    {
      points := points + PointsFor(pickups[i], input.probe[i], input.rateName);
      i := i + 1;
    }
  }

  /** A probe that failed to scrape: no executed search brought a priced car, and some search errored. */
  ghost predicate ProbeBroken(input: RunInput) {
    && (PricedRate(input.rateName) ==> Carless(input.probe, |input.probe|))
    && exists i :: 0 <= i < |input.probe| && input.probe[i].Some? && input.probe[i].value.errors != []
  }

  /** None of the first n probes brought a car. */
  ghost predicate Carless(probe: seq<Option<S.BookingResult>>, n: nat)
    requires n <= |probe|
  {
    forall i :: 0 <= i < n && probe[i].Some? ==> probe[i].value.cars == []
  }

  lemma NoPointsFor(pickup: Date, r: Option<S.BookingResult>, rateName: string)
    ensures PointsFor(pickup, r, rateName) == [] <==> (PricedRate(rateName) && r.Some? ==> r.value.cars == [])
  {
    if r.Some? && r.value.cars != [] {
      assert PointOf(pickup)(r.value.cars[0]).Some?;
    }
  }

  lemma {:induction false} NoPointsIff(start: Date, probe: seq<Option<S.BookingResult>>, rateName: string, n: nat)
    requires n <= |probe|
    ensures PointsUpTo(start, probe, rateName, n) == [] <==> (PricedRate(rateName) ==> Carless(probe, n))
  {
    if n > 0 {
      NoPointsIff(start, probe, rateName, n - 1);
      NoPointsFor(start + SearchPlan.PROBE_DAYS * (n - 1), probe[n - 1], rateName);
      CarlessStep(probe, n);
      NothingAdded(PointsUpTo(start, probe, rateName, n - 1),
                   PointsFor(start + SearchPlan.PROBE_DAYS * (n - 1), probe[n - 1], rateName));
    }
  }

  lemma CarlessStep(probe: seq<Option<S.BookingResult>>, n: nat)
    requires 0 < n <= |probe|
    ensures Carless(probe, n) <==> Carless(probe, n - 1) && (probe[n - 1].Some? ==> probe[n - 1].value.cars == [])
  {
  }

  lemma NothingAdded(a: seq<PricePoint>, b: seq<PricePoint>)
    ensures a + b == [] <==> a == [] && b == []
  {
  }

  method LatestPickup(points: seq<PricePoint>) returns (latest: Date)
    requires points != []
    ensures latest in PickupDates(points) && forall i :: 0 <= i < |points| ==> points[i].pickup <= latest
  {
    latest := points[0].pickup;
    var i := 1;
    while i < |points|
      invariant 1 <= i <= |points|
      invariant latest in PickupDates(points) && forall j :: 0 <= j < i ==> points[j].pickup <= latest
    {
      if points[i].pickup > latest {
        latest := points[i].pickup;
      }
      i := i + 1;
    }
  }

  /** The last day zones are detected for: the last priced probe when the probe was cut short. */
  ghost predicate IsEffectiveEnd(input: RunInput, e: Date) {
    if Truncated(input) && Points(input) != [] then e in PickupDates(Points(input)) && forall i ::
      0 <= i < |Points(input)| ==> Points(input)[i].pickup <= e
    else e == input.end
  }

  /** Zones detected up to day e: for the guide group, or for the provider when there are no points. */
  ghost predicate RawZones(raw: seq<Zone>, input: RunInput, settings: Settings, e: Date) {
    if Points(input) == [] then Detected(raw, [], input.start, e, "", settings)
    else exists g :: IsGuide(Points(input), g) && Detected(raw, Relevant(Points(input), g), input.start, e, g, settings)
  }

  ghost predicate AllReassigned(raw: seq<Zone>, points: seq<PricePoint>, zones: seq<Zone>) {
    |raw| == |zones| && forall k :: 0 <= k < |zones| ==> Reassigned(raw[k], points, zones[k])
  }

  /** The zones a run hands to persistence: detected, with representatives reassigned. */
  ghost predicate RunZones(zones: seq<Zone>, input: RunInput, settings: Settings) {
    exists e: Date, raw: seq<Zone> :: IsEffectiveEnd(input, e) && RawZones(raw, input, settings, e) &&
      AllReassigned(raw, Points(input), zones)
  }

  lemma RawShape(raw: seq<Zone>, input: RunInput, settings: Settings, e: Date)
    requires RawZones(raw, input, settings, e)
    ensures raw != [] && raw[0].start == input.start
    ensures forall k :: 0 < k < |raw| ==> raw[k].start == raw[k - 1].end + 1
  {
    if Points(input) == [] {
      DetectedContiguous(raw, [], input.start, e, "", settings);
    } else {
      var g :| IsGuide(Points(input), g) && Detected(raw, Relevant(Points(input), g), input.start, e, g, settings);
      DetectedContiguous(raw, Relevant(Points(input), g), input.start, e, g, settings);
    }
  }

  lemma RunZonesShape(zones: seq<Zone>, input: RunInput, settings: Settings)
    requires RunZones(zones, input, settings)
    ensures zones != [] && zones[0].start == input.start
    ensures forall k :: 0 < k < |zones| ==> zones[k].start == zones[k - 1].end + 1
  {
    var e: Date, raw: seq<Zone> :| IsEffectiveEnd(input, e) && RawZones(raw, input, settings, e) &&
      AllReassigned(raw, Points(input), zones);
    RawShape(raw, input, settings, e);
    forall k | 0 <= k < |zones| ensures zones[k].start == raw[k].start && zones[k].end == raw[k].end {
      ReassignedKeeps(raw[k], Points(input), zones[k]);
    }
  }

  method AnalyzeProbe(input: RunInput, points: seq<PricePoint>, settings: Settings) returns (zones: seq<Zone>)
    requires points == Points(input)
    ensures RunZones(zones, input, settings)
  {
    var effectiveEnd := input.end;
    if Truncated(input) && points != [] {
      effectiveEnd := LatestPickup(points);
    }
    var guide := SelectGuideGroup(points);
    var raw;
    if guide == None {
      raw := DetectZonesProviderLevel(points, input.start, effectiveEnd, settings);
    } else {
      raw := DetectZones(points, input.start, effectiveEnd, guide.value, settings);
    }
    assert IsEffectiveEnd(input, effectiveEnd) && RawZones(raw, input, settings, effectiveEnd);
    zones := ReassignRepresentatives(raw, points);
    assert AllReassigned(raw, Points(input), zones);
  }

  // ---------------------------------------------------------------- which probes the table accepts

  /** The first row, from its detected zone: accepted when the zone is not empty, or when an earlier start and a
      middle representative rescue an empty zone. */
  lemma FirstRowIff(raw: Zone, points: seq<PricePoint>, r: Zone, pick: Pick, from: Date)
    requires Reassigned(raw, points, r) && raw.rep == PickRep(raw.start, raw.end, pick) && from <= raw.start
    ensures RowOk(r.(start := from)) <==>
      raw.start <= raw.end || (from < raw.start && pick == Middle && raw.end == raw.start - 1)
  {
    ReassignedKeeps(raw, points, r);
  }

  lemma LaterRowIff(raw: Zone, points: seq<PricePoint>, r: Zone, pick: Pick)
    requires Reassigned(raw, points, r) && raw.rep == PickRep(raw.start, raw.end, pick)
    ensures RowOk(r) <==> raw.start <= raw.end
  {
    ReassignedKeeps(raw, points, r);
  }

  /** Representatives as the detector picks them. */
  ghost predicate Picked(raw: seq<Zone>, pick: Pick) {
    forall k :: 0 <= k < |raw| ==> raw[k].rep == PickRep(raw[k].start, raw[k].end, pick)
  }

  lemma StoredRow(zones: seq<Zone>, lead: Option<Lead>, threshold: real, k: nat)
    requires k < |zones|
    ensures |Stored(CarryForward(zones, lead, threshold))| == |zones|
    ensures RowOk(Stored(CarryForward(zones, lead, threshold))[k]) <==>
      RowOk(if k == 0 && Carries(zones, lead, threshold) then zones[0].(start := lead.value.start) else zones[k])
  {
  }

  lemma StoredRowsIff(raw: seq<Zone>, points: seq<PricePoint>, zones: seq<Zone>, pick: Pick, lead: Option<Lead>,
                      threshold: real)
    requires raw != [] && Picked(raw, pick) && AllReassigned(raw, points, zones)
    ensures RowsOk(Stored(CarryForward(zones, lead, threshold))) <==>
      TailNonEmpty(raw) && (raw[0].start <= raw[0].end ||
        (Carries(zones, lead, threshold) && pick == Middle && raw[0].end == raw[0].start - 1))
  {
    var rows := Stored(CarryForward(zones, lead, threshold));
    forall k | 0 < k < |raw| ensures RowOk(rows[k]) <==> raw[k].start <= raw[k].end {
      StoredRow(zones, lead, threshold, k);
      LaterRowIff(raw[k], points, zones[k], pick);
    }
    StoredRow(zones, lead, threshold, 0);
    ReassignedKeeps(raw[0], points, zones[0]);
    FirstRowIff(raw[0], points, zones[0], pick,
                if Carries(zones, lead, threshold) then lead.value.start else raw[0].start);
  }

  /** What the CHECK constraints ask of the points that zones are detected from: at most one jump per date, and
      none on the first day, unless the leading season is carried forward over an empty first zone, which a
      middle representative allows. Without points, a period that is not empty. */
  ghost predicate Storable(points: seq<PricePoint>, start: Date, end: Date, settings: Settings, carried: bool) {
    if points == [] then start <= end || (carried && settings.pick == Middle && end == start - 1)
    else
      && SeparateJumps(points, settings.threshold)
      && (NoFirstJump(points, settings.threshold, start) || (carried && settings.pick == Middle))
  }

  lemma StoredIff(raw: seq<Zone>, points: seq<PricePoint>, start: Date, end: Date, group: string, settings: Settings,
                  all: seq<PricePoint>, zones: seq<Zone>, lead: Option<Lead>, threshold: real)
    requires Detected(raw, points, start, end, group, settings) && Within(points, start, end)
    requires AllReassigned(raw, all, zones)
    ensures RowsOk(Stored(CarryForward(zones, lead, threshold))) <==>
      Storable(points, start, end, settings, Carries(zones, lead, threshold))
  {
    DetectedContiguous(raw, points, start, end, group, settings);
    assert Picked(raw, settings.pick);
    StoredRowsIff(raw, all, zones, settings.pick, lead, threshold);
    if points != [] {
      TailNonEmptyIff(raw, points, start, end, group, settings);
      if SeparateJumps(points, settings.threshold) {
        FirstNonEmptyIff(raw, points, start, end, group, settings);
      }
    }
  }

  /** One result per probe search. */
  predicate Planned(input: RunInput) {
    |input.probe| == if input.start <= input.end then (input.end - input.start) / SearchPlan.PROBE_DAYS else 0
  }

  lemma PointsForDate(pickup: Date, r: Option<S.BookingResult>, rateName: string)
    ensures forall p :: p in PointsFor(pickup, r, rateName) ==> p.pickup == pickup
  {
    forall p | p in PointsFor(pickup, r, rateName) ensures p.pickup == pickup {
      GatherMembers(r.value.cars, PointOf(pickup), p);
    }
  }

  lemma {:induction false} PointsFrom(start: Date, probe: seq<Option<S.BookingResult>>, rateName: string, n: nat)
    requires n <= |probe|
    ensures forall p :: p in PointsUpTo(start, probe, rateName, n) ==>
      start <= p.pickup <= start + SearchPlan.PROBE_DAYS * n - SearchPlan.PROBE_DAYS
  {
    if n > 0 {
      PointsFrom(start, probe, rateName, n - 1);
      PointsForDate(start + SearchPlan.PROBE_DAYS * (n - 1), probe[n - 1], rateName);
    }
  }

  lemma PointsWithin(input: RunInput, e: Date)
    requires Planned(input) && IsEffectiveEnd(input, e)
    ensures Within(Points(input), input.start, e)
  {
    PointsFrom(input.start, input.probe, input.rateName, |input.probe|);
    forall i | 0 <= i < |Points(input)| ensures input.start <= Points(input)[i].pickup <= e {
      assert Points(input)[i] in Points(input);
    }
  }

  lemma RelevantWithin(points: seq<PricePoint>, g: string, start: Date, end: Date)
    requires Within(points, start, end)
    ensures Within(Relevant(points, g), start, end)
  {
    SortPointsSorts(Gather(points, OfGroup(g)));
    forall i | 0 <= i < |Relevant(points, g)| ensures start <= Relevant(points, g)[i].pickup <= end {
      assert Relevant(points, g)[i] in multiset(Relevant(points, g));
      GatherMembers(points, OfGroup(g), Relevant(points, g)[i]);
    }
  }

  lemma GuideIsUnique(points: seq<PricePoint>, g: string, h: string)
    requires IsGuide(points, g) && IsGuide(points, h)
    ensures g == h
  {
  }

  lemma GuideIsPriced(points: seq<PricePoint>, g: string)
    requires IsGuide(points, g)
    ensures Relevant(points, g) != []
  {
    GroupHasPoints(points, g);
  }

  /** The probe of a run passes the CHECK constraints. */
  ghost predicate ProbeStorable(input: RunInput, settings: Settings, carried: bool) {
    if Points(input) == [] then Storable([], input.start, input.end, settings, carried)
    else exists g ::
      IsGuide(Points(input), g) &&
        Storable(Relevant(Points(input), g), input.start, input.end, settings, carried)
  }

  /** Exactly which probes leave zones that the table accepts. */
  lemma ProbeStoredIff(input: RunInput, settings: Settings, zones: seq<Zone>, lead: Option<Lead>, threshold: real)
    requires Planned(input) && RunZones(zones, input, settings)
    ensures RowsOk(Stored(CarryForward(zones, lead, threshold))) <==>
      ProbeStorable(input, settings, Carries(zones, lead, threshold))
  {
    var e: Date, raw: seq<Zone> :| IsEffectiveEnd(input, e) && RawZones(raw, input, settings, e) &&
      AllReassigned(raw, Points(input), zones);
    PointsWithin(input, e);
    if Points(input) == [] {
      StoredIff(raw, [], input.start, e, "", settings, [], zones, lead, threshold);
    } else {
      var g :| IsGuide(Points(input), g) && Detected(raw, Relevant(Points(input), g), input.start, e, g, settings);
      RelevantWithin(Points(input), g, input.start, e);
      StoredIff(raw, Relevant(Points(input), g), input.start, e, g, settings, Points(input), zones, lead, threshold);
      GuideIsPriced(Points(input), g);
      forall h | IsGuide(Points(input), h) ensures h == g { GuideIsUnique(Points(input), g, h); }
    }
  }

  /** One probe that found two cars of one group at different prices. */
  function TwoPriceProbe(d: Date): RunInput {
    RunInput(d, d + SearchPlan.PROBE_DAYS,
      [Some(S.BookingResult("p", [S.Car("m", "A", 10.0, 1.0), S.Car("m", "A", 20.0, 2.0)], [], false))], "",
      [1], true, true)
  }

  /** Such a run is rejected, unless an earlier start is carried forward and representatives lie in the middle. */
  lemma TwoPricesRejected(d: Date, settings: Settings, carried: bool)
    requires settings.threshold < 1.0
    ensures Planned(TwoPriceProbe(d)) && Persists(TwoPriceProbe(d)) && Points(TwoPriceProbe(d)) == TwoPrices(d)
    ensures ProbeStorable(TwoPriceProbe(d), settings, carried) <==> carried && settings.pick == Middle
  {
    TwoPricesRead(d);
    assert !Carless(TwoPriceProbe(d).probe, 1) by {
      assert TwoPriceProbe(d).probe[0].value.cars != [];
    }
    TwoPricesJump(d, settings.threshold);
    GuideOfTwoPrices(d);
  }

  lemma TwoPricesRead(d: Date)
    ensures Points(TwoPriceProbe(d)) == TwoPrices(d)
  {
    var probe := TwoPriceProbe(d).probe;
    var cars := probe[0].value.cars;
    assert cars[1..] == [cars[1]] && cars[1..][1..] == [];
    assert Gather(cars[1..], PointOf(d)) == [TwoPrices(d)[1]];
    assert Gather(cars, PointOf(d)) == TwoPrices(d);
    assert PointsUpTo(d, probe, "", 1) == PointsUpTo(d, probe, "", 0) + TwoPrices(d);
  }

  lemma GuideOfTwoPrices(d: Date)
    ensures forall g :: IsGuide(TwoPrices(d), g) <==> g == "A"
  {
    var points := TwoPrices(d);
    assert points[..1] == [points[0]] && points[..1][..0] == [];
    assert GroupOrder(points[..1]) == ["A"];
    assert GroupOrder(points) == ["A"];
  }

  /** Representative dates of the zones; day numbers below zero do not exist. */
  function RepDates(zones: seq<Zone>): set<Date> {
    set z | z in zones && z.rep >= 0 :: z.rep
  }

  /** The extraction plan covers exactly the representatives and the durations that end in time. */
  ghost predicate IsPlan(plan: seq<SearchPlan.Extraction>, zones: seq<Zone>, durations: seq<int>, end: Date) {
    && SearchPlan.Increasing(plan)
    && forall e :: e in plan <==> e.pickup in RepDates(zones) && e.days in durations && e.pickup + e.days <= end
  }

  /** The run comes as far as writing its calendar. */
  ghost predicate Persists(input: RunInput) {
    !ProbeBroken(input) && input.classified
  }

  /** The run writes its calendar: there are categories, and the table accepts the zones. */
  ghost predicate Writes(input: RunInput, settings: Settings, threshold: real, zones: seq<Zone>, lead: Option<Lead>) {
    && Persists(input) && input.categories != []
    && ProbeStorable(input, settings, Carries(zones, lead, threshold))
  }

  /** What a run does to the stored calendar. */
  ghost predicate Effect(before: Active, after: Active, input: RunInput, settings: Settings, threshold: real,
                         zones: seq<Zone>, lead: Option<Lead>)
  {
    && (Persists(input) ==> RunZones(zones, input, settings) && IsLead(before, lead))
    && after == if Writes(input, settings, threshold, zones, lead)
         then Written(before, input.categories, Stored(CarryForward(zones, lead, threshold))) else before
  }

  /** Price points of the probe, and the guard against a probe that failed to scrape. */
  method ReadProbe(input: RunInput) returns (points: seq<PricePoint>, broken: bool)
    requires Planned(input)
    ensures points == Points(input) && (broken <==> ProbeBroken(input))
  {
    var pickups := SearchPlan.BuildProbeSearches(input.start, input.end);
    points := ExtractPoints(pickups, input);
    NoPointsIff(input.start, input.probe, input.rateName, |input.probe|);
    broken := points == [] && exists i :: 0 <= i < |input.probe| && ErroredResult(input.probe[i]);
  }

  /** run: probe analysis, guard, classification, persistence, extraction; any failure aborts. */
  method Run(calendar: Calendar, input: RunInput, settings: Settings, threshold: real, durations: seq<int>)
    returns (r: Result<nat, Failure>, plan: seq<SearchPlan.Extraction>, ghost zones: seq<Zone>,
             ghost lead: Option<Lead>)
    requires Planned(input)
    modifies calendar
    ensures Effect(old(calendar.active), calendar.active, input, settings, threshold, zones, lead)
    ensures r == Err(EmptyProbe) <==> ProbeBroken(input)
    ensures r == Err(ClassificationFailed) <==> !ProbeBroken(input) && !input.classified
    ensures r == Err(ConstraintViolated) <==>
      Persists(input) && input.categories != [] &&
        !ProbeStorable(input, settings, Carries(zones, lead, threshold))
    ensures r.Ok? || r.error == ExtractionFailed ==>
      (r.Ok? <==> input.extracted) && IsPlan(plan, zones, durations, input.end)
  {
    zones, lead, plan := [], None, [];
    var points, broken := ReadProbe(input);
    if broken {
      return Err(EmptyProbe), [], zones, lead;
    }
    var found := AnalyzeProbe(input, points, settings);
    zones := found;
    if !input.classified {
      return Err(ClassificationFailed), [], zones, lead;
    }
    var persisted;
    persisted, lead := calendar.PersistZones(found, input.categories, threshold);
    ProbeStoredIff(input, settings, zones, lead, threshold);
    if persisted.Err? {
      return Err(persisted.error), [], zones, lead;
    }
    plan := SearchPlan.BuildShortSearches(RepDates(found), durations, input.end);
    if !input.extracted {
      return Err(ExtractionFailed), plan, zones, lead;
    }
    r := persisted;
  }

  /** Every stored zone is answerable: each duration that still ends in the period has exactly one
      extraction search at the zone's stored representative. */
  lemma EveryZoneAnswerable(zones: seq<Zone>, lead: Option<Lead>, threshold: real, plan: seq<SearchPlan.Extraction>,
                            durations: seq<int>, end: Date, k: nat, d: int) returns (i: nat)
    requires IsPlan(plan, zones, durations, end)
    requires RowsOk(Stored(CarryForward(zones, lead, threshold))) && k < |zones|
    requires d in durations && Stored(CarryForward(zones, lead, threshold))[k].rep + d <= end
    ensures var rows := Stored(CarryForward(zones, lead, threshold));
      && i < |plan| && plan[i].pickup == rows[k].rep && plan[i].days == d
      && forall j :: 0 <= j < |plan| && plan[j].pickup == rows[k].rep && plan[j].days == d ==> j == i
  {
    var rows := Stored(CarryForward(zones, lead, threshold));
    assert RowOk(rows[k]) && rows[k].rep == zones[k].rep;
    assert zones[k] in zones && zones[k].rep in RepDates(zones);
    var e := SearchPlan.Extraction(rows[k].rep, d);
    assert e in plan;
    i :| 0 <= i < |plan| && plan[i] == e;
    forall j | 0 <= j < |plan| && plan[j].pickup == rows[k].rep && plan[j].days == d ensures j == i {
      assert plan[j] == e;
      SearchPlan.PlannedOnce(plan, i, j);
    }
  }

  // ---------------------------------------------------------------- histories

  /** What a run did to the calendar: nothing (aborted, or no active category), or written zones. */
  datatype Step = Skipped | Wrote(zones: seq<Zone>, categories: seq<nat>)

  /** Contiguous zones, written for some categories. */
  ghost predicate StepZonesOk(step: Step)
    requires step.Wrote?
  {
    && step.zones != [] && step.categories != []
    && forall k :: 0 < k < |step.zones| ==> step.zones[k].start == step.zones[k - 1].end + 1
  }

  /** Every category that has zones is still active. */
  ghost predicate Steady(before: Active, step: Step) {
    step.Wrote? ==> forall c :: c in before ==> c in step.categories
  }

  ghost predicate StepOk(before: Active, after: Active, step: Step, threshold: real) {
    match step
    case Skipped => after == before
    case Wrote(zones, categories) =>
      && StepZonesOk(step)
      && exists lead :: IsLead(before, lead)
           && RowsOk(Stored(CarryForward(zones, lead, threshold)))
           && after == Written(before, categories, Stored(CarryForward(zones, lead, threshold)))
  }

  /** A history from the empty calendar; categories come and go. */
  ghost predicate AnyHistory(states: seq<Active>, steps: seq<Step>, threshold: real) {
    && |states| == |steps| + 1 && states[0] == map[]
    && forall i :: 0 <= i < |steps| ==> StepOk(states[i], states[i + 1], steps[i], threshold)
  }

  /** A history in which a category that has zones stays active. */
  ghost predicate History(states: seq<Active>, steps: seq<Step>, threshold: real) {
    && AnyHistory(states, steps, threshold)
    && forall i :: 0 <= i < |steps| ==> Steady(states[i], steps[i])
  }

  /** A sequence of runs on the empty calendar, whatever they probe and whichever categories are active. */
  ghost predicate RunHistory(states: seq<Active>, inputs: seq<RunInput>, settings: Settings, threshold: real) {
    && |states| == |inputs| + 1 && states[0] == map[]
    && forall i :: 0 <= i < |inputs| ==> IsRun(states[i], states[i + 1], inputs[i], settings, threshold)
  }

  ghost predicate IsRun(before: Active, after: Active, input: RunInput, settings: Settings, threshold: real) {
    Planned(input) && exists zones, lead :: Effect(before, after, input, settings, threshold, zones, lead)
  }

  /** A run is a step, which writes exactly when the criterion holds. */
  lemma RunIsStep(before: Active, after: Active, input: RunInput, settings: Settings, threshold: real, zones: seq<Zone>,
                  lead: Option<Lead>) returns (step: Step)
    requires Planned(input) && Effect(before, after, input, settings, threshold, zones, lead)
    ensures StepOk(before, after, step, threshold)
    ensures step == if Writes(input, settings, threshold, zones, lead) then Wrote(zones, input.categories) else Skipped
    ensures step.Wrote? ==> zones != [] && zones[0].start == input.start
  {
    step := Skipped;
    if Writes(input, settings, threshold, zones, lead) {
      step := Wrote(zones, input.categories);
      RunZonesShape(zones, input, settings);
      ProbeStoredIff(input, settings, zones, lead, threshold);
    }
  }

  lemma {:induction false} RunsAreSteps(states: seq<Active>, inputs: seq<RunInput>, settings: Settings,
                                        threshold: real, n: nat)
    returns (steps: seq<Step>)
    requires RunHistory(states, inputs, settings, threshold) && n <= |inputs|
    ensures |steps| == n && forall i :: 0 <= i < n ==> StepOk(states[i], states[i + 1], steps[i], threshold)
  {
    steps := [];
    if n > 0 {
      var front := RunsAreSteps(states, inputs, settings, threshold, n - 1);
      assert IsRun(states[n - 1], states[n], inputs[n - 1], settings, threshold);
      var zones, lead :| Effect(states[n - 1], states[n], inputs[n - 1], settings, threshold, zones, lead);
      var last := RunIsStep(states[n - 1], states[n], inputs[n - 1], settings, threshold, zones, lead);
      steps := front + [last];
    }
  }

  /** After any runs, every stored calendar is ordered, contiguous and non-empty, with its representatives
      inside their zones. */
  lemma StoredCalendarsGood(states: seq<Active>, inputs: seq<RunInput>, settings: Settings, threshold: real, n: nat)
    requires RunHistory(states, inputs, settings, threshold) && n <= |inputs|
    ensures forall c :: c in states[n] ==> GoodCalendar(states[n][c])
  {
    var steps := RunsAreSteps(states, inputs, settings, threshold, |inputs|);
    StepsKeepGood(states, steps, threshold, n);
  }

  lemma {:induction false} StepsKeepGood(states: seq<Active>, steps: seq<Step>, threshold: real, n: nat)
    requires AnyHistory(states, steps, threshold) && n <= |steps|
    ensures forall c :: c in states[n] ==> GoodCalendar(states[n][c])
  {
    if n > 0 {
      StepsKeepGood(states, steps, threshold, n - 1);
      assert StepOk(states[n - 1], states[n], steps[n - 1], threshold);
      if steps[n - 1].Wrote? {
        WriteKeepsGood(states[n - 1], states[n], steps[n - 1], threshold);
      }
    }
  }

  lemma WriteKeepsGood(before: Active, after: Active, step: Step, threshold: real)
    requires StepOk(before, after, step, threshold) && step.Wrote?
    requires forall c :: c in before ==> GoodCalendar(before[c])
    ensures forall c :: c in after ==> GoodCalendar(after[c])
  {
    var lead :| IsLead(before, lead) && RowsOk(Stored(CarryForward(step.zones, lead, threshold)))
      && after == Written(before, step.categories, Stored(CarryForward(step.zones, lead, threshold)));
    CarriedIsGood(step.zones, lead, threshold);
  }

  /** The last of the first n steps that wrote. */
  function LastWritten(steps: seq<Step>, n: nat): Option<nat>
    requires n <= |steps|
    ensures LastWritten(steps, n).Some? ==> LastWritten(steps, n).value < n && steps[LastWritten(steps, n).value].Wrote?
  {
    if n == 0 then None else if steps[n - 1].Wrote? then Some(n - 1) else LastWritten(steps, n - 1)
  }

  ghost predicate WellFormed(steps: seq<Step>) {
    forall i :: 0 <= i < |steps| && steps[i].Wrote? ==> steps[i].zones != []
  }

  /** A written run whose leading price is not continuous with the previously stored one. */
  ghost predicate Breaks(steps: seq<Step>, k: nat, threshold: real)
    requires WellFormed(steps) && k < |steps|
  {
    steps[k].Wrote? &&
    match LastWritten(steps, k)
    case None => true
    case Some(j) => Change(Cents(steps[j].zones[0].price), steps[k].zones[0].price) > threshold
  }

  /** Earliest window start among the written runs since the last price break. */
  ghost function SeasonStart(steps: seq<Step>, n: nat, threshold: real): (s: Option<Date>)
    requires WellFormed(steps) && n <= |steps|
    ensures s.Some? <==> LastWritten(steps, n).Some?
  {
    if n == 0 then None
    else if steps[n - 1] == Skipped then SeasonStart(steps, n - 1, threshold)
    else
      var start := steps[n - 1].zones[0].start;
      if Breaks(steps, n - 1, threshold) then Some(start)
      else
        var earlier := SeasonStart(steps, n - 1, threshold).value;
        Some(if earlier < start then earlier else start)
  }

  /** The stored calendar after n runs: shared by all categories, well-formed, led by the season start
      and by the last written price. */
  ghost predicate Describes(zones: seq<Zone>, steps: seq<Step>, n: nat, threshold: real)
    requires WellFormed(steps) && n <= |steps| && LastWritten(steps, n).Some?
  {
    && GoodCalendar(zones)
    && zones[0].start == SeasonStart(steps, n, threshold).value
    && zones[0].price == Cents(steps[LastWritten(steps, n).value].zones[0].price)
  }

  ghost predicate Summary(active: Active, steps: seq<Step>, n: nat, threshold: real)
    requires WellFormed(steps) && n <= |steps|
  {
    if LastWritten(steps, n) == None then active == map[]
    else active != map[] && exists zones :: Shared(active, zones) && Describes(zones, steps, n, threshold)
  }

  lemma SharedLead(active: Active, zones: seq<Zone>, lead: Option<Lead>)
    requires Shared(active, zones) && GoodCalendar(zones) && active != map[] && IsLead(active, lead)
    ensures lead == Some(LeadOf(zones))
  {
    var c :| c in active;
    assert HasRow(active, c, 0);
    var b: nat, k: nat :| HasRow(active, b, k) && active[b][k].start == lead.value.start &&
      lead.value.price == Some(active[b][k].price);
    StartsAscend(zones, 0, k);
  }

  lemma {:induction false} StartsAscend(zones: seq<Zone>, j: nat, k: nat)
    requires GoodCalendar(zones) && j <= k < |zones|
    ensures zones[j].start <= zones[k].start && (j < k ==> zones[j].start < zones[k].start)
  {
    if j < k {
      StartsAscend(zones, j, k - 1);
      assert RowOk(zones[k - 1]);
    }
  }

  lemma CarriedIsGood(zones: seq<Zone>, lead: Option<Lead>, threshold: real)
    requires zones != [] && RowsOk(Stored(CarryForward(zones, lead, threshold)))
    requires forall k :: 0 < k < |zones| ==> zones[k].start == zones[k - 1].end + 1
    ensures GoodCalendar(Stored(CarryForward(zones, lead, threshold)))
  {
    var rows := Stored(CarryForward(zones, lead, threshold));
    forall k | 0 < k < |rows| ensures rows[k].start == rows[k - 1].end + 1 {
      assert rows[k].start == zones[k].start && rows[k - 1].end == zones[k - 1].end;
    }
  }

  /** Over every history: the stored calendar is well-formed and shared, and its leading start is the
      earliest window start since the last price break. */
  lemma {:induction false} CalendarOverHistory(states: seq<Active>, steps: seq<Step>, threshold: real, n: nat)
    requires History(states, steps, threshold) && WellFormed(steps) && n <= |steps|
    ensures Summary(states[n], steps, n, threshold)
  {
    if n > 0 {
      CalendarOverHistory(states, steps, threshold, n - 1);
      assert StepOk(states[n - 1], states[n], steps[n - 1], threshold);
      if steps[n - 1].Wrote? {
        WrittenStep(states[n - 1], states[n], steps, threshold, n);
      }
    }
  }

  lemma WrittenStep(before: Active, after: Active, steps: seq<Step>, threshold: real, n: nat)
    requires WellFormed(steps) && 0 < n <= |steps| && steps[n - 1].Wrote? && Steady(before, steps[n - 1])
    requires StepOk(before, after, steps[n - 1], threshold) && Summary(before, steps, n - 1, threshold)
    ensures Summary(after, steps, n, threshold)
  {
    var zones, categories := steps[n - 1].zones, steps[n - 1].categories;
    var lead :| IsLead(before, lead) && RowsOk(Stored(CarryForward(zones, lead, threshold)))
      && after == Written(before, categories, Stored(CarryForward(zones, lead, threshold)));
    CarriedStep(before, steps, threshold, n, lead);
  }

  lemma CarriedStep(before: Active, steps: seq<Step>, threshold: real, n: nat, lead: Option<Lead>)
    requires WellFormed(steps) && 0 < n <= |steps| && steps[n - 1].Wrote?
    requires StepZonesOk(steps[n - 1]) && Steady(before, steps[n - 1]) && Summary(before, steps, n - 1, threshold)
    requires IsLead(before, lead)
    requires RowsOk(Stored(CarryForward(steps[n - 1].zones, lead, threshold)))
    ensures Summary(Written(before, steps[n - 1].categories, Stored(CarryForward(steps[n - 1].zones, lead, threshold))),
                    steps, n, threshold)
  {
    var rows := Stored(CarryForward(steps[n - 1].zones, lead, threshold));
    WrittenIsShared(before, steps[n - 1].categories, rows);
    CarriedIsGood(steps[n - 1].zones, lead, threshold);
    LeadBefore(before, steps, n - 1, threshold, lead);
    CarriedDescribes(steps, n, threshold, lead);
  }

  lemma WrittenIsShared(before: Active, categories: seq<nat>, rows: seq<Zone>)
    requires categories != [] && forall c :: c in before ==> c in categories
    ensures Shared(Written(before, categories, rows), rows) && Written(before, categories, rows) != map[]
  {
    assert categories[0] in Written(before, categories, rows);
  }

  /** The lead a run finds: none before the first write, else the season start with the last price. */
  lemma LeadBefore(before: Active, steps: seq<Step>, n: nat, threshold: real, lead: Option<Lead>)
    requires WellFormed(steps) && n <= |steps| && Summary(before, steps, n, threshold) && IsLead(before, lead)
    ensures match LastWritten(steps, n)
      case None => lead == None
      case Some(j) => lead == Some(Lead(SeasonStart(steps, n, threshold).value, Some(Cents(steps[j].zones[0].price))))
  {
    if LastWritten(steps, n) == None {
      NoRows(before, lead);
    } else {
      var stored :| Shared(before, stored) && Describes(stored, steps, n, threshold);
      SharedLead(before, stored, lead);
    }
  }

  /** Carrying that lead forward gives the season start of the longer history. */
  lemma CarriedDescribes(steps: seq<Step>, n: nat, threshold: real, lead: Option<Lead>)
    requires WellFormed(steps) && 0 < n <= |steps| && steps[n - 1].Wrote?
    requires match LastWritten(steps, n - 1)
      case None => lead == None
      case Some(j) => lead == Some(Lead(SeasonStart(steps, n - 1, threshold).value,
                                        Some(Cents(steps[j].zones[0].price))))
    requires GoodCalendar(Stored(CarryForward(steps[n - 1].zones, lead, threshold)))
    ensures Describes(Stored(CarryForward(steps[n - 1].zones, lead, threshold)), steps, n, threshold)
  {
  }

  lemma NoRows(active: Active, lead: Option<Lead>)
    requires active == map[] && IsLead(active, lead)
    ensures lead == None
  {
  }

  // ---------------------------------------------------------------- consequences

  /** Windows that never move backwards, as they do when they start a fixed number of days from today. */
  ghost predicate ForwardWindows(steps: seq<Step>)
    requires WellFormed(steps)
  {
    forall i, j :: 0 <= i < j < |steps| && steps[i].Wrote? && steps[j].Wrote? ==>
      steps[i].zones[0].start <= steps[j].zones[0].start
  }

  /** With forward windows the season start is the window start of the last price-discontinuous run. */
  lemma {:induction false} SeasonStartIsLastBreak(steps: seq<Step>, n: nat, threshold: real) returns (b: nat)
    requires WellFormed(steps) && ForwardWindows(steps) && n <= |steps| && LastWritten(steps, n).Some?
    ensures b < n && Breaks(steps, b, threshold) && forall k :: b < k < n ==> !Breaks(steps, k, threshold)
    ensures SeasonStart(steps, n, threshold) == Some(steps[b].zones[0].start)
  {
    if Breaks(steps, n - 1, threshold) {
      b := n - 1;
    } else {
      b := SeasonStartIsLastBreak(steps, n - 1, threshold);
    }
  }

  lemma {:induction false} SeasonStartFalls(steps: seq<Step>, n: nat, m: nat, threshold: real)
    requires WellFormed(steps) && n <= m <= |steps| && LastWritten(steps, n).Some?
    requires forall k :: n <= k < m ==> !Breaks(steps, k, threshold)
    ensures LastWritten(steps, m).Some?
    ensures SeasonStart(steps, m, threshold).value <= SeasonStart(steps, n, threshold).value
  {
    if n < m {
      SeasonStartFalls(steps, n, m - 1, threshold);
      assert !Breaks(steps, m - 1, threshold);
    }
  }

  lemma StartIsSeasonStart(states: seq<Active>, steps: seq<Step>, threshold: real, n: nat, c: nat)
    requires History(states, steps, threshold) && WellFormed(steps) && n <= |steps| && c in states[n]
    ensures LastWritten(steps, n).Some? && states[n][c] != []
    ensures states[n][c][0].start == SeasonStart(steps, n, threshold).value
  {
    CalendarOverHistory(states, steps, threshold, n);
  }

  /** While runs stay price-continuous the stored leading start never moves later, whatever the windows do. */
  lemma StartNeverLater(states: seq<Active>, steps: seq<Step>, threshold: real, n: nat, m: nat, c: nat, d: nat)
    requires History(states, steps, threshold) && WellFormed(steps) && n <= m <= |steps|
    requires forall k :: n <= k < m ==> !Breaks(steps, k, threshold)
    requires c in states[n] && d in states[m]
    ensures states[n][c] != [] && states[m][d] != [] && states[m][d][0].start <= states[n][c][0].start
  {
    StartIsSeasonStart(states, steps, threshold, n, c);
    StartIsSeasonStart(states, steps, threshold, m, d);
    SeasonStartFalls(steps, n, m, threshold);
  }

  /** Why the history asks that a category with zones stays active: after a write, the leading start is
      the new one exactly when no category left out holds an earlier zone. */
  lemma LeadIsCurrentIff(active: Active, categories: seq<nat>, rows: seq<Zone>, lead: Lead)
    requires categories != [] && GoodCalendar(rows) && IsLead(Written(active, categories, rows), Some(lead))
    ensures lead.start == rows[0].start <==>
      forall c: nat, k: nat :: HasRow(active, c, k) && c !in categories ==> rows[0].start <= active[c][k].start
  {
    var after := Written(active, categories, rows);
    assert HasRow(after, categories[0], 0);
    if lead.start == rows[0].start {
      forall c: nat, k: nat | HasRow(active, c, k) && c !in categories ensures rows[0].start <= active[c][k].start {
        assert HasRow(after, c, k) && after[c][k] == active[c][k];
      }
    } else {
      var c: nat, k: nat :| HasRow(after, c, k) && after[c][k].start == lead.start;
      if c in categories {
        StartsAscend(rows, 0, k);
        assert false;
      }
      assert HasRow(active, c, k);
    }
  }

  /** A retired category with an old calendar keeps leading: the new calendar starts on day 100, the
      stored lead stays on day 10. */
  lemma RetiredCategoryLeads(lead: Option<Lead>)
    requires IsLead(Written(map[1 := [Zone(10, 20, 30.0, "", 10)]], [2], [Zone(100, 120, 50.0, "", 100)]), lead)
    ensures lead == Some(Lead(10, Some(30.0)))
  {
    var after := Written(map[1 := [Zone(10, 20, 30.0, "", 10)]], [2], [Zone(100, 120, 50.0, "", 100)]);
    assert HasRow(after, 1, 0) && after[1][0].start == 10;
    assert forall c: nat, k: nat :: HasRow(after, c, k) ==> (c == 1 || c == 2) && k == 0;
  }
}
