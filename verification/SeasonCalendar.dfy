/** The persisted season calendar across scraping runs: which zones a run writes, when it writes
    nothing, and how the first zone keeps its start. */
module SeasonCalendar {
  import opened Comprehension
  import opened Dates
  import opened Rounding
  import opened SeasonAnalyzer

  // ---------------------------------------------------------------- carry forward

  /** (start_date, reference_price) of the leading stored zone; the price column is nullable. */
  datatype Lead = Lead(start: Date, price: Option<real>)

  predicate Continuous(zones: seq<Zone>, lead: Lead, threshold: real) {
    zones != [] && lead.price.Some? && Change(lead.price.value, zones[0].price) <= threshold
  }

  /** The leading season goes on: the first zone takes over the stored, earlier start. */
  predicate Carries(zones: seq<Zone>, lead: Option<Lead>, threshold: real) {
    lead.Some? && Continuous(zones, lead.value, threshold) && lead.value.start < zones[0].start
  }

  /** carry_forward_leading_start */
  function CarryForward(zones: seq<Zone>, lead: Option<Lead>, threshold: real): seq<Zone> {
    if Carries(zones, lead, threshold) then [zones[0].(start := lead.value.start)] + zones[1..] else zones
  }

  // ---------------------------------------------------------------- representatives

  /** Distinct groups that offered a price on the date. */
  function GroupsOn(points: seq<PricePoint>, d: Date): set<string> {
    set p | p in points && p.pickup == d :: p.group
  }

  /** Fewer groups, or as many on an earlier date. */
  predicate Poorer(points: seq<PricePoint>, d: Date, e: Date) {
    |GroupsOn(points, d)| < |GroupsOn(points, e)| || (|GroupsOn(points, d)| == |GroupsOn(points, e)| && d <= e)
  }

  /** The probe date in the zone with most groups, the later one on a tie. */
  ghost predicate IsBest(z: Zone, points: seq<PricePoint>, d: Date) {
    d in PickupDates(points) && InZone(z, d) && forall e :: e in PickupDates(points) && InZone(z, e) ==>
      Poorer(points, e, d)
  }

  /** No date inside sees more groups, and a later date inside sees fewer. */
  lemma BestMeaning(z: Zone, points: seq<PricePoint>, d: Date, e: Date)
    requires IsBest(z, points, d) && e in PickupDates(points) && z.start <= e <= z.end
    ensures z.start <= d <= z.end && exists p :: p in points && p.pickup == d
    ensures var here, there := set p | p in points && p.pickup == d :: p.group,
                               set p | p in points && p.pickup == e :: p.group;
      |there| <= |here| && (d < e ==> |there| < |here|)
  {
  }

  ghost predicate Reassigned(z: Zone, points: seq<PricePoint>, r: Zone) {
    if exists d: Date :: d in PickupDates(points) && InZone(z, d) then exists d: Date ::
      IsBest(z, points, d) && r == z.(rep := d)
    else r == z
  }

  method BestDate(z: Zone, points: seq<PricePoint>) returns (best: Option<Date>)
    ensures best == None ==> forall d :: d in PickupDates(points) ==> !InZone(z, d)
    ensures best.Some? ==> IsBest(z, points, best.value)
  {
    best := None;
    var rest := PickupDates(points);
    while rest != {}
      invariant rest <= PickupDates(points)
      invariant best.Some? ==> best.value in PickupDates(points) && InZone(z, best.value)
      invariant forall e :: e in PickupDates(points) && e !in rest && InZone(z, e) ==>
        best.Some? && Poorer(points, e, best.value)
      decreases rest
    {
      var d :| d in rest;
      if InZone(z, d) && (best == None || !Poorer(points, d, best.value)) {
        best := Some(d);
      }
      rest := rest - {d};
    }
  }

  /** _reassign_representatives */
  method ReassignRepresentatives(zones: seq<Zone>, points: seq<PricePoint>) returns (updated: seq<Zone>)
    ensures |updated| == |zones| && forall k :: 0 <= k < |zones| ==> Reassigned(zones[k], points, updated[k])
  {
    updated := [];
    var k := 0;
    while k < |zones|
      invariant 0 <= k <= |zones| && |updated| == k
      invariant forall i :: 0 <= i < k ==> Reassigned(zones[i], points, updated[i])
    {
      var best := BestDate(zones[k], points);
      updated := updated + [if best.Some? then zones[k].(rep := best.value) else zones[k]];
      k := k + 1;
    }
  }

  lemma ReassignedKeeps(z: Zone, points: seq<PricePoint>, r: Zone)
    requires Reassigned(z, points, r)
    ensures r == z.(rep := r.rep) && (InZone(z, z.rep) ==> InZone(r, r.rep))
  {
  }

  // ---------------------------------------------------------------- stored rows

  /** The table's CHECK constraints. */
  predicate RowOk(z: Zone) {
    z.start <= z.end && z.start <= z.rep <= z.end
  }

  predicate RowsOk(zones: seq<Zone>) {
    forall k :: 0 <= k < |zones| ==> RowOk(zones[k])
  }

  /** Rows as stored: the reference price column has two decimals. */
  function Stored(zones: seq<Zone>): seq<Zone> {
    seq(|zones|, k requires 0 <= k < |zones| => zones[k].(price := Cents(zones[k].price)))
  }

  /** A calendar: ordered, contiguous, non-empty zones with their representatives inside. */
  ghost predicate GoodCalendar(zones: seq<Zone>) {
    zones != [] && RowsOk(zones) && forall k :: 0 < k < |zones| ==> zones[k].start == zones[k - 1].end + 1
  }

  function LeadOf(zones: seq<Zone>): Lead
    requires zones != []
  {
    Lead(zones[0].start, Some(zones[0].price))
  }

  /** The active rows per vehicle category. */
  type Active = map<nat, seq<Zone>>

  ghost predicate HasRow(active: Active, c: nat, k: nat) {
    c in active && k < |active[c]|
  }

  ghost predicate IsLead(active: Active, lead: Option<Lead>) {
    match lead
    case None => forall c: nat, k: nat :: !HasRow(active, c, k)
    case Some(l) =>
      && (exists c: nat, k: nat :: HasRow(active, c, k) && active[c][k].start == l.start &&
           l.price == Some(active[c][k].price))
      && forall c: nat, k: nat :: HasRow(active, c, k) ==> l.start <= active[c][k].start
  }

  /** Every category with zones carries the same calendar. */
  ghost predicate Shared(active: Active, zones: seq<Zone>) {
    forall c :: c in active ==> active[c] == zones
  }

  function Written(active: Active, categories: seq<nat>, rows: seq<Zone>): Active {
    active + map c | c in categories :: rows
  }

  datatype Failure = EmptyProbe | ClassificationFailed | ConstraintViolated | ExtractionFailed

  class Calendar {
    var active: Active

    constructor ()
      ensures active == map[]
    {
      active := map[];
    }

    /** leading_active_zone: earliest start among all active rows of the offer; ties are broken by the
        database. */
    method LeadingActiveZone() returns (lead: Option<Lead>)
      ensures IsLead(active, lead)
    {
      lead := None;
      var rest := active.Keys;
      while rest != {}
        invariant rest <= active.Keys
        invariant lead == None ==> forall c: nat, k: nat :: HasRow(active, c, k) && c !in rest ==> false
        invariant lead.Some? ==>
          && (exists c: nat, k: nat :: HasRow(active, c, k) && active[c][k].start == lead.value.start &&
               lead.value.price == Some(active[c][k].price))
          && forall c: nat, k: nat :: HasRow(active, c, k) && c !in rest ==> lead.value.start <= active[c][k].start
        decreases rest
      {
        var c :| c in rest;
        var k := 0;
        while k < |active[c]|
          invariant 0 <= k <= |active[c]|
          invariant lead == None ==> k == 0 && forall b: nat, i: nat :: HasRow(active, b, i) && b !in rest ==> false
          invariant lead.Some? ==>
            && (exists b: nat, i: nat :: HasRow(active, b, i) && active[b][i].start == lead.value.start &&
                 lead.value.price == Some(active[b][i].price))
            && (forall b: nat, i: nat :: HasRow(active, b, i) && b !in rest ==> lead.value.start <= active[b][i].start)
            && (forall i :: 0 <= i < k ==> lead.value.start <= active[c][i].start)
        {
          if lead == None || active[c][k].start < lead.value.start {
            assert HasRow(active, c, k);
            lead := Some(Lead(active[c][k].start, Some(active[c][k].price)));
          }
          k := k + 1;
        }
        rest := rest - {c};
      }
    }

    /** _persist_zones: carry the leading start forward, then replace the rows of every active category
        in one transaction, which a violated CHECK constraint rolls back. */
    method PersistZones(zones: seq<Zone>, categories: seq<nat>, threshold: real)
      returns (r: Result<nat, Failure>, ghost lead: Option<Lead>)
      modifies this
      ensures IsLead(old(active), lead)
      ensures categories == [] ==> r == Ok(0) && active == old(active)
      ensures categories != [] ==>
        var rows := Stored(CarryForward(zones, lead, threshold));
        if RowsOk(rows) then r == Ok(|zones| * |categories|) && active == Written(old(active), categories, rows)
        else r == Err(ConstraintViolated) && active == old(active)
    {
      var found := LeadingActiveZone();
      lead := found;
      if categories == [] {
        return Ok(0), lead;
      }
      var rows := Stored(CarryForward(zones, found, threshold));
      var written := WriteAll(active, categories, rows);
      if written == None {
        return Err(ConstraintViolated), lead;
      }
      active := written.value;
      r := Ok(|rows| * |categories|);
    }
  }

  /** replace_zones_for_tuple for every category, within one transaction. */
  method WriteAll(active: Active, categories: seq<nat>, rows: seq<Zone>) returns (r: Option<Active>)
    requires categories != []
    ensures r == if RowsOk(rows) then Some(Written(active, categories, rows)) else None
  {
    var pending := active;
    WrittenNothing(active, rows);
    var i := 0;
    while i < |categories|
      invariant 0 <= i <= |categories| && (i > 0 ==> RowsOk(rows))
      invariant pending == Written(active, categories[..i], rows)
    {
      var valid := RowsOk(rows);
      if !valid {
        return None;
      }
      WrittenSnoc(active, categories, i, rows);
      pending := pending[categories[i] := rows];
      i := i + 1;
    }
    assert categories[..|categories|] == categories;
    r := Some(pending);
  }

  lemma WrittenNothing(active: Active, rows: seq<Zone>)
    ensures Written(active, [], rows) == active
  {
  }

  lemma WrittenSnoc(active: Active, categories: seq<nat>, i: nat, rows: seq<Zone>)
    requires i < |categories|
    ensures Written(active, categories[..i + 1], rows) == Written(active, categories[..i], rows)[categories[i] := rows]
  {
    assert categories[..i + 1] == categories[..i] + [categories[i]];
  }
}
