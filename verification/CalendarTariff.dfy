/** From season calendar to price query: the zones that runs store are the shared, disjoint zones on which the two
    query paths agree. */
module CalendarTariff {
  import opened Catalog
  import opened Dates
  import opened ProviderTariff
  import opened SeasonAnalyzer
  import opened SeasonCalendar
  import opened SeasonRuns
  import opened SeasonZones

  predicate SameZone(row: Zone, z: Triple) {
    row.start == z.start && row.end == z.end && row.rep == z.rep
  }

  /** The zone table holds the stored calendar of the offer. */
  ghost predicate Stores(db: Tables, offer: Offer, active: Active) {
    forall c: nat, z: Triple :: z in ZonesOf(db, offer, c) <==>
      exists k: nat :: HasRow(active, c, k) && SameZone(active[c][k], z)
  }

  lemma CalendarIsShared(db: Tables, offer: Offer, active: Active, zones: seq<Zone>, categories: seq<nat>)
    requires Stores(db, offer, active) && Shared(active, zones) && GoodCalendar(zones)
    requires forall c :: c in categories ==> c in active
    ensures SharedDisjointZones(db, offer, categories)
  {
    forall b, c, z | b in categories && c in categories && z in ZonesOf(db, offer, b)
      ensures z in ZonesOf(db, offer, c)
    {
      var k: nat :| HasRow(active, b, k) && SameZone(active[b][k], z);
      assert HasRow(active, c, k) && SameZone(active[c][k], z);
    }
    forall c, y, z, t | c in categories && y in ZonesOf(db, offer, c) && z in ZonesOf(db, offer, c) &&
      y.Contains(t) && z.Contains(t)
      ensures y == z
    {
      var j: nat :| HasRow(active, c, j) && SameZone(active[c][j], y);
      var k: nat :| HasRow(active, c, k) && SameZone(active[c][k], z);
      OneZoneADay(zones, t, j, k);
    }
  }

  lemma OneZoneADay(zones: seq<Zone>, t: Date, j: nat, k: nat)
    requires GoodCalendar(zones) && j < |zones| && k < |zones| && InZone(zones[j], t) && InZone(zones[k], t)
    ensures j == k
  {
    assert RowOk(zones[|zones| - 1]);
    ContiguousTiles(zones, zones[0].start, zones[|zones| - 1].end, t);
  }

  /** After any history of runs in which categories with zones stay active, the zones of a group whose categories
      all have a calendar are shared and disjoint. */
  lemma HistoryIsShared(states: seq<Active>, steps: seq<Step>, threshold: real, n: nat, db: Tables, offer: Offer,
                        categories: seq<nat>)
    requires History(states, steps, threshold) && WellFormed(steps) && n <= |steps|
    requires Stores(db, offer, states[n]) && forall c :: c in categories ==> c in states[n]
    ensures SharedDisjointZones(db, offer, categories)
  {
    CalendarOverHistory(states, steps, threshold, n);
    if categories != [] {
      assert categories[0] in states[n];
      var zones :| Shared(states[n], zones) && Describes(zones, steps, n, threshold);
      CalendarIsShared(db, offer, states[n], zones, categories);
    }
  }
}
