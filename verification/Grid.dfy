/** The intersected grid: a date range cut wherever some provider changes zone. */
module Grid {
  import opened Dates

  /** Inclusive on both ends. */
  datatype ZoneRange = ZoneRange(start: Date, end: Date) {
    predicate Contains(t: Date) { start <= t <= end }
  }

  datatype Tramo = Tramo(first: Date, last: Date) {
    predicate Contains(t: Date) { first <= t <= last }
  }

  function Max(a: Date, b: Date): Date { if a < b then b else a }

  function Min(a: Date, b: Date): Date { if a < b then a else b }

  /** c is where a zone begins, or the day after one ends. */
  ghost predicate Cuts(zones: seq<ZoneRange>, c: Date) {
    exists i :: 0 <= i < |zones| && (c == zones[i].start || c == zones[i].end + 1)
  }

  /** The tramo between two consecutive cut points. */
  function Between(points: seq<Date>, i: nat): Tramo
    requires Ascending(points) && i + 1 < |points|
  {
    AscendingAt(points, i, i + 1);
    Tramo(points[i], points[i + 1] - 1)
  }

  /** Exactly the cut points of the range: its own ends plus every zone change strictly inside it. */
  ghost predicate AreCutPoints(points: set<Date>, zones: seq<ZoneRange>, d1: Date, d2: Date) {
    forall c :: c in points <==> c == d1 || c == d2 + 1 || (d1 < c <= d2 && Cuts(zones, c))
  }

  function Flatten(zonesByProvider: seq<seq<ZoneRange>>): seq<ZoneRange> {
    if zonesByProvider == [] then [] else zonesByProvider[0] + Flatten(zonesByProvider[1..])
  }

  lemma {:induction false} FlattenSnoc(zs: seq<seq<ZoneRange>>, k: nat)
    requires k < |zs|
    ensures Flatten(zs[..k + 1]) == Flatten(zs[..k]) + zs[k]
  {
    if k == 0 {
      assert zs[..1] == [zs[0]] && zs[..0] == [];
      assert Flatten([zs[0]]) == zs[0] + Flatten([]);
    } else {
      assert zs[..k + 1][1..] == zs[1..][..k] && zs[..k][1..] == zs[1..][..k - 1];
      FlattenSnoc(zs[1..], k - 1);
    }
  }

  /** The grid: empty, or the tramos between consecutive cut points. */
  ghost predicate IsGrid(grid: seq<Tramo>, zones: seq<ZoneRange>, d1: Date, d2: Date) {
    && (grid == [] <==> d1 > d2 || zones == [])
    && (grid != [] ==>
          && grid[0].first == d1 && grid[|grid| - 1].last == d2
          && (forall i :: 0 < i < |grid| ==> grid[i].first == grid[i - 1].last + 1)
          && (forall i :: 0 <= i < |grid| ==> grid[i].first <= grid[i].last)
          && (forall i :: 0 < i < |grid| ==> Cuts(zones, grid[i].first))
          && (forall z, i :: z in zones && 0 <= i < |grid| ==> Aligned(z, grid[i])))
  }

  /** The zone contains the whole tramo or none of it. */
  ghost predicate Aligned(z: ZoneRange, tramo: Tramo) {
    (z.start <= tramo.first && tramo.last <= z.end) || (forall t :: tramo.Contains(t) ==> !z.Contains(t))
  }

  method ComputeIntersectedGrid(zonesByProvider: seq<seq<ZoneRange>>, d1: Date, d2: Date) returns (result: seq<Tramo>)
    ensures IsGrid(result, Flatten(zonesByProvider), d1, d2)
  {
    if d1 > d2 {
      return [];
    }
    var allZones := Flatten(zonesByProvider);
    if allZones == [] {
      return [];
    }
    var endMarker := d2 + 1;
    var cutPoints := CollectCutPoints(zonesByProvider, d1, d2);
    var points := SortedSet(cutPoints);
    EndsOfPoints(points, allZones, d1, d2);
    result := [];
    var i := 0;
    while i < |points| - 1
      invariant 0 <= i <= |points| - 1 && |result| == i
      invariant forall j :: 0 <= j < i ==> result[j] == Between(points, j)
    {
      var p, next := points[i], points[i + 1];
      AscendingAt(points, i, i + 1);
      AscendingAt(points, i, |points| - 1);
      if p >= endMarker {
        break;
      }
      result := result + [Tramo(p, next - 1)];
      i := i + 1;
    }
    PointsGiveGrid(points, allZones, d1, d2, result);
  }

  method CollectCutPoints(zonesByProvider: seq<seq<ZoneRange>>, d1: Date, d2: Date) returns (cutPoints: set<Date>)
    requires d1 <= d2
    ensures AreCutPoints(cutPoints, Flatten(zonesByProvider), d1, d2)
  {
    var endMarker := d2 + 1;
    cutPoints := {d1, endMarker};
    var k := 0;
    while k < |zonesByProvider|
      invariant 0 <= k <= |zonesByProvider|
      invariant AreCutPoints(cutPoints, Flatten(zonesByProvider[..k]), d1, d2)
    {
      var zones := zonesByProvider[k];
      ghost var before := Flatten(zonesByProvider[..k]);
      assert before + zones[..0] == before;
      var j := 0;
      while j < |zones|
        invariant 0 <= j <= |zones|
        invariant AreCutPoints(cutPoints, before + zones[..j], d1, d2)
      {
        var zone := zones[j];
        var s := Max(zone.start, d1);
        if s < endMarker {
          cutPoints := cutPoints + {s};
        }
        var e := Min(zone.end + 1, endMarker);
        if e > d1 {
          cutPoints := cutPoints + {e};
        }
        CutsSnoc(before + zones[..j], zone);
        assert before + zones[..j + 1] == before + zones[..j] + [zone];
        j := j + 1;
      }
      FlattenSnoc(zonesByProvider, k);
      assert zones[..|zones|] == zones;
      k := k + 1;
    }
    assert zonesByProvider[..|zonesByProvider|] == zonesByProvider;
  }

  lemma CutsSnoc(zones: seq<ZoneRange>, z: ZoneRange)
    ensures forall c :: Cuts(zones + [z], c) <==> Cuts(zones, c) || c == z.start || c == z.end + 1
  {
    forall c ensures Cuts(zones + [z], c) <==> Cuts(zones, c) || c == z.start || c == z.end + 1 {
      if Cuts(zones, c) {
        var i :| 0 <= i < |zones| && (c == zones[i].start || c == zones[i].end + 1);
        assert (zones + [z])[i] == zones[i];
      }
      assert (zones + [z])[|zones|] == z;
    }
  }

  lemma EndsOfPoints(points: seq<Date>, zones: seq<ZoneRange>, d1: Date, d2: Date)
    requires d1 <= d2 && Ascending(points)
    requires AreCutPoints(Elements(points), zones, d1, d2)
    ensures |points| >= 2 && points[0] == d1 && points[|points| - 1] == d2 + 1
    ensures forall i :: 0 < i < |points| - 1 ==> Cuts(zones, points[i])
  {
    var all := Elements(points);
    assert d1 in all && d2 + 1 in all;
    var i :| 0 <= i < |points| && points[i] == d1;
    var j :| 0 <= j < |points| && points[j] == d2 + 1;
    if i > 0 {
      assert points[0] in all;
      AscendingAt(points, 0, i);
    }
    if j < |points| - 1 {
      assert points[|points| - 1] in all;
      AscendingAt(points, j, |points| - 1);
    }
    forall k | 0 < k < |points| - 1 ensures Cuts(zones, points[k]) {
      AscendingAt(points, 0, k);
      AscendingAt(points, k, |points| - 1);
      assert points[k] in all;
    }
  }

  /** Between two consecutive cut points no zone begins or ends. */
  lemma NoCutInside(points: seq<Date>, zones: seq<ZoneRange>, d1: Date, d2: Date, z: ZoneRange, i: nat)
    requires d1 <= d2 && Ascending(points) && i < |points| - 1 && z in zones
    requires AreCutPoints(Elements(points), zones, d1, d2)
    ensures Aligned(z, Between(points, i))
  {
    var all := Elements(points);
    var k :| 0 <= k < |zones| && zones[k] == z;
    var p, q := points[i], points[i + 1];
    assert p in all && q in all;
    forall c | p < c < q ensures c !in all {
      if c in all {
        var j :| 0 <= j < |points| && points[j] == c;
        if j < i { AscendingAt(points, j, i); }
        if i + 1 < j { AscendingAt(points, i + 1, j); }
      }
    }
    assert Cuts(zones, z.start) && Cuts(zones, z.end + 1);
    assert d1 <= p && q <= d2 + 1;
    assert p < z.start < q ==> z.start in all;
    assert p < z.end + 1 < q ==> z.end + 1 in all;
  }

  lemma StretchShape(points: seq<Date>, j: nat)
    requires Ascending(points) && j < |points| - 1
    ensures Between(points, j).first == points[j] <= Between(points, j).last == points[j + 1] - 1
  {
    AscendingAt(points, j, j + 1);
  }

  lemma StretchesAligned(points: seq<Date>, zones: seq<ZoneRange>, d1: Date, d2: Date, grid: seq<Tramo>)
    requires d1 <= d2 && Ascending(points) && AreCutPoints(Elements(points), zones, d1, d2)
    requires |grid| == |points| - 1 && forall j :: 0 <= j < |grid| ==> grid[j] == Between(points, j)
    ensures forall z, i :: z in zones && 0 <= i < |grid| ==> Aligned(z, grid[i])
  {
    forall z, i | z in zones && 0 <= i < |grid| ensures Aligned(z, grid[i]) {
      NoCutInside(points, zones, d1, d2, z, i);
    }
  }

  lemma PointsGiveGrid(points: seq<Date>, zones: seq<ZoneRange>, d1: Date, d2: Date, grid: seq<Tramo>)
    requires d1 <= d2 && zones != [] && Ascending(points)
    requires AreCutPoints(Elements(points), zones, d1, d2)
    requires |grid| == |points| - 1 && forall j :: 0 <= j < |grid| ==> grid[j] == Between(points, j)
    ensures IsGrid(grid, zones, d1, d2)
  {
    EndsOfPoints(points, zones, d1, d2);
    StretchesAligned(points, zones, d1, d2, grid);
    forall j | 0 <= j < |grid| ensures grid[j].first == points[j] <= grid[j].last == points[j + 1] - 1 {
      StretchShape(points, j);
    }
  }

  // ---------------------------------------------------------------- what a grid guarantees

  /** Every day of the range lies in exactly one tramo, and no other day in any. */
  lemma {:induction false} GridTiles(grid: seq<Tramo>, zones: seq<ZoneRange>, d1: Date, d2: Date, t: Date)
    requires IsGrid(grid, zones, d1, d2) && grid != []
    ensures (exists i :: 0 <= i < |grid| && grid[i].Contains(t)) <==> d1 <= t <= d2
    ensures forall i, j :: 0 <= i < |grid| && 0 <= j < |grid| && grid[i].Contains(t) && grid[j].Contains(t) ==> i == j
  {
    if d1 <= t <= d2 {
      var i := Locate(grid, zones, d1, d2, t, |grid|);
    }
    forall i | 0 <= i < |grid| && grid[i].Contains(t) ensures d1 <= t <= d2 {
      TramoOrder(grid, zones, d1, d2, 0, i);
      TramoOrder(grid, zones, d1, d2, i, |grid| - 1);
    }
    forall i, j | 0 <= i < j < |grid| ensures !(grid[i].Contains(t) && grid[j].Contains(t)) {
      TramoOrder(grid, zones, d1, d2, i, j);
    }
  }

  lemma {:induction false} TramoOrder(grid: seq<Tramo>, zones: seq<ZoneRange>, d1: Date, d2: Date, i: nat, j: nat)
    requires IsGrid(grid, zones, d1, d2) && i <= j < |grid|
    ensures grid[i].first <= grid[j].first && grid[i].last <= grid[j].last
    ensures i < j ==> grid[i].last < grid[j].first
  {
    if i < j {
      TramoOrder(grid, zones, d1, d2, i, j - 1);
    }
  }

  lemma {:induction false} Locate(grid: seq<Tramo>, zones: seq<ZoneRange>, d1: Date, d2: Date, t: Date, n: nat)
    returns (i: nat)
    requires IsGrid(grid, zones, d1, d2) && 0 < n <= |grid|
    requires d1 <= t <= grid[n - 1].last
    ensures i < n && grid[i].Contains(t)
  {
    i := n - 1;
    if t < grid[n - 1].first {
      i := Locate(grid, zones, d1, d2, t, n - 1);
    }
  }

  /** Nothing coarser works: a stretch of days inside the range that every zone either contains or
      misses lies within a single tramo (for zones that hold at least one day). */
  lemma GridIsCoarsest(grid: seq<Tramo>, zones: seq<ZoneRange>, d1: Date, d2: Date, stretch: Tramo) returns (i: nat)
    requires IsGrid(grid, zones, d1, d2) && grid != []
    requires d1 <= stretch.first <= stretch.last <= d2
    requires forall z :: z in zones ==> z.start <= z.end && Aligned(z, stretch)
    ensures i < |grid| && grid[i].first <= stretch.first && stretch.last <= grid[i].last
  {
    i := Locate(grid, zones, d1, d2, stretch.first, |grid|);
    if grid[i].last < stretch.last {
      // then the next tramo begins inside the stretch, at a zone's start or the day after its end
      if i + 1 == |grid| { assert false; }
      var c := grid[i + 1].first;
      assert Cuts(zones, c);
      var k :| 0 <= k < |zones| && (c == zones[k].start || c == zones[k].end + 1);
      Straddles(zones[k], c, stretch);
      assert false;
    }
  }

  lemma Straddles(z: ZoneRange, c: Date, stretch: Tramo)
    requires z.start <= z.end && (c == z.start || c == z.end + 1)
    requires stretch.first < c <= stretch.last
    ensures !Aligned(z, stretch)
  {
    assert stretch.Contains(c) && stretch.Contains(c - 1);
    assert z.Contains(c) != z.Contains(c - 1);
  }
}
