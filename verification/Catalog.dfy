/** The catalog tables a price query reads, and the query layer's own joins over them. */
module Catalog {
  import opened Comprehension
  import opened Dates
  import opened Grid

  /** (provider, location, rate): what a tenant subscribes to. */
  datatype Offer = Offer(provider: nat, location: nat, rate: nat)

  datatype VehicleCategory = VehicleCategory(id: nat, offer: Offer, active: bool, acriss: Option<string>)

  /** A tenant's vehicle group is mapped to ACRISS codes. */
  datatype Mapping = Mapping(group: nat, acriss: string)

  datatype ZoneRow = ZoneRow(offer: Offer, category: nat, start: Date, end: Date, rep: Date, active: bool)

  datatype PriceKey = PriceKey(offer: Offer, category: nat, pickup: Date, duration: nat)

  /** prices holds the latest observation per key. */
  datatype Tables = Tables(categories: seq<VehicleCategory>, mappings: seq<Mapping>, zones: seq<ZoneRow>,
                           prices: map<PriceKey, real>)

  // ---------------------------------------------------------------- groups to categories

  function WithCode(offer: Offer, code: string): VehicleCategory -> Option<nat> {
    (c: VehicleCategory) => if c.offer == offer && c.active && c.acriss == Some(code) then Some(c.id) else None
  }

  /** Classified, active categories of the offer that carry the code. */
  function CategoriesWithCode(db: Tables, offer: Offer, code: string): seq<nat> {
    Gather(db.categories, WithCode(offer, code))
  }

  /** Categories that the first k mappings give to the group. */
  function ServingUpTo(db: Tables, offer: Offer, group: nat, k: nat): seq<nat>
    requires k <= |db.mappings|
  {
    if k == 0 then []
    else ServingUpTo(db, offer, group, k - 1)
         + if db.mappings[k - 1].group == group then CategoriesWithCode(db, offer, db.mappings[k - 1].acriss) else []
  }

  /** Categories behind a tenant group within an offer. */
  function Serving(db: Tables, offer: Offer, group: nat): seq<nat> {
    ServingUpTo(db, offer, group, |db.mappings|)
  }

  /** dict.get(key, []) */
  function Get<K, V>(m: map<K, seq<V>>, k: K): seq<V> {
    if k in m then m[k] else []
  }

  function MappingsOf(db: Tables, offer: Offer, groups: set<nat>): map<nat, seq<nat>> {
    map g | g in groups && Serving(db, offer, g) != [] :: Serving(db, offer, g)
  }

  ghost predicate CodesOf(m: map<string, seq<nat>>, db: Tables, offer: Offer) {
    forall code :: Codes(m, db, offer, code)
  }

  predicate Codes(m: map<string, seq<nat>>, db: Tables, offer: Offer, code: string) {
    Get(m, code) == CategoriesWithCode(db, offer, code)
  }

  method CodeToCategories(db: Tables, offer: Offer) returns (m: map<string, seq<nat>>)
    ensures CodesOf(m, db, offer)
  {
    m := map[];
    var i := 0;
    while i < |db.categories|
      invariant 0 <= i <= |db.categories|
      invariant forall code :: Get(m, code) == Gather(db.categories[..i], WithCode(offer, code))
    {
      var c := db.categories[i];
      forall code ensures Gather(db.categories[..i + 1], WithCode(offer, code)) ==
        Gather(db.categories[..i], WithCode(offer, code)) + if WithCode(offer, code)(c).Some? then [c.id] else []
      {
        GatherSnoc(db.categories, i, WithCode(offer, code));
      }
      if c.offer == offer && c.active && c.acriss.Some? {
        m := m[c.acriss.value := Get(m, c.acriss.value) + [c.id]];
      }
      i := i + 1;
    }
    assert db.categories[..|db.categories|] == db.categories;
  }

  ghost predicate NoEmptyLists(m: map<nat, seq<nat>>) {
    forall g :: g in m ==> m[g] != []
  }

  ghost predicate MappedUpTo(m: map<nat, seq<nat>>, db: Tables, offer: Offer, groups: set<nat>, k: nat)
    requires k <= |db.mappings|
  {
    forall g :: MapsUpTo(m, db, offer, groups, k, g)
  }

  predicate MapsUpTo(m: map<nat, seq<nat>>, db: Tables, offer: Offer, groups: set<nat>, k: nat, g: nat)
    requires k <= |db.mappings|
  {
    && (g in m ==> m[g] != [])
    && Get(m, g) == if g in groups then ServingUpTo(db, offer, g, k) else []
  }

  /** _resolve_mappings */
  method ResolveMappings(db: Tables, offer: Offer, groups: set<nat>) returns (result: map<nat, seq<nat>>)
    ensures result == MappingsOf(db, offer, groups)
  {
    result := ResolveAll(db, offer, groups);
    MappedIsMappings(result, db, offer, groups);
  }

  method ResolveAll(db: Tables, offer: Offer, groups: set<nat>) returns (result: map<nat, seq<nat>>)
    ensures MappedUpTo(result, db, offer, groups, |db.mappings|)
  {
    result := map[];
    var codes := CodeToCategories(db, offer);
    MappedStart(db, offer, groups);
    var k := 0;
    while k < |db.mappings|
      invariant 0 <= k <= |db.mappings|
      invariant MappedUpTo(result, db, offer, groups, k)
    {
      result := ResolveOne(result, codes, db, offer, groups, k);
      k := k + 1;
    }
  }

  /** The body of the loop: one mapping. */
  method ResolveOne(before: map<nat, seq<nat>>, codes: map<string, seq<nat>>, db: Tables, offer: Offer,
                    groups: set<nat>, k: nat)
    returns (result: map<nat, seq<nat>>)
    requires k < |db.mappings| && CodesOf(codes, db, offer) && MappedUpTo(before, db, offer, groups, k)
    ensures MappedUpTo(result, db, offer, groups, k + 1)
  {
    var m := db.mappings[k];
    var ids := Get(codes, m.acriss);
    assert Codes(codes, db, offer, m.acriss);
    assert forall g :: g in before ==> MapsUpTo(before, db, offer, groups, k, g);
    result := before;
    if m.group in groups {
      result := AppendAll(before, m.group, ids);
    }
    MappedStep(before, result, db, offer, groups, k);
  }

  lemma MappedStart(db: Tables, offer: Offer, groups: set<nat>)
    ensures MappedUpTo(map[], db, offer, groups, 0)
  {
  }

  lemma MappedStep(m: map<nat, seq<nat>>, r: map<nat, seq<nat>>, db: Tables, offer: Offer, groups: set<nat>, k: nat)
    requires k < |db.mappings| && MappedUpTo(m, db, offer, groups, k) && NoEmptyLists(r)
    requires var g, ids := db.mappings[k].group, CategoriesWithCode(db, offer, db.mappings[k].acriss);
      && (g !in groups ==> r == m)
      && (g in groups ==> Get(r, g) == Get(m, g) + ids && forall h :: h != g ==> Get(r, h) == Get(m, h))
    ensures MappedUpTo(r, db, offer, groups, k + 1)
  {
    var next := k + 1;
    forall g ensures MapsUpTo(r, db, offer, groups, next, g) {
      assert MapsUpTo(m, db, offer, groups, k, g);
    }
  }

  lemma MappedIsMappings(m: map<nat, seq<nat>>, db: Tables, offer: Offer, groups: set<nat>)
    requires MappedUpTo(m, db, offer, groups, |db.mappings|)
    ensures m == MappingsOf(db, offer, groups)
  {
    var all := MappingsOf(db, offer, groups);
    forall g ensures g in m <==> g in all {
      assert MapsUpTo(m, db, offer, groups, |db.mappings|, g);
    }
    forall g | g in m ensures m[g] == all[g] {
      assert MapsUpTo(m, db, offer, groups, |db.mappings|, g);
    }
  }

  /** result.setdefault(k, []).append(x) for every x of xs */
  method AppendAll(m: map<nat, seq<nat>>, k: nat, xs: seq<nat>) returns (r: map<nat, seq<nat>>)
    requires NoEmptyLists(m)
    ensures NoEmptyLists(r) && Get(r, k) == Get(m, k) + xs
    ensures forall g :: g != k ==> Get(r, g) == Get(m, g)
  {
    r := m;
    var j := 0;
    while j < |xs|
      invariant 0 <= j <= |xs|
      invariant NoEmptyLists(r) && Get(r, k) == Get(m, k) + xs[..j]
      invariant forall g :: g != k ==> Get(r, g) == Get(m, g)
    {
      assert xs[..j + 1] == xs[..j] + [xs[j]];
      r := r[k := Get(r, k) + [xs[j]]];
      j := j + 1;
    }
    assert xs[..|xs|] == xs;
  }

  /** What serving a group means, row by row. */
  lemma {:induction false} ServingMeaning(db: Tables, offer: Offer, group: nat, k: nat, id: nat)
    requires k <= |db.mappings|
    ensures id in ServingUpTo(db, offer, group, k) <==>
      exists i, j :: 0 <= i < k && 0 <= j < |db.categories|
        && db.mappings[i].group == group && db.categories[j].id == id && db.categories[j].offer == offer
        && db.categories[j].active && db.categories[j].acriss == Some(db.mappings[i].acriss)
  {
    if k > 0 {
      ServingMeaning(db, offer, group, k - 1, id);
      GatherMembers(db.categories, WithCode(offer, db.mappings[k - 1].acriss), id);
    }
  }

  // ---------------------------------------------------------------- zones

  function ActiveRow(offer: Offer): ZoneRow -> Option<ZoneRow> {
    (z: ZoneRow) => if z.offer == offer && z.active then Some(z) else None
  }

  function LoadedRow(offer: Offer, ids: set<nat>, d1: Date, d2: Date): ZoneRow -> Option<ZoneRow> {
    (z: ZoneRow) =>
      if z.offer == offer && z.category in ids && z.active && z.end >= d1 && z.start <= d2 then Some(z) else None
  }

  /** _load_zones: active zones of the categories that overlap the range, in table order. */
  function LoadZones(db: Tables, offer: Offer, ids: set<nat>, d1: Date, d2: Date): seq<ZoneRow> {
    Gather(db.zones, LoadedRow(offer, ids, d1, d2))
  }

  predicate Covers(z: ZoneRow, category: nat, t: Date) {
    z.category == category && z.start <= t <= z.end
  }

  /** Representative date of the first listed zone of the category that contains the day. */
  function FirstRep(rows: seq<ZoneRow>, category: nat, t: Date): Option<Date> {
    if rows == [] then None
    else if Covers(rows[0], category, t) then Some(rows[0].rep)
    else FirstRep(rows[1..], category, t)
  }

  /** The same, over the whole table and without any date range. */
  function RepOn(db: Tables, offer: Offer, category: nat, t: Date): Option<Date> {
    FirstRep(Gather(db.zones, ActiveRow(offer)), category, t)
  }

  /** Loading only what overlaps the range loses nothing for a day of the range. */
  lemma {:induction false} LoadingIsEnough(rows: seq<ZoneRow>, offer: Offer, ids: set<nat>, d1: Date, d2: Date,
                                           category: nat, t: Date)
    requires d1 <= t <= d2 && category in ids
    ensures FirstRep(Gather(rows, LoadedRow(offer, ids, d1, d2)), category,
                     t) == FirstRep(Gather(rows, ActiveRow(offer)), category, t)
  {
    if rows != [] {
      LoadingIsEnough(rows[1..], offer, ids, d1, d2, category, t);
      FirstRepStep(rows, LoadedRow(offer, ids, d1, d2), category, t);
      FirstRepStep(rows, ActiveRow(offer), category, t);
    }
  }

  lemma FirstRepStep(rows: seq<ZoneRow>, f: ZoneRow -> Option<ZoneRow>, category: nat, t: Date)
    requires rows != []
    ensures FirstRep(Gather(rows, f), category, t) ==
      if f(rows[0]).Some? && Covers(f(rows[0]).value, category, t) then Some(f(rows[0]).value.rep)
      else FirstRep(Gather(rows[1..], f), category, t)
  {
    var rest := Gather(rows[1..], f);
    if f(rows[0]).Some? {
      assert ([f(rows[0]).value] + rest)[1..] == rest;
    } else {
      assert [] + rest == rest;
    }
  }

  datatype Triple = Triple(start: Date, end: Date, rep: Date) {
    predicate Contains(t: Date) { start <= t <= end }
  }

  function TripleOf(category: nat): ZoneRow -> Option<Triple> {
    (z: ZoneRow) => if z.category == category then Some(Triple(z.start, z.end, z.rep)) else None
  }

  function CategoriesIn(rows: seq<ZoneRow>): set<nat> {
    set z | z in rows :: z.category
  }

  function ZoneMapOf(rows: seq<ZoneRow>): map<nat, seq<Triple>> {
    map c | c in CategoriesIn(rows) :: Gather(rows, TripleOf(c))
  }

  ghost predicate ZonesUpTo(m: map<nat, seq<Triple>>, rows: seq<ZoneRow>, n: nat)
    requires n <= |rows|
  {
    m.Keys == CategoriesIn(rows[..n]) && forall c :: ListsZones(m, rows, n, c)
  }

  predicate ListsZones(m: map<nat, seq<Triple>>, rows: seq<ZoneRow>, n: nat, c: nat)
    requires n <= |rows|
  {
    Get(m, c) == Gather(rows[..n], TripleOf(c))
  }

  lemma ZonesStep(m: map<nat, seq<Triple>>, rows: seq<ZoneRow>, n: nat)
    requires n < |rows| && ZonesUpTo(m, rows, n)
    ensures var z := rows[n]; ZonesUpTo(m[z.category := Get(m, z.category) + [Triple(z.start, z.end, z.rep)]], rows,
                                        n + 1)
  {
    var z := rows[n];
    var after, next := m[z.category := Get(m, z.category) + [Triple(z.start, z.end, z.rep)]], n + 1;
    TriplesSnoc(rows, n);
    forall c ensures ListsZones(after, rows, next, c) {
      assert ListsZones(m, rows, n, c);
    }
  }

  lemma ZonesAll(m: map<nat, seq<Triple>>, rows: seq<ZoneRow>)
    requires ZonesUpTo(m, rows, |rows|)
    ensures m == ZoneMapOf(rows)
  {
    assert rows[..|rows|] == rows;
    forall c | c in m ensures m[c] == ZoneMapOf(rows)[c] {
      assert ListsZones(m, rows, |rows|, c);
    }
  }

  /** The setdefault loop that groups zones by category. */
  method GroupZones(rows: seq<ZoneRow>) returns (m: map<nat, seq<Triple>>)
    ensures m == ZoneMapOf(rows)
  {
    m := map[];
    var i := 0;
    while i < |rows|
      invariant 0 <= i <= |rows|
      invariant ZonesUpTo(m, rows, i)
    {
      ZonesStep(m, rows, i);
      var z := rows[i];
      m := m[z.category := Get(m, z.category) + [Triple(z.start, z.end, z.rep)]];
      i := i + 1;
    }
    ZonesAll(m, rows);
  }

  lemma TriplesSnoc(rows: seq<ZoneRow>, i: nat)
    requires i < |rows|
    ensures CategoriesIn(rows[..i + 1]) == CategoriesIn(rows[..i]) + {rows[i].category}
    ensures forall c :: (Gather(rows[..i + 1], TripleOf(c)) ==
                         Gather(rows[..i], TripleOf(c)) +
                         if rows[i].category == c then [Triple(rows[i].start, rows[i].end, rows[i].rep)] else [])
  {
    forall c: nat ensures Gather(rows[..i + 1], TripleOf(c)) ==
      Gather(rows[..i], TripleOf(c)) + if rows[i].category == c then [Triple(rows[i].start, rows[i].end, rows[i].rep)]
        else []
    {
      GatherSnoc(rows, i, TripleOf(c));
    }
    assert rows[..i + 1] == rows[..i] + [rows[i]];
  }

  /** _find_representative: the first listed zone that covers the whole stretch. */
  function FindRepresentative(zones: seq<Triple>, t1: Date, t2: Date): Option<Date> {
    if zones == [] then None
    else if zones[0].start <= t1 && zones[0].end >= t2 then Some(zones[0].rep)
    else FindRepresentative(zones[1..], t1, t2)
  }

  function RangeOf(z: ZoneRow): ZoneRange {
    ZoneRange(z.start, z.end)
  }

  /** On a stretch that no zone cuts, asking for the whole stretch is asking for any of its days. */
  lemma {:induction false} StretchIsAnyDay(rows: seq<ZoneRow>, category: nat, tramo: Tramo, t: Date)
    requires tramo.Contains(t)
    requires forall z :: z in rows ==> Aligned(RangeOf(z), tramo)
    ensures FindRepresentative(Gather(rows, TripleOf(category)), tramo.first, tramo.last) == FirstRep(rows, category, t)
  {
    if rows != [] {
      StretchIsAnyDay(rows[1..], category, tramo, t);
      var rest := Gather(rows[1..], TripleOf(category));
      var z := rows[0];
      assert Aligned(RangeOf(z), tramo);
      assert (z.start <= tramo.first && tramo.last <= z.end) <==> z.start <= t <= z.end;
      if z.category == category {
        assert ([Triple(z.start, z.end, z.rep)] + rest)[1..] == rest;
      } else {
        assert [] + rest == rest;
      }
    }
  }

  // ---------------------------------------------------------------- observations

  /** _fetch_observations: the latest prices of the requested categories, dates and durations. */
  function FetchObservations(db: Tables, offer: Offer, ids: set<nat>, reps: set<Date>,
                             durations: set<nat>): map<PriceKey, real>
  {
    map k | k in db.prices && k.offer == offer && k.category in ids && k.pickup in reps && k.duration in durations ::
      db.prices[k]
  }

  function Reps(rows: seq<ZoneRow>): set<Date> {
    set z | z in rows :: z.rep
  }

  lemma {:induction false} FirstRepIsListed(rows: seq<ZoneRow>, category: nat, t: Date)
    ensures FirstRep(rows, category, t).Some? ==> FirstRep(rows, category, t).value in Reps(rows)
  {
    if rows != [] {
      FirstRepIsListed(rows[1..], category, t);
    }
  }
}
