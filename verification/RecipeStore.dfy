/** The versioned recipe table: saving appends a version and makes it the provider's only active row. */
module RecipeStore {
  import opened Comprehension
  import opened RecipeDocument

  datatype Row = Row(provider: nat, version: nat, recipe: Document, active: bool)

  datatype Save = Save(provider: nat, recipe: Recipe)

  /** func.max(version) for a provider, 0 when it has no rows. */
  function MaxVersion(rows: seq<Row>, p: nat): nat {
    if rows == [] then 0
    else
      var last, m := rows[|rows| - 1], MaxVersion(rows[..|rows| - 1], p);
      if last.provider == p && last.version > m then last.version else m
  }

  function Deactivated(rows: seq<Row>, p: nat): seq<Row> {
    seq(|rows|, i requires 0 <= i < |rows| => if rows[i].provider == p then rows[i].(active := false) else rows[i])
  }

  /** The table after one save. */
  function AfterSave(rows: seq<Row>, s: Save): seq<Row> {
    Deactivated(rows, s.provider) + [Row(s.provider, MaxVersion(rows, s.provider) + 1, ToDocument(s.recipe), true)]
  }

  /** The table after a whole history of saves, for any providers in any order. */
  function History(saves: seq<Save>): seq<Row> {
    if saves == [] then [] else AfterSave(History(saves[..|saves| - 1]), saves[|saves| - 1])
  }

  /** The partial unique index: one active row per provider. */
  ghost predicate OneActive(rows: seq<Row>) {
    forall i, j ::
      0 <= i < j < |rows| && rows[i].active && rows[j].active ==> rows[i].provider != rows[j].provider
  }

  /** How many saves a provider has had. */
  function Count(saves: seq<Save>, p: nat): nat {
    if saves == [] then 0
    else Count(saves[..|saves| - 1], p) + if saves[|saves| - 1].provider == p then 1 else 0
  }

  /** No later save is for the same provider. */
  ghost predicate IsLatest(saves: seq<Save>, i: nat)
    requires i < |saves|
  {
    forall j :: i < j < |saves| ==> saves[j].provider != saves[i].provider
  }

  /** The last recipe saved for a provider. */
  function LastSaved(saves: seq<Save>, p: nat): Option<Recipe> {
    if saves == [] then None
    else if saves[|saves| - 1].provider == p then Some(saves[|saves| - 1].recipe)
    else LastSaved(saves[..|saves| - 1], p)
  }

  // ---------------------------------------------------------------- every history

  /** The i-th save owns the i-th row, numbered by how many saves its provider had up to then, and active
      while no later save is for that provider. */
  ghost predicate RowIsExact(saves: seq<Save>, i: nat, row: Row)
    requires i < |saves|
  {
    && row.provider == saves[i].provider && row.recipe == ToDocument(saves[i].recipe)
    && row.version == Count(saves[..i + 1], saves[i].provider)
    && (row.active <==> IsLatest(saves, i))
  }

  lemma {:induction false} HistoryLength(saves: seq<Save>)
    ensures |History(saves)| == |saves|
  {
    if saves != [] {
      HistoryLength(saves[..|saves| - 1]);
    }
  }

  lemma LatestInFront(saves: seq<Save>, i: nat)
    requires i < |saves| - 1 && saves[|saves| - 1].provider != saves[i].provider
    ensures IsLatest(saves, i) <==> IsLatest(saves[..|saves| - 1], i)
  {
    var front := saves[..|saves| - 1];
    if IsLatest(front, i) {
      forall j | i < j < |saves| ensures saves[j].provider != saves[i].provider {
        assert j < |front| ==> front[j].provider != front[i].provider;
      }
    }
    if IsLatest(saves, i) {
      forall j | i < j < |front| ensures front[j].provider != front[i].provider {
        assert saves[j].provider != saves[i].provider;
      }
    }
  }

  /** Every row of every history, exactly. */
  lemma {:induction false} RowOfHistory(saves: seq<Save>, i: nat)
    requires i < |saves|
    ensures |History(saves)| == |saves| && RowIsExact(saves, i, History(saves)[i])
  {
    var front, last := saves[..|saves| - 1], saves[|saves| - 1];
    HistoryLength(saves);
    HistoryLength(front);
    if i < |front| {
      RowOfHistory(front, i);
      assert saves[..i + 1] == front[..i + 1];
      if last.provider != saves[i].provider {
        LatestInFront(saves, i);
      } else {
        assert !IsLatest(saves, i);
      }
    } else {
      MaxVersionIsCount(front, last.provider);
      assert saves[..i + 1] == saves;
    }
  }

  lemma RowsOfHistory(saves: seq<Save>)
    ensures |History(saves)| == |saves|
    ensures forall i :: 0 <= i < |saves| ==> RowIsExact(saves, i, History(saves)[i])
  {
    HistoryLength(saves);
    forall i | 0 <= i < |saves| ensures RowIsExact(saves, i, History(saves)[i]) {
      RowOfHistory(saves, i);
    }
  }

  lemma {:induction false} MaxVersionDeactivated(rows: seq<Row>, p: nat, q: nat)
    ensures MaxVersion(Deactivated(rows, q), p) == MaxVersion(rows, p)
  {
    if rows != [] {
      var front := rows[..|rows| - 1];
      MaxVersionDeactivated(front, p, q);
      assert Deactivated(rows, q)[..|rows| - 1] == Deactivated(front, q);
    }
  }

  lemma {:induction false} MaxVersionIsCount(saves: seq<Save>, p: nat)
    ensures MaxVersion(History(saves), p) == Count(saves, p)
  {
    if saves != [] {
      var front, last := saves[..|saves| - 1], saves[|saves| - 1];
      var rows := History(front);
      MaxVersionIsCount(front, p);
      MaxVersionIsCount(front, last.provider);
      MaxVersionDeactivated(rows, p, last.provider);
      assert History(saves)[..|History(saves)| - 1] == Deactivated(rows, last.provider);
    }
  }

  lemma HistoryHasOneActive(saves: seq<Save>)
    ensures OneActive(History(saves))
  {
    RowsOfHistory(saves);
    var rows := History(saves);
    forall i, j | 0 <= i < |rows| && 0 <= j < |rows| && rows[i].active && rows[j].active &&
      rows[i].provider == rows[j].provider
      ensures i == j
    {
      assert IsLatest(saves, i) && IsLatest(saves, j);
      assert saves[i].provider == saves[j].provider;
    }
  }

  function VersionOf(p: nat): Row -> Option<nat> {
    (r: Row) => if r.provider == p then Some(r.version) else None
  }

  lemma {:induction false} GatherVersionsDeactivated(rows: seq<Row>, p: nat, q: nat)
    ensures Gather(Deactivated(rows, q), VersionOf(p)) == Gather(rows, VersionOf(p))
  {
    if rows != [] {
      GatherVersionsDeactivated(rows[1..], p, q);
      assert Deactivated(rows, q)[1..] == Deactivated(rows[1..], q);
    }
  }

  /** A provider's versions, in the order of the table, are exactly 1, 2, ..., n. */
  lemma {:induction false} VersionsAreConsecutive(saves: seq<Save>, p: nat)
    ensures Gather(History(saves), VersionOf(p)) == seq(Count(saves, p), i => i + 1)
  {
    if saves != [] {
      var front, last := saves[..|saves| - 1], saves[|saves| - 1];
      var row := History(saves)[|History(saves)| - 1];
      VersionsAreConsecutive(front, p);
      MaxVersionIsCount(front, last.provider);
      GatherVersionsDeactivated(History(front), p, last.provider);
      GatherSplit(Deactivated(History(front), last.provider), [row], VersionOf(p));
    }
  }

  lemma {:induction false} CountBound(saves: seq<Save>, k: nat, p: nat)
    requires k <= |saves|
    ensures Count(saves[..k], p) <= Count(saves, p)
  {
    if k < |saves| {
      CountBound(saves[..|saves| - 1], k, p);
      assert saves[..|saves| - 1][..k] == saves[..k];
    } else {
      assert saves[..k] == saves;
    }
  }

  /** An active row carries its provider's highest version. */
  lemma ActiveIsHighest(saves: seq<Save>, i: nat, j: nat)
    requires i < |History(saves)| && j < |History(saves)|
    requires History(saves)[i].active && History(saves)[j].provider == History(saves)[i].provider
    ensures History(saves)[j].version <= History(saves)[i].version
    ensures History(saves)[j].version == History(saves)[i].version ==> i == j
  {
    RowsOfHistory(saves);
    var p := saves[i].provider;
    assert RowIsExact(saves, i, History(saves)[i]) && RowIsExact(saves, j, History(saves)[j]);
    if j < i {
      CountBound(saves[..i], j + 1, p);
      assert saves[..i][..j + 1] == saves[..j + 1];
      assert saves[..i + 1][..i] == saves[..i] && saves[..i + 1][i] == saves[i];
    }
  }

  /** The row of the latest save, found from the end. */
  lemma {:induction false} LastSavedMeaning(saves: seq<Save>, p: nat)
    ensures LastSaved(saves, p) == None <==> forall i :: 0 <= i < |saves| ==> saves[i].provider != p
    ensures forall i :: 0 <= i < |saves| && saves[i].provider == p && IsLatest(saves, i) ==>
      LastSaved(saves, p) == Some(saves[i].recipe)
    ensures LastSaved(saves, p).Some? ==> exists i :: 0 <= i < |saves| && saves[i].provider == p && IsLatest(saves, i)
  {
    if saves != [] {
      var front, last := saves[..|saves| - 1], saves[|saves| - 1];
      LastSavedMeaning(front, p);
      if last.provider == p {
        assert IsLatest(saves, |saves| - 1);
      } else {
        forall i | 0 <= i < |front| && saves[i].provider == p
          ensures IsLatest(saves, i) <==> IsLatest(front, i)
        {
          LatestInFront(saves, i);
        }
        if LastSaved(saves, p).Some? {
          var i :| 0 <= i < |front| && front[i].provider == p && IsLatest(front, i);
          assert saves[i].provider == p && IsLatest(saves, i);
        }
        forall i | 0 <= i < |saves| && saves[i].provider == p ensures i < |front| && front[i].provider == p {
        }
      }
    }
  }

  /** One more save: the provider's rows are deactivated, and the new one carries its number of saves. */
  lemma SavedOnce(saves: seq<Save>, s: Save)
    ensures var rows := History(saves);
      var row := Row(s.provider, Count(saves + [s], s.provider), ToDocument(s.recipe), true);
      && row.version == MaxVersion(rows, s.provider) + 1
      && History(saves + [s]) == Deactivated(rows, s.provider) + [row]
  {
    var all := saves + [s];
    assert all[..|all| - 1] == saves;
    MaxVersionIsCount(saves, s.provider);
  }

  ghost predicate ActiveOf(rows: seq<Row>, p: nat, i: nat) {
    i < |rows| && rows[i].provider == p && rows[i].active
  }

  /** The active row of a provider holds the last recipe saved for it; without one there was no save. */
  lemma ActiveIsLastSaved(saves: seq<Save>, p: nat)
    ensures forall i: nat :: ActiveOf(History(saves), p, i) ==>
      LastSaved(saves, p).Some? && History(saves)[i].recipe == ToDocument(LastSaved(saves, p).value)
    ensures (forall i: nat :: !ActiveOf(History(saves), p, i)) ==>
      LastSaved(saves, p) == None && forall row :: row in History(saves) ==> row.provider != p
  {
    var rows := History(saves);
    RowsOfHistory(saves);
    LastSavedMeaning(saves, p);
    forall i: nat | ActiveOf(rows, p, i)
      ensures LastSaved(saves, p).Some? && rows[i].recipe == ToDocument(LastSaved(saves, p).value)
    {
      assert RowIsExact(saves, i, rows[i]);
    }
    if LastSaved(saves, p).Some? {
      var i :| 0 <= i < |saves| && saves[i].provider == p && IsLatest(saves, i);
      assert RowIsExact(saves, i, rows[i]);
      assert ActiveOf(rows, p, i);
    }
    forall row | row in rows ensures row.provider == p ==> LastSaved(saves, p).Some? {
      var i :| 0 <= i < |rows| && rows[i] == row;
      assert RowIsExact(saves, i, rows[i]);
    }
  }

  // ---------------------------------------------------------------- the repository

  /** What reading a saved recipe back gives. */
  function Loaded(saved: Option<Recipe>): Option<Result<Recipe, Error>> {
    if saved == None then None else Some(FromDocument(ToDocument(saved.value)))
  }

  /** ProviderRecipeRepository over its table. */
  class Repository {
    var rows: seq<Row>
    ghost var saves: seq<Save>

    ghost predicate Valid()
      reads this
    {
      rows == History(saves)
    }

    constructor ()
      ensures Valid() && saves == []
    {
      rows := [];
      saves := [];
    }

    /** _next_version */
    method NextVersion(p: nat) returns (v: nat)
      ensures v == MaxVersion(rows, p) + 1
    {
      var m, i := 0, 0;
      while i < |rows|
        invariant 0 <= i <= |rows|
        invariant m == MaxVersion(rows[..i], p)
      {
        if rows[i].provider == p && rows[i].version > m {
          m := rows[i].version;
        }
        assert rows[..i + 1][..i] == rows[..i];
        i := i + 1;
      }
      assert rows[..|rows|] == rows;
      v := m + 1;
    }

    /** The UPDATE statement; the unique index holds after it. */
    method Deactivate(p: nat)
      requires OneActive(rows)
      modifies this`rows
      ensures rows == Deactivated(old(rows), p) && OneActive(rows)
      ensures forall r :: r in rows && r.provider == p ==> !r.active
    {
      var i := 0;
      ghost var before := rows;
      while i < |rows|
        invariant 0 <= i <= |rows| == |before|
        invariant forall j :: 0 <= j < i ==> rows[j] == Deactivated(before, p)[j]
        invariant forall j :: i <= j < |rows| ==> rows[j] == before[j]
      {
        if rows[i].provider == p && rows[i].active {
          rows := rows[i := rows[i].(active := false)];
        }
        i := i + 1;
      }
      assert rows == Deactivated(before, p);
    }

    /** The INSERT statement; the unique index rejects a second active row of a provider. */
    method Insert(row: Row) returns (accepted: bool)
      requires OneActive(rows)
      modifies this`rows
      ensures OneActive(rows)
      ensures accepted <==> !row.active || forall r :: r in old(rows) && r.provider == row.provider ==> !r.active
      ensures rows == if accepted then old(rows) + [row] else old(rows)
    {
      accepted := !row.active || forall r :: r in rows && r.provider == row.provider ==> !r.active;
      if accepted {
        rows := rows + [row];
      }
    }

    /** The two statements in turn: neither meets the unique index. */
    method Append(p: nat, recipe: Document) returns (row: Row)
      requires OneActive(rows)
      modifies this`rows
      ensures row == Row(p, MaxVersion(old(rows), p) + 1, recipe, true)
      ensures rows == Deactivated(old(rows), p) + [row] && row in rows && |rows| == |old(rows)| + 1
      ensures forall i :: 0 <= i < |old(rows)| && old(rows)[i].provider != p ==> rows[i] == old(rows)[i]
    {
      var version := NextVersion(p);
      Deactivate(p);
      row := Row(p, version, recipe, true);
      var accepted := Insert(row);
      assert accepted;
    }

    /** save_recipe: no statement of it meets the unique index, and the history grows by this save. */
    method SaveRecipe(p: nat, recipe: Recipe) returns (row: Row)
      requires Valid()
      modifies this
      ensures Valid() && saves == old(saves) + [Save(p, recipe)]
      ensures row == Row(p, Count(saves, p), ToDocument(recipe), true) && row in rows
      ensures |rows| == |old(rows)| + 1
      ensures forall i :: 0 <= i < |old(rows)| && old(rows)[i].provider != p ==> rows[i] == old(rows)[i]
    {
      HistoryHasOneActive(saves);
      SavedOnce(saves, Save(p, recipe));
      row := Append(p, ToDocument(recipe));
      saves := saves + [Save(p, recipe)];
    }

    /** get_active_recipe: the last recipe saved for the provider, read back from its stored form. */
    method GetActiveRecipe(p: nat) returns (r: Option<Result<Recipe, Error>>)
      requires Valid()
      ensures r == Loaded(LastSaved(saves, p))
      ensures r == None <==> forall row :: row in rows ==> row.provider != p
    {
      ActiveIsLastSaved(saves, p);
      var i := 0;
      while i < |rows|
        invariant 0 <= i <= |rows|
        invariant forall j: nat :: j < i ==> !ActiveOf(rows, p, j)
      {
        if rows[i].provider == p && rows[i].active {
          assert ActiveOf(rows, p, i) && rows[i] in rows;
          return Some(FromDocument(rows[i].recipe));
        }
        i := i + 1;
      }
      r := None;
    }

    /** What was saved is what is used, until the next save for the provider. */
    method SaveThenGet(p: nat, recipe: Recipe) returns (r: Option<Result<Recipe, Error>>)
      requires Valid() && forall e :: e in recipe.fieldExtractors ==> Storable(e)
      modifies this
      ensures Valid() && r == Some(Ok(recipe))
      ensures forall q :: q != p ==> LastSaved(saves, q) == LastSaved(old(saves), q)
    {
      var row := SaveRecipe(p, recipe);
      assert saves[..|saves| - 1] == old(saves);
      RoundTripIff(recipe);
      r := GetActiveRecipe(p);
    }
  }
}
