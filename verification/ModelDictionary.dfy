/** The model dictionary: an index from normalized names and aliases to entries, and the lookup that tries
    exact keys, contained keys and fuzzy candidates in that order. */
module ModelDictionary {
  import opened Comprehension
  import ModelDesignator

  /** The text functions the dictionary is built on: the key normalizer, the similarity ratio, the tokens
      of a name without its make, and whether a name carries an estate marker. */
  datatype Library = Library(
    norm: string -> string, ratio: (string, string) -> real, tokens: string -> seq<string>, estate: string -> bool)

  /** One item of the models file; values that are not objects have no entry. */
  datatype Model = Model(key: string, entry: Option<Description>)
  datatype Description = Description(make: string, model: string, aliases: seq<string>)

  datatype Entry = Entry(id: string, description: Description)

  datatype Via = Exact | Contains | Fuzzy
  datatype Match = Match(id: string, via: Via, score: real)

  const FUZZY_ACCEPT := 0.90

  // ---------------------------------------------------------------- insertion-ordered dictionaries

  datatype Dict<V> = Dict(order: seq<string>, at: map<string, V>)

  ghost predicate WellFormed<V>(d: Dict<V>) {
    && (forall k :: k in d.order <==> k in d.at)
    && forall i, j :: 0 <= i < j < |d.order| ==> d.order[i] != d.order[j]
  }

  /** d[k] = v */
  function Put<V>(d: Dict<V>, k: string, v: V): (r: Dict<V>)
    requires WellFormed(d)
    ensures WellFormed(r) && r.at == d.at[k := v]
  {
    Dict(if k in d.at then d.order else d.order + [k], d.at[k := v])
  }

  /** d.setdefault(k, v) */
  function SetDefault<V>(d: Dict<V>, k: string, v: V): (r: Dict<V>)
    requires WellFormed(d)
    ensures WellFormed(r) && r.at == if k in d.at then d.at else d.at[k := v]
  {
    if k in d.at then d else Put(d, k, v)
  }

  /** d.items() */
  function Items<V>(d: Dict<V>): seq<(string, V)>
    requires WellFormed(d)
  {
    seq(|d.order|, i requires 0 <= i < |d.order| && d.order[i] in d.order => (d.order[i], d.at[d.order[i]]))
  }

  lemma ItemsAreEntries<V>(d: Dict<V>, k: string, v: V)
    requires WellFormed(d)
    ensures (k, v) in Items(d) <==> k in d.at && d.at[k] == v
  {
    if k in d.at {
      var i :| 0 <= i < |d.order| && d.order[i] == k;
      assert Items(d)[i] == (k, d.at[k]);
    }
  }

  // ---------------------------------------------------------------- building the index

  predicate Documentation(key: string) {
    |key| > 0 && key[0] == '_'
  }

  /** Documentation keys and anything not shaped like an entry are dropped. */
  function Entries(models: seq<Model>): seq<Entry> {
    Gather(models, (m: Model) => if Documentation(m.key) || m.entry == None then None
      else Some(Entry(m.key, m.entry.value)))
  }

  predicate Known(entries: seq<Entry>, id: string) {
    exists i :: 0 <= i < |entries| && entries[i].id == id
  }

  function Find(entries: seq<Entry>, id: string): (e: Entry)
    requires Known(entries, id)
    ensures e in entries && e.id == id
  {
    if entries[0].id == id then entries[0] else Find(entries[1..], id)
  }

  /** The canonical make and model key. */
  function FullKey(lib: Library, e: Entry): string {
    lib.norm(e.description.make + " " + e.description.model)
  }

  function ModelKey(lib: Library, e: Entry): string {
    lib.norm(e.description.model)
  }

  /** What one step of the construction does to the index. */
  datatype Step = Assign(key: string, id: string) | Default(key: string, id: string)

  function AliasSteps(lib: Library, aliases: seq<string>, id: string): seq<Step> {
    seq(|aliases|, i requires 0 <= i < |aliases| => Default(lib.norm(aliases[i]), id))
  }

  function EntrySteps(lib: Library, e: Entry): seq<Step> {
    [Assign(FullKey(lib, e), e.id)] + AliasSteps(lib, e.description.aliases, e.id)
  }

  function AllEntrySteps(lib: Library, entries: seq<Entry>): seq<Step> {
    if entries == [] then []
    else AllEntrySteps(lib, entries[..|entries| - 1]) + EntrySteps(lib, entries[|entries| - 1])
  }

  /** A global alias counts when its target is an entry. */
  function GlobalStep(lib: Library, entries: seq<Entry>): ((string, string)) -> Option<Step> {
    (a: (string, string)) => if Documentation(a.0) || !Known(entries, a.1) then None
      else Some(Default(lib.norm(a.0), a.1))
  }

  function Steps(lib: Library, entries: seq<Entry>, aliases: seq<(string, string)>): seq<Step> {
    AllEntrySteps(lib, entries) + Gather(aliases, GlobalStep(lib, entries))
  }

  function Apply(d: Dict<string>, s: Step): (r: Dict<string>)
    requires WellFormed(d)
    ensures WellFormed(r)
  {
    match s
    case Assign(k, id) => Put(d, k, id)
    case Default(k, id) => SetDefault(d, k, id)
  }

  function Index(steps: seq<Step>): (r: Dict<string>)
    ensures WellFormed(r)
  {
    if steps == [] then Dict([], map[]) else Apply(Index(steps[..|steps| - 1]), steps[|steps| - 1])
  }

  lemma IndexSnoc(steps: seq<Step>, s: Step)
    ensures Index(steps + [s]) == Apply(Index(steps), s)
  {
    assert (steps + [s])[..|steps|] == steps;
  }

  lemma AliasSnoc(lib: Library, aliases: seq<string>, j: nat, id: string, before: seq<Step>)
    requires j < |aliases|
    ensures before + AliasSteps(lib, aliases[..j + 1],
                                id) == before + AliasSteps(lib, aliases[..j], id) + [Default(lib.norm(aliases[j]), id)]
  {
  }

  lemma EntryStepsAppend(lib: Library, e: Entry, before: seq<Step>)
    ensures before + EntrySteps(lib, e) == before + [Assign(FullKey(lib, e),
                                                            e.id)] + AliasSteps(lib, e.description.aliases, e.id)
  {
  }

  /** What one global alias adds. */
  function Added(lib: Library, entries: seq<Entry>, alias: (string, string)): seq<Step> {
    if GlobalStep(lib, entries)(alias).Some? then [GlobalStep(lib, entries)(alias).value] else []
  }

  lemma GlobalNext(lib: Library, entries: seq<Entry>, aliases: seq<(string, string)>, k: nat, done: seq<Step>)
    requires k < |aliases|
    ensures var f := GlobalStep(lib, entries);
      done + Added(lib, entries, aliases[k]) + Gather(aliases[k + 1..], f) == done + Gather(aliases[k..], f)
  {
    assert aliases[k..][1..] == aliases[k + 1..];
  }

  function LastAssigned(steps: seq<Step>, k: string): Option<string> {
    if steps == [] then None
    else
      var last := steps[|steps| - 1];
      if last.Assign? && last.key == k then Some(last.id) else LastAssigned(steps[..|steps| - 1], k)
  }

  function FirstDefault(steps: seq<Step>, k: string): Option<string> {
    if steps == [] then None
    else if steps[0].Default? && steps[0].key == k then Some(steps[0].id)
    else FirstDefault(steps[1..], k)
  }

  lemma {:induction false} FirstDefaultSnoc(steps: seq<Step>, s: Step, k: string)
    ensures FirstDefault(steps + [s], k) ==
      if FirstDefault(steps, k).Some? then FirstDefault(steps, k)
      else if s.Default? && s.key == k then Some(s.id) else None
  {
    if steps == [] {
      assert steps + [s] == [s];
    } else {
      assert (steps + [s])[1..] == steps[1..] + [s];
      FirstDefaultSnoc(steps[1..], s, k);
    }
  }

  function At(d: Dict<string>, k: string): Option<string> {
    if k in d.at then Some(d.at[k]) else None
  }

  lemma IndexNext(front: seq<Step>, last: Step, k: string)
    ensures At(Index(front + [last]), k) ==
      if last.key == k && (last.Assign? || At(Index(front), k) == None) then Some(last.id) else At(Index(front), k)
  {
    assert (front + [last])[..|front|] == front;
  }

  /** The value of a key, whatever the order of the steps: the last assignment wins, and a default counts
      only for a key nobody assigns. */
  lemma {:induction false} IndexValue(steps: seq<Step>, k: string)
    ensures At(Index(steps), k) ==
      if LastAssigned(steps, k).Some? then LastAssigned(steps, k) else FirstDefault(steps, k)
  {
    if steps != [] {
      var front, last := steps[..|steps| - 1], steps[|steps| - 1];
      IndexValue(front, k);
      IndexNext(front, last, k);
      FirstDefaultSnoc(front, last, k);
      assert front + [last] == steps;
    }
  }

  lemma {:induction false} LastAssignedSplit(a: seq<Step>, b: seq<Step>, k: string)
    ensures LastAssigned(a + b, k) == if LastAssigned(b, k).Some? then LastAssigned(b, k) else LastAssigned(a, k)
  {
    if b == [] {
      assert a + b == a;
    } else {
      assert (a + b)[..|a + b| - 1] == a + b[..|b| - 1];
      LastAssignedSplit(a, b[..|b| - 1], k);
    }
  }

  lemma {:induction false} DefaultsAssignNothing(steps: seq<Step>, k: string)
    requires forall s :: s in steps ==> s.Default?
    ensures LastAssigned(steps, k) == None
  {
    if steps != [] {
      assert steps[|steps| - 1] in steps;
      DefaultsAssignNothing(steps[..|steps| - 1], k);
    }
  }

  /** The last entry whose canonical key this is. */
  function CanonicalOwner(lib: Library, entries: seq<Entry>, k: string): Option<string> {
    if entries == [] then None
    else
      var last := entries[|entries| - 1];
      if FullKey(lib, last) == k then Some(last.id) else CanonicalOwner(lib, entries[..|entries| - 1], k)
  }

  lemma {:induction false} EntriesAssign(lib: Library, entries: seq<Entry>, k: string)
    ensures LastAssigned(AllEntrySteps(lib, entries), k) == CanonicalOwner(lib, entries, k)
  {
    if entries != [] {
      var front, last := entries[..|entries| - 1], entries[|entries| - 1];
      EntriesAssign(lib, front, k);
      var own := AliasSteps(lib, last.description.aliases, last.id);
      DefaultsAssignNothing(own, k);
      LastAssignedSplit([Assign(FullKey(lib, last), last.id)], own, k);
      LastAssignedSplit(AllEntrySteps(lib, front), EntrySteps(lib, last), k);
    }
  }

  lemma GlobalsAreDefaults(lib: Library, entries: seq<Entry>, aliases: seq<(string, string)>, s: Step)
    requires s in Gather(aliases, GlobalStep(lib, entries))
    ensures s.Default? && Known(entries, s.id)
  {
    GatherMembers(aliases, GlobalStep(lib, entries), s);
  }

  /** No alias, of an entry or global, shadows a canonical key: such a key always names the last entry it
      belongs to; any other key names the entry of its first alias. */
  lemma IndexMeaning(lib: Library, entries: seq<Entry>, aliases: seq<(string, string)>, k: string)
    ensures var index, owner := Index(Steps(lib, entries, aliases)).at, CanonicalOwner(lib, entries, k);
      (if k in index then Some(index[k]) else None) == if owner.Some? then owner
        else FirstDefault(Steps(lib, entries, aliases), k)
  {
    var globals := Gather(aliases, GlobalStep(lib, entries));
    forall s | s in globals ensures s.Default? {
      GlobalsAreDefaults(lib, entries, aliases, s);
    }
    IndexValue(Steps(lib, entries, aliases), k);
    EntriesAssign(lib, entries, k);
    DefaultsAssignNothing(globals, k);
    LastAssignedSplit(AllEntrySteps(lib, entries), globals, k);
  }

  lemma {:induction false} FirstDefaultSplit(a: seq<Step>, b: seq<Step>, k: string)
    ensures FirstDefault(a + b, k) == if FirstDefault(a, k).Some? then FirstDefault(a, k) else FirstDefault(b, k)
  {
    if a == [] {
      assert a + b == b;
    } else {
      assert (a + b)[1..] == a[1..] + b;
      FirstDefaultSplit(a[1..], b, k);
    }
  }

  ghost predicate HasAlias(lib: Library, e: Entry, k: string) {
    exists j :: 0 <= j < |e.description.aliases| && lib.norm(e.description.aliases[j]) == k
  }

  lemma {:induction false} OwnAliases(lib: Library, aliases: seq<string>, id: string, k: string)
    ensures FirstDefault(AliasSteps(lib, aliases, id), k) ==
      if exists j :: 0 <= j < |aliases| && lib.norm(aliases[j]) == k then Some(id) else None
  {
    if aliases != [] {
      OwnAliases(lib, aliases[1..], id, k);
      assert AliasSteps(lib, aliases, id)[1..] == AliasSteps(lib, aliases[1..], id);
      if j :| 0 <= j < |aliases| && lib.norm(aliases[j]) == k {
        assert j > 0 ==> aliases[1..][j - 1] == aliases[j];
      }
    }
  }

  /** The entries' own aliases: the first entry that has it. */
  lemma {:induction false} EntryAliases(lib: Library, entries: seq<Entry>, k: string)
    ensures match FirstDefault(AllEntrySteps(lib, entries), k)
      case None => forall e :: e in entries ==> !HasAlias(lib, e, k)
      case Some(id) => exists i :: FirstWithAlias(lib, entries, k, i) && entries[i].id == id
  {
    if entries != [] {
      var n := |entries| - 1;
      var front, last := entries[..n], entries[n];
      EntryAliases(lib, front, k);
      var own := AliasSteps(lib, last.description.aliases, last.id);
      OwnAliases(lib, last.description.aliases, last.id, k);
      assert EntrySteps(lib, last)[1..] == own;
      FirstDefaultSplit(AllEntrySteps(lib, front), EntrySteps(lib, last), k);
      assert entries == front + [last];
      if FirstDefault(AllEntrySteps(lib, front), k).Some? {
        var i :| FirstWithAlias(lib, front, k, i) && front[i].id == FirstDefault(AllEntrySteps(lib, front), k).value;
        assert FirstWithAlias(lib, entries, k, i);
      } else if HasAlias(lib, last, k) {
        assert FirstWithAlias(lib, entries, k, n);
      }
    }
  }

  ghost predicate FirstWithAlias(lib: Library, entries: seq<Entry>, k: string, i: int) {
    0 <= i < |entries| && HasAlias(lib, entries[i], k) && forall j :: 0 <= j < i ==> !HasAlias(lib, entries[j], k)
  }

  /** A global alias that counts: no documentation, and for an entry there is. */
  ghost predicate Global(lib: Library, entries: seq<Entry>, alias: (string, string), k: string) {
    && (alias.0 != "" ==> alias.0[0] != '_') && lib.norm(alias.0) == k && exists e :: e in entries && e.id == alias.1
  }

  lemma GlobalIff(lib: Library, entries: seq<Entry>, alias: (string, string), k: string)
    ensures Global(lib, entries, alias, k) <==>
      GlobalStep(lib, entries)(alias).Some? && GlobalStep(lib, entries)(alias).value == Default(k, alias.1)
  {
    if Known(entries, alias.1) {
      var i :| 0 <= i < |entries| && entries[i].id == alias.1;
      assert entries[i] in entries;
    }
  }

  lemma {:induction false} GlobalAliases(lib: Library, entries: seq<Entry>, aliases: seq<(string, string)>, k: string)
    ensures match FirstDefault(Gather(aliases, GlobalStep(lib, entries)), k)
      case None => forall a :: a in aliases ==> !Global(lib, entries, a, k)
      case Some(id) => exists m :: FirstGlobal(lib, entries, aliases, k, m) && aliases[m].1 == id
  {
    if aliases != [] {
      var rest := aliases[1..];
      var steps := Gather(aliases, GlobalStep(lib, entries));
      GlobalAliases(lib, entries, rest, k);
      GlobalIff(lib, entries, aliases[0], k);
      if GlobalStep(lib, entries)(aliases[0]).Some? {
        assert steps[1..] == Gather(rest, GlobalStep(lib, entries));
      } else {
        assert steps == Gather(rest, GlobalStep(lib, entries));
      }
      if Global(lib, entries, aliases[0], k) {
        assert FirstGlobal(lib, entries, aliases, k, 0);
      } else if FirstDefault(steps, k).Some? {
        var m :| FirstGlobal(lib, entries, rest, k, m) && rest[m].1 == FirstDefault(steps, k).value;
        var next := m + 1;
        forall j | 0 <= j < next ensures !Global(lib, entries, aliases[j], k) {
          assert j > 0 ==> rest[j - 1] == aliases[j];
        }
        assert FirstGlobal(lib, entries, aliases, k, next);
      }
    }
  }

  ghost predicate FirstGlobal(lib: Library, entries: seq<Entry>, aliases: seq<(string, string)>, k: string, m: int) {
    && 0 <= m < |aliases| && Global(lib, entries, aliases[m], k)
    && forall j :: 0 <= j < m ==> !Global(lib, entries, aliases[j], k)
  }

  /** Some entry has the alias, or some global alias of that name counts. */
  ghost predicate Aliased(lib: Library, entries: seq<Entry>, aliases: seq<(string, string)>, k: string) {
    (exists e :: e in entries && HasAlias(lib, e, k)) || exists a :: a in aliases && Global(lib, entries, a, k)
  }

  /** The first entry with the alias, or, when no entry has it, the first global alias of that name. */
  ghost predicate AliasNames(lib: Library, entries: seq<Entry>, aliases: seq<(string, string)>, k: string, id: string) {
    || (exists i :: FirstWithAlias(lib, entries, k, i) && entries[i].id == id)
    || ((forall e :: e in entries ==> !HasAlias(lib, e, k)) &&
        exists m :: FirstGlobal(lib, entries, aliases, k, m) && aliases[m].1 == id)
  }

  /** What a key that is nobody's canonical key names. */
  lemma AliasMeaning(lib: Library, entries: seq<Entry>, aliases: seq<(string, string)>, k: string)
    requires forall e :: e in entries ==> FullKey(lib, e) != k
    ensures var index := Index(Steps(lib, entries, aliases)).at;
      && (k in index <==> Aliased(lib, entries, aliases, k))
      && (k in index ==> AliasNames(lib, entries, aliases, k, index[k]))
  {
    NoOwner(lib, entries, k);
    IndexMeaning(lib, entries, aliases, k);
    FirstDefaultSplit(AllEntrySteps(lib, entries), Gather(aliases, GlobalStep(lib, entries)), k);
    EntryAliases(lib, entries, k);
    GlobalAliases(lib, entries, aliases, k);
  }

  lemma {:induction false} NoOwner(lib: Library, entries: seq<Entry>, k: string)
    requires forall e :: e in entries ==> FullKey(lib, e) != k
    ensures CanonicalOwner(lib, entries, k) == None
  {
    if entries != [] {
      NoOwner(lib, entries[..|entries| - 1], k);
    }
  }

  lemma {:induction false} StepsAreKnown(lib: Library, entries: seq<Entry>, all: seq<Entry>, s: Step)
    requires s in AllEntrySteps(lib, entries)
    requires forall e :: e in entries ==> Known(all, e.id)
    ensures Known(all, s.id)
  {
    if s !in EntrySteps(lib, entries[|entries| - 1]) {
      StepsAreKnown(lib, entries[..|entries| - 1], all, s);
    }
  }

  lemma {:induction false} IndexNames(steps: seq<Step>, k: string) returns (s: Step)
    requires k in Index(steps).at
    ensures s in steps && s.id == Index(steps).at[k]
  {
    var front, last := steps[..|steps| - 1], steps[|steps| - 1];
    if last.key == k && (last.Assign? || k !in Index(front).at) {
      s := last;
    } else {
      s := IndexNames(front, k);
    }
  }

  /** Every value of the index names an entry. */
  lemma IndexIsKnown(lib: Library, entries: seq<Entry>, aliases: seq<(string, string)>, k: string)
    requires k in Index(Steps(lib, entries, aliases)).at
    ensures Known(entries, Index(Steps(lib, entries, aliases)).at[k])
  {
    var s := IndexNames(Steps(lib, entries, aliases), k);
    if s in AllEntrySteps(lib, entries) {
      StepsAreKnown(lib, entries, entries, s);
    } else {
      GlobalsAreDefaults(lib, entries, aliases, s);
    }
  }

  // ---------------------------------------------------------------- the model-only table

  /** Specific enough to stand without its make. */
  predicate Specific(key: string) {
    |key| >= 3 && !ModelDesignator.IsNumber(key)
  }

  function AddModelOnly(d: Dict<seq<string>>, key: string, id: string): (r: Dict<seq<string>>)
    requires WellFormed(d)
    ensures WellFormed(r)
  {
    if !Specific(key) then d else Put(d, key, (if key in d.at then d.at[key] else []) + [id])
  }

  function ModelOnly(lib: Library, entries: seq<Entry>): (r: Dict<seq<string>>)
    ensures WellFormed(r)
  {
    if entries == [] then Dict([], map[])
    else AddModelOnly(ModelOnly(lib, entries[..|entries| - 1]), ModelKey(lib, entries[|entries| - 1]),
                      entries[|entries| - 1].id)
  }

  function NamedBy(lib: Library, key: string): Entry -> Option<string> {
    (e: Entry) => if ModelKey(lib, e) == key && Specific(key) then Some(e.id) else None
  }

  /** A model-only key lists exactly the entries that have it, in order; short and numeric keys list none. */
  lemma {:induction false} ModelOnlyMeaning(lib: Library, entries: seq<Entry>, key: string)
    ensures var d := ModelOnly(lib, entries).at;
      && (if key in d then d[key] else []) == Gather(entries, NamedBy(lib, key))
      && (key in d ==> d[key] != [])
  {
    if entries != [] {
      ModelOnlyMeaning(lib, entries[..|entries| - 1], key);
      assert entries[..|entries| - 1 + 1] == entries;
      GatherSnoc(entries, |entries| - 1, NamedBy(lib, key));
    }
  }

  /** Names of fewer than three characters, or of digits only, are no model keys. */
  lemma NamedByMeaning(lib: Library, entries: seq<Entry>, key: string)
    ensures Gather(entries, NamedBy(lib, key)) != [] <==>
      3 <= |key| && (exists c :: c in key && c !in ModelDesignator.DIGITS) &&
        exists e :: e in entries && lib.norm(e.description.model) == key
  {
    forall c ensures ModelDesignator.IsDigit(c) <==> c in ModelDesignator.DIGITS {
      ModelDesignator.CharacterMeaning(c);
    }
    var ids := Gather(entries, NamedBy(lib, key));
    if ids != [] {
      GatherMembers(entries, NamedBy(lib, key), ids[0]);
      if !(exists c :: c in key && c !in ModelDesignator.DIGITS) {
        forall i | 0 <= i < |key| ensures ModelDesignator.IsDigit(key[i]) { assert key[i] in key; }
      }
    }
    if 3 <= |key| && exists e :: e in entries && lib.norm(e.description.model) == key {
      var e :| e in entries && lib.norm(e.description.model) == key;
      var i :| 0 <= i < |entries| && entries[i] == e;
      if c :| c in key && c !in ModelDesignator.DIGITS {
        var j :| 0 <= j < |key| && key[j] == c;
        assert !ModelDesignator.IsDigit(key[j]);
        assert NamedBy(lib, key)(entries[i]) == Some(e.id);
        GatherMembers(entries, NamedBy(lib, key), e.id);
      }
    }
  }

  lemma ModelOnlyIsKnown(lib: Library, entries: seq<Entry>, key: string)
    requires key in ModelOnly(lib, entries).at
    ensures forall id :: id in ModelOnly(lib, entries).at[key] ==> Known(entries, id)
  {
    ModelOnlyMeaning(lib, entries, key);
    forall id | id in ModelOnly(lib, entries).at[key] ensures Known(entries, id) {
      GatherMembers(entries, NamedBy(lib, key), id);
    }
  }

  // ---------------------------------------------------------------- containment

  predicate OccursAt(needle: string, hay: string, i: nat) {
    i + |needle| <= |hay| && hay[i..i + |needle|] == needle
  }

  predicate Occurs(needle: string, hay: string) {
    exists i :: 0 <= i <= |hay| && OccursAt(needle, hay, i)
  }

  /** Word-bounded containment. */
  predicate InWords(key: string, text: string) {
    Occurs(" " + key + " ", " " + text + " ")
  }

  /** The key stands in the text, with a space or the text's end on either side. */
  ghost predicate StandsIn(key: string, text: string, i: nat) {
    && i + |key| <= |text| && text[i..i + |key|] == key
    && (i > 0 ==> text[i - 1] == ' ') && (i + |key| < |text| ==> text[i + |key|] == ' ')
  }

  lemma PaddedAt(key: string, text: string, i: nat)
    ensures OccursAt(" " + key + " ", " " + text + " ", i) <==> StandsIn(key, text, i)
  {
    var needle, hay := " " + key + " ", " " + text + " ";
    if i + |key| <= |text| {
      assert hay[i..i + |needle|] == [hay[i]] + text[i..i + |key|] + [hay[i + |key| + 1]];
      assert hay[i] == if i > 0 then text[i - 1] else ' ';
      assert hay[i + |key| + 1] == if i + |key| < |text| then text[i + |key|] else ' ';
      assert needle == [' '] + key + [' '];
      var middle := text[i..i + |key|];
      assert ([hay[i]] + middle + [hay[i + |key| + 1]])[1..|key| + 1] == middle;
      assert ([' '] + key + [' '])[1..|key| + 1] == key;
    }
  }

  lemma InWordsMeaning(key: string, text: string)
    ensures InWords(key, text) <==> exists i: nat :: StandsIn(key, text, i)
  {
    var needle, hay := " " + key + " ", " " + text + " ";
    if InWords(key, text) {
      var i :| 0 <= i <= |hay| && OccursAt(needle, hay, i);
      PaddedAt(key, text, i);
    }
    if i: nat :| StandsIn(key, text, i) {
      PaddedAt(key, text, i);
      assert OccursAt(needle, hay, i);
    }
  }

  /** Best so far by key length; None while the best key is still empty. */
  function Longest(items: seq<(string, string)>, text: string): Option<(string, string)> {
    if items == [] then None
    else
      var best, last := Longest(items[..|items| - 1], text), items[|items| - 1];
      if |last.0| > (if best.Some? then |best.value.0| else 0) && InWords(last.0, text) then Some(last) else best
  }

  predicate Candidate(item: (string, string), text: string) {
    item.0 != "" && InWords(item.0, text)
  }

  /** The longest contained key, the first of them on a tie. */
  lemma {:induction false} LongestIsMaximal(items: seq<(string, string)>, text: string)
    ensures var best := Longest(items, text);
      && (best == None <==> forall item :: item in items ==> !Candidate(item, text))
      && (best.Some? ==> best.value in items && Candidate(best.value, text)
                         && forall item :: item in items && Candidate(item, text) ==> |item.0| <= |best.value.0|)
  {
    if items != [] {
      var front, last := items[..|items| - 1], items[|items| - 1];
      LongestIsMaximal(front, text);
      forall item | item in items ensures item in front || item == last {
      }
      assert last in items && forall item :: item in front ==> item in items;
    }
  }

  /** A longest contained key stands at this place, and none as long before it. */
  ghost predicate LongestAt(items: seq<(string, string)>, text: string, i: nat) {
    && i < |items| && Candidate(items[i], text)
    && forall j :: 0 <= j < |items| && Candidate(items[j], text) ==>
         |items[j].0| <= |items[i].0| && (j < i ==> |items[j].0| < |items[i].0|)
  }

  lemma {:induction false} LongestIsFirst(items: seq<(string, string)>, text: string) returns (i: nat)
    requires Longest(items, text).Some?
    ensures LongestAt(items, text, i) && Longest(items, text) == Some(items[i])
  {
    var n := |items| - 1;
    var front, last := items[..n], items[n];
    LongestIsMaximal(front, text);
    if Longest(items, text) == Longest(front, text) && Longest(front, text).Some? {
      i := LongestIsFirst(front, text);
      assert forall j :: 0 <= j < n ==> front[j] == items[j];
      if |last.0| > |items[i].0| {
        assert !InWords(last.0, text);
      }
    } else {
      i := n;
      assert forall j :: 0 <= j < n ==> front[j] in front && front[j] == items[j];
    }
  }

  lemma LongestIff(items: seq<(string, string)>, text: string)
    ensures Longest(items, text).Some? <==> exists i: nat :: LongestAt(items, text, i)
    ensures forall i: nat :: LongestAt(items, text, i) ==> Longest(items, text) == Some(items[i])
  {
    LongestIsMaximal(items, text);
    if Longest(items, text).Some? {
      var k := LongestIsFirst(items, text);
    }
    forall i: nat | LongestAt(items, text, i) ensures Longest(items, text) == Some(items[i]) {
      assert items[i] in items;
      var k := LongestIsFirst(items, text);
      assert i == k;
    }
  }

  /** The model-only keys of exactly one entry. */
  function UniqueItems(d: Dict<seq<string>>): seq<(string, string)>
    requires WellFormed(d)
  {
    Gather(Items(d), (x: (string, seq<string>)) => if |x.1| == 1 then Some((x.0, x.1[0])) else None)
  }

  /** Index keys first; model-only keys only when no index key is contained. */
  function Contained(index: Dict<string>, modelOnly: Dict<seq<string>>, text: string): Option<(string, string)>
    requires WellFormed(index) && WellFormed(modelOnly)
  {
    var best := Longest(Items(index), text);
    if best.Some? then best else Longest(UniqueItems(modelOnly), text)
  }

  // ---------------------------------------------------------------- fuzzy

  /** Similar enough, and not across model designators. */
  predicate Acceptable(lib: Library, text: string, key: string): (b: bool)
    ensures b <==> lib.ratio(text, key) >= 0.90 && !ModelDesignator.Mismatch(lib.tokens(text), lib.tokens(key))
  {
    lib.ratio(text, key) >= FUZZY_ACCEPT && !ModelDesignator.Mismatch(lib.tokens(text), lib.tokens(key))
  }

  function BestFuzzy(lib: Library, items: seq<(string, string)>, text: string): Option<(string, string)> {
    if items == [] then None
    else
      var best, last := BestFuzzy(lib, items[..|items| - 1], text), items[|items| - 1];
      if Acceptable(lib, text, last.0) && lib.ratio(text, last.0) > (if best.Some? then lib.ratio(text, best.value.0)
        else 0.0)
      then Some(last) else best
  }

  /** The most similar acceptable key; a designator conflict never hides a less similar key without one. */
  lemma {:induction false} FuzzyIsMaximal(lib: Library, items: seq<(string, string)>, text: string)
    ensures var best := BestFuzzy(lib, items, text);
      && (best == None <==> forall item :: item in items ==> !Acceptable(lib, text, item.0))
      && (best.Some? ==> best.value in items && Acceptable(lib, text, best.value.0)
                         && forall item :: item in items && Acceptable(lib, text, item.0) ==>
                              lib.ratio(text, item.0) <= lib.ratio(text, best.value.0))
  {
    if items != [] {
      var front, last := items[..|items| - 1], items[|items| - 1];
      FuzzyIsMaximal(lib, front, text);
      forall item | item in items ensures item in front || item == last {
      }
      assert last in items && forall item :: item in front ==> item in items;
    }
  }

  /** A most similar acceptable key stands at this place, and none as similar before it. */
  ghost predicate MostSimilarAt(lib: Library, items: seq<(string, string)>, text: string, i: nat) {
    && i < |items| && Acceptable(lib, text, items[i].0)
    && forall j :: 0 <= j < |items| && Acceptable(lib, text, items[j].0) ==>
         && lib.ratio(text, items[j].0) <= lib.ratio(text, items[i].0)
         && (j < i ==> lib.ratio(text, items[j].0) < lib.ratio(text, items[i].0))
  }

  lemma {:induction false} FuzzyIsFirst(lib: Library, items: seq<(string, string)>, text: string) returns (i: nat)
    requires BestFuzzy(lib, items, text).Some?
    ensures MostSimilarAt(lib, items, text, i) && BestFuzzy(lib, items, text) == Some(items[i])
  {
    var n := |items| - 1;
    var front, last := items[..n], items[n];
    FuzzyIsMaximal(lib, front, text);
    if BestFuzzy(lib, items, text) == BestFuzzy(lib, front, text) && BestFuzzy(lib, front, text).Some? {
      i := FuzzyIsFirst(lib, front, text);
      assert forall j :: 0 <= j < n ==> front[j] == items[j];
    } else {
      i := n;
      assert forall j :: 0 <= j < n ==> front[j] in front && front[j] == items[j];
    }
  }

  lemma FuzzyIff(lib: Library, items: seq<(string, string)>, text: string)
    ensures BestFuzzy(lib, items, text).Some? <==> exists i: nat :: MostSimilarAt(lib, items, text, i)
    ensures forall i: nat :: MostSimilarAt(lib, items, text, i) ==> BestFuzzy(lib, items, text) == Some(items[i])
  {
    FuzzyIsMaximal(lib, items, text);
    if BestFuzzy(lib, items, text).Some? {
      var k := FuzzyIsFirst(lib, items, text);
    }
    forall i: nat | MostSimilarAt(lib, items, text, i) ensures BestFuzzy(lib, items, text) == Some(items[i]) {
      assert items[i] in items;
      var k := FuzzyIsFirst(lib, items, text);
      assert i == k;
    }
  }

  // ---------------------------------------------------------------- lookup

  ghost predicate Sound(entries: seq<Entry>, index: Dict<string>, modelOnly: Dict<seq<string>>) {
    && WellFormed(index) && WellFormed(modelOnly)
    && forall k :: k in index.at ==> Known(entries, index.at[k])
  }

  function FuzzyMatch(lib: Library, entries: seq<Entry>, index: Dict<string>, text: string): (m: Option<Match>)
    requires WellFormed(index) && forall k :: k in index.at ==> Known(entries, index.at[k])
    ensures m.Some? ==> Known(entries, m.value.id)
  {
    FuzzyIsMaximal(lib, Items(index), text);
    var best := BestFuzzy(lib, Items(index), text);
    if best == None || best.value.1 == "" then None
    else
      ItemsAreEntries(index, best.value.0, best.value.1);
      var e := Find(entries, best.value.1);
      if lib.estate(text) != lib.estate(FullKey(lib, e)) then None
        else Some(Match(e.id, Fuzzy, lib.ratio(text, best.value.0)))
  }

  /** lookup, for a stripped text. An empty entry id never counts as found. */
  function LookupIn(lib: Library, entries: seq<Entry>, index: Dict<string>, modelOnly: Dict<seq<string>>,
                    text: string): Option<Match>
    requires Sound(entries, index, modelOnly)
  {
    if text == "" then None
    else if text in index.at && index.at[text] != "" then Some(Match(index.at[text], Exact, 1.0))
    else if text in modelOnly.at && |modelOnly.at[text]| == 1 then Some(Match(modelOnly.at[text][0], Exact, 1.0))
    else
      var found := Contained(index, modelOnly, text);
      if found.Some? && found.value.1 != "" then Some(Match(found.value.1, Contains, 1.0))
      else FuzzyMatch(lib, entries, index, text)
  }

  class Dictionary {
    const lib: Library
    const entries: seq<Entry>
    const aliases: seq<(string, string)>
    var index: Dict<string>
    var modelOnly: Dict<seq<string>>

    ghost predicate Valid()
      reads this
    {
      index == Index(Steps(lib, entries, aliases)) && modelOnly == ModelOnly(lib, entries)
    }

    constructor (lib: Library, models: seq<Model>, aliases: seq<(string, string)>)
      ensures Valid() && this.lib == lib && entries == Entries(models) && this.aliases == aliases
    {
      this.lib, this.entries, this.aliases := lib, Entries(models), aliases;
      index, modelOnly := Dict([], map[]), Dict([], map[]);
      new;
      AddEntries();
      AddGlobals(AllEntrySteps(lib, entries));
    }

    method AddEntries()
      requires index == Dict([], map[]) && modelOnly == Dict([], map[])
      modifies this`index, this`modelOnly
      ensures index == Index(AllEntrySteps(lib, entries)) && modelOnly == ModelOnly(lib, entries)
    {
      var i := 0;
      while i < |entries|
        invariant 0 <= i <= |entries|
        invariant index == Index(AllEntrySteps(lib, entries[..i]))
        invariant modelOnly == ModelOnly(lib, entries[..i])
      {
        assert entries[..i + 1][..i] == entries[..i];
        AddEntry(entries[i], AllEntrySteps(lib, entries[..i]));
        modelOnly := AddModelOnly(modelOnly, ModelKey(lib, entries[i]), entries[i].id);
        i := i + 1;
      }
      assert entries[..|entries|] == entries;
    }

    method FillGap(key: string, id: string, ghost before: seq<Step>)
      requires index == Index(before)
      modifies this`index
      ensures index == Index(before + [Default(key, id)])
    {
      IndexSnoc(before, Default(key, id));
      index := SetDefault(index, key, id);
    }

    method AddGlobal(alias: (string, string), ghost before: seq<Step>)
      requires index == Index(before)
      modifies this`index
      ensures index == Index(before + Added(lib, entries, alias))
    {
      if !Documentation(alias.0) && Known(entries, alias.1) {
        FillGap(lib.norm(alias.0), alias.1, before);
      } else {
        assert before + [] == before;
      }
    }

    /** Global aliases come last and only fill gaps. */
    method AddGlobals(ghost own: seq<Step>)
      requires index == Index(own)
      modifies this`index
      ensures index == Index(own + Gather(aliases, GlobalStep(lib, entries)))
    {
      ghost var done, all := own, own + Gather(aliases, GlobalStep(lib, entries));
      assert aliases[0..] == aliases;
      var k := 0;
      while k < |aliases|
        invariant 0 <= k <= |aliases|
        invariant index == Index(done) && done + Gather(aliases[k..], GlobalStep(lib, entries)) == all
      {
        AddGlobal(aliases[k], done);
        GlobalNext(lib, entries, aliases, k, done);
        done := done + Added(lib, entries, aliases[k]);
        k := k + 1;
      }
      assert done + [] == done;
    }

    /** One entry: its canonical key overwrites, its aliases only fill gaps. */
    method AddEntry(e: Entry, ghost before: seq<Step>)
      requires index == Index(before)
      modifies this`index
      ensures index == Index(before + EntrySteps(lib, e))
    {
      var own := e.description.aliases;
      ghost var first := before + [Assign(FullKey(lib, e), e.id)];
      IndexSnoc(before, Assign(FullKey(lib, e), e.id));
      index := Put(index, FullKey(lib, e), e.id);
      ghost var done := first;
      assert done == first + AliasSteps(lib, own[..0], e.id);
      var j := 0;
      while j < |own|
        invariant 0 <= j <= |own|
        invariant index == Index(done)
        invariant done == first + AliasSteps(lib, own[..j], e.id)
      {
        AliasSnoc(lib, own, j, e.id, first);
        FillGap(lib.norm(own[j]), e.id, done);
        done := done + [Default(lib.norm(own[j]), e.id)];
        j := j + 1;
      }
      assert own[..|own|] == own;
      EntryStepsAppend(lib, e, before);
    }

    /** The containment loop over the items of one table. */
    method LongestOf(items: seq<(string, string)>, text: string) returns (best: Option<(string, string)>)
      ensures best == Longest(items, text)
    {
      var bestKey, i := "", 0;
      best := None;
      while i < |items|
        invariant 0 <= i <= |items|
        invariant best == Longest(items[..i], text) && bestKey == if best.Some? then best.value.0 else ""
      {
        assert items[..i + 1][..i] == items[..i];
        if |items[i].0| > |bestKey| && InWords(items[i].0, text) {
          bestKey, best := items[i].0, Some(items[i]);
        }
        i := i + 1;
      }
      assert items[..|items|] == items;
    }

    method MostSimilar(text: string) returns (best: Option<(string, string)>)
      requires WellFormed(index)
      ensures best == BestFuzzy(lib, Items(index), text)
    {
      var items, bestScore, i := Items(index), 0.0, 0;
      best := None;
      while i < |items|
        invariant 0 <= i <= |items|
        invariant best == BestFuzzy(lib, items[..i], text)
        invariant bestScore == if best.Some? then lib.ratio(text, best.value.0) else 0.0
      {
        assert items[..i + 1][..i] == items[..i];
        var score := lib.ratio(text, items[i].0);
        if score >= FUZZY_ACCEPT && score > bestScore &&
          !ModelDesignator.Mismatch(lib.tokens(text), lib.tokens(items[i].0)) {
          bestScore, best := score, Some(items[i]);
        }
        i := i + 1;
      }
      assert items[..|items|] == items;
    }

    lemma ValidIsSound()
      requires Valid()
      ensures Sound(entries, index, modelOnly)
    {
      forall k | k in index.at ensures Known(entries, index.at[k]) {
        IndexIsKnown(lib, entries, aliases, k);
      }
    }

    /** lookup */
    method Lookup(text: string) returns (r: Option<Match>)
      requires Valid()
      ensures r == Found(lib, entries, aliases, text)
      ensures r.Some? ==> Known(entries, r.value.id)
    {
      ValidIsSound();
      MatchIsKnown(lib, entries, aliases, text);
      if text == "" {
        return None;
      }
      if text in index.at && index.at[text] != "" {
        return Some(Match(index.at[text], Exact, 1.0));
      }
      if text in modelOnly.at && |modelOnly.at[text]| == 1 {
        return Some(Match(modelOnly.at[text][0], Exact, 1.0));
      }
      var best := LongestOf(Items(index), text);
      if best == None {
        best := LongestOf(UniqueItems(modelOnly), text);
      }
      if best.Some? && best.value.1 != "" {
        return Some(Match(best.value.1, Contains, 1.0));
      }
      best := MostSimilar(text);
      if best.Some? && best.value.1 != "" {
        FuzzyIsMaximal(lib, Items(index), text);
        ItemsAreEntries(index, best.value.0, best.value.1);
        var e := Find(entries, best.value.1);
        if lib.estate(text) == lib.estate(FullKey(lib, e)) {
          return Some(Match(e.id, Fuzzy, lib.ratio(text, best.value.0)));
        }
      }
      r := None;
    }
  }

  // ---------------------------------------------------------------- what a lookup means

  lemma BuiltIsSound(lib: Library, entries: seq<Entry>, aliases: seq<(string, string)>)
    ensures Sound(entries, Index(Steps(lib, entries, aliases)), ModelOnly(lib, entries))
  {
    forall k | k in Index(Steps(lib, entries, aliases)).at ensures Known(entries,
                                                                         Index(Steps(lib, entries, aliases)).at[k]) {
      IndexIsKnown(lib, entries, aliases, k);
    }
  }

  /** The lookup in the dictionary built from entries and aliases. */
  function Found(lib: Library, entries: seq<Entry>, aliases: seq<(string, string)>, text: string): Option<Match> {
    BuiltIsSound(lib, entries, aliases);
    LookupIn(lib, entries, Index(Steps(lib, entries, aliases)), ModelOnly(lib, entries), text)
  }

  lemma UniqueItemMeaning(d: Dict<seq<string>>, key: string, id: string)
    requires WellFormed(d)
    ensures (key, id) in UniqueItems(d) <==> key in d.at && d.at[key] == [id]
  {
    var f := (x: (string, seq<string>)) => if |x.1| == 1 then Some((x.0, x.1[0])) else None;
    GatherMembers(Items(d), f, (key, id));
    ItemsAreEntries(d, key, [id]);
    if (key, id) in UniqueItems(d) {
      var i :| 0 <= i < |Items(d)| && f(Items(d)[i]) == Some((key, id));
      assert Items(d)[i].1 == [id] && Items(d)[i] in Items(d);
    }
    if (key, [id]) in Items(d) {
      var i :| 0 <= i < |Items(d)| && Items(d)[i] == (key, [id]);
      assert f(Items(d)[i]) == Some((key, id));
    }
  }

  /** A canonical key is always found, as the last entry that has it, whatever aliases exist. */
  lemma CanonicalIsFound(lib: Library, entries: seq<Entry>, aliases: seq<(string, string)>, i: nat)
    requires i < |entries| && FullKey(lib, entries[i]) != "" && entries[i].id != ""
    requires forall j :: i < j < |entries| ==> FullKey(lib, entries[j]) != FullKey(lib, entries[i])
    ensures Found(lib, entries, aliases, FullKey(lib, entries[i])) == Some(Match(entries[i].id, Exact, 1.0))
  {
    OwnerIsLast(lib, entries, i);
    IndexMeaning(lib, entries, aliases, FullKey(lib, entries[i]));
  }

  lemma {:induction false} OwnerIsLast(lib: Library, entries: seq<Entry>, i: nat)
    requires i < |entries|
    requires forall j :: i < j < |entries| ==> FullKey(lib, entries[j]) != FullKey(lib, entries[i])
    ensures CanonicalOwner(lib, entries, FullKey(lib, entries[i])) == Some(entries[i].id)
  {
    if i < |entries| - 1 {
      OwnerIsLast(lib, entries[..|entries| - 1], i);
    }
  }

  /** A key contained in the text that names this entry, and no contained key of the index is longer. */
  ghost predicate ByIndexKey(index: Dict<string>, text: string, key: string, id: string) {
    && key in index.at && index.at[key] == id && key != "" && InWords(key, text)
    && forall k :: k in index.at && InWords(k, text) ==> |k| <= |key|
  }

  /** The model key of this entry alone, contained in the text, and no other such key is longer; no index
      key is contained. */
  ghost predicate ByModelKey(lib: Library, entries: seq<Entry>, index: Dict<string>, text: string, key: string,
                             id: string)
  {
    && Gather(entries, NamedBy(lib, key)) == [id] && InWords(key, text)
    && (forall k :: k in index.at && k != "" ==> !InWords(k, text))
    && forall k: string :: |Gather(entries, NamedBy(lib, k))| == 1 && InWords(k, text) ==> |k| <= |key|
  }

  lemma NoItemContained(index: Dict<string>, text: string)
    requires WellFormed(index) && Longest(Items(index), text) == None
    ensures forall k :: k in index.at && k != "" ==> !InWords(k, text)
  {
    LongestIsMaximal(Items(index), text);
    forall k | k in index.at && k != "" ensures !InWords(k, text) {
      ItemsAreEntries(index, k, index.at[k]);
      assert !Candidate((k, index.at[k]), text);
    }
  }

  lemma LongestInIndex(index: Dict<string>, text: string)
    requires WellFormed(index) && Longest(Items(index), text).Some?
    ensures var best := Longest(Items(index), text).value; ByIndexKey(index, text, best.0, best.1)
  {
    var best := Longest(Items(index), text).value;
    LongestIsMaximal(Items(index), text);
    ItemsAreEntries(index, best.0, best.1);
    forall k | k in index.at && InWords(k, text) ensures |k| <= |best.0| {
      ItemsAreEntries(index, k, index.at[k]);
      assert k != "" ==> Candidate((k, index.at[k]), text);
    }
  }

  /** The unique items are the model keys of one entry. */
  lemma NamedAlone(lib: Library, entries: seq<Entry>, key: string, id: string)
    ensures (key, id) in UniqueItems(ModelOnly(lib, entries)) <==> Gather(entries, NamedBy(lib, key)) == [id]
  {
    UniqueItemMeaning(ModelOnly(lib, entries), key, id);
    ModelOnlyMeaning(lib, entries, key);
  }

  lemma LongestInModels(lib: Library, entries: seq<Entry>, index: Dict<string>, text: string)
    requires WellFormed(index) && Longest(Items(index), text) == None
    requires Longest(UniqueItems(ModelOnly(lib, entries)), text).Some?
    ensures var best := Longest(UniqueItems(ModelOnly(lib, entries)), text).value;
      ByModelKey(lib, entries, index, text, best.0, best.1)
  {
    var d := ModelOnly(lib, entries);
    var best := Longest(UniqueItems(d), text).value;
    LongestIsMaximal(UniqueItems(d), text);
    NamedAlone(lib, entries, best.0, best.1);
    NoItemContained(index, text);
    forall k: string | |Gather(entries, NamedBy(lib, k))| == 1 && InWords(k, text) ensures |k| <= |best.0| {
      var id := Gather(entries, NamedBy(lib, k))[0];
      NamedAlone(lib, entries, k, id);
      assert k != "" ==> Candidate((k, id), text);
    }
  }

  ghost predicate Longer(lib: Library, entries: seq<Entry>, index: Dict<string>, text: string, key: string, id: string)
  {
    ByIndexKey(index, text, key, id) || ByModelKey(lib, entries, index, text, key, id)
  }

  lemma ContainedIsLongest(lib: Library, entries: seq<Entry>, index: Dict<string>, text: string)
    requires WellFormed(index) && Contained(index, ModelOnly(lib, entries), text).Some?
    ensures var found := Contained(index, ModelOnly(lib, entries), text).value;
      Longer(lib, entries, index, text, found.0, found.1)
  {
    if Longest(Items(index), text).Some? {
      LongestInIndex(index, text);
    } else {
      LongestInModels(lib, entries, index, text);
    }
  }

  lemma ContainsHit(lib: Library, entries: seq<Entry>, index: Dict<string>, modelOnly: Dict<seq<string>>, text: string)
    requires Sound(entries, index, modelOnly)
    requires LookupIn(lib, entries, index, modelOnly, text).Some?
    requires LookupIn(lib, entries, index, modelOnly, text).value.via == Contains
    ensures var found := Contained(index, modelOnly, text);
      found.Some? && found.value.1 == LookupIn(lib, entries, index, modelOnly, text).value.id
  {
  }

  /** A containment hit is the longest contained key there is, so a longer name always beats the shorter one
      it extends. */
  lemma ContainmentIsLongest(lib: Library, entries: seq<Entry>, aliases: seq<(string, string)>, text: string)
    requires Found(lib, entries, aliases, text).Some? && Found(lib, entries, aliases, text).value.via == Contains
    ensures exists key :: Longer(lib, entries, Index(Steps(lib, entries, aliases)), text, key,
                                 Found(lib, entries, aliases, text).value.id)
  {
    BuiltIsSound(lib, entries, aliases);
    ContainsHit(lib, entries, Index(Steps(lib, entries, aliases)), ModelOnly(lib, entries), text);
    ContainedIsLongest(lib, entries, Index(Steps(lib, entries, aliases)), text);
  }

  /** A key of the index at 0.90 or more without designator conflict, the most similar of these, names this entry, and
      text and entry agree on whether the car is an estate. */
  ghost predicate BySimilarKey(lib: Library, entries: seq<Entry>, index: Dict<string>, text: string, m: Match) {
    && Known(entries, m.id) && lib.estate(text) == lib.estate(FullKey(lib, Find(entries, m.id)))
    && exists key :: Nearest(lib, index, text, key) && index.at[key] == m.id && m.score == lib.ratio(text, key)
  }

  ghost predicate Nearest(lib: Library, index: Dict<string>, text: string, key: string) {
    && key in index.at && lib.ratio(text, key) >= 0.90 && !ModelDesignator.Mismatch(lib.tokens(text), lib.tokens(key))
    && forall k :: k in index.at && lib.ratio(text, k) > lib.ratio(text, key) ==>
         ModelDesignator.Mismatch(lib.tokens(text), lib.tokens(k))
  }

  lemma FuzzyMeaning(lib: Library, entries: seq<Entry>, index: Dict<string>, text: string)
    requires WellFormed(index) && forall k :: k in index.at ==> Known(entries, index.at[k])
    requires FuzzyMatch(lib, entries, index, text).Some?
    ensures BySimilarKey(lib, entries, index, text, FuzzyMatch(lib, entries, index, text).value)
  {
    FuzzyIsMaximal(lib, Items(index), text);
    var best := BestFuzzy(lib, Items(index), text).value;
    ItemsAreEntries(index, best.0, best.1);
    forall k | k in index.at && Acceptable(lib, text, k) ensures lib.ratio(text, k) <= lib.ratio(text, best.0) {
      ItemsAreEntries(index, k, index.at[k]);
    }
  }

  lemma FuzzyHit(lib: Library, entries: seq<Entry>, index: Dict<string>, modelOnly: Dict<seq<string>>, text: string)
    requires Sound(entries, index, modelOnly)
    requires LookupIn(lib, entries, index, modelOnly, text).Some?
    requires LookupIn(lib, entries, index, modelOnly, text).value.via == Fuzzy
    ensures FuzzyMatch(lib, entries, index, text) == LookupIn(lib, entries, index, modelOnly, text)
  {
  }

  /** A fuzzy hit is the most similar acceptable key of the index, and agrees with its entry on whether the
      car is an estate. */
  lemma FuzzyIsGuarded(lib: Library, entries: seq<Entry>, aliases: seq<(string, string)>, text: string)
    requires Found(lib, entries, aliases, text).Some? && Found(lib, entries, aliases, text).value.via == Fuzzy
    ensures BySimilarKey(lib, entries, Index(Steps(lib, entries, aliases)), text,
                         Found(lib, entries, aliases, text).value)
  {
    BuiltIsSound(lib, entries, aliases);
    FuzzyHit(lib, entries, Index(Steps(lib, entries, aliases)), ModelOnly(lib, entries), text);
    FuzzyMeaning(lib, entries, Index(Steps(lib, entries, aliases)), text);
  }

  /** What is found is known, when the two tables name known entries. */
  lemma LookupIsKnown(lib: Library, entries: seq<Entry>, index: Dict<string>, modelOnly: Dict<seq<string>>,
                      text: string)
    requires Sound(entries, index, modelOnly)
    requires text in modelOnly.at ==> forall id :: id in modelOnly.at[text] ==> Known(entries, id)
    requires Contained(index, modelOnly, text).Some? ==>
      Known(entries, Contained(index, modelOnly, text).value.1)
    ensures var r := LookupIn(lib, entries, index, modelOnly, text); r.Some? ==> Known(entries, r.value.id)
  {
    assert text in modelOnly.at && |modelOnly.at[text]| == 1 ==> modelOnly.at[text][0] in modelOnly.at[text];
  }

  /** Every match names an entry. */
  lemma MatchIsKnown(lib: Library, entries: seq<Entry>, aliases: seq<(string, string)>, text: string)
    ensures var r := Found(lib, entries, aliases, text); r.Some? ==> Known(entries, r.value.id)
  {
    BuiltIsSound(lib, entries, aliases);
    var index, d := Index(Steps(lib, entries, aliases)), ModelOnly(lib, entries);
    if text in d.at {
      ModelOnlyIsKnown(lib, entries, text);
    }
    if Contained(index, d, text).Some? {
      ContainedIsKnown(lib, entries, index, text);
    }
    LookupIsKnown(lib, entries, index, d, text);
  }

  lemma ContainedIsKnown(lib: Library, entries: seq<Entry>, index: Dict<string>, text: string)
    requires Sound(entries, index, ModelOnly(lib, entries)) && Contained(index, ModelOnly(lib, entries), text).Some?
    ensures Known(entries, Contained(index, ModelOnly(lib, entries), text).value.1)
  {
    var found := Contained(index, ModelOnly(lib, entries), text).value;
    if Longest(Items(index), text).Some? {
      LongestIsMaximal(Items(index), text);
      ItemsAreEntries(index, found.0, found.1);
    } else {
      LongestIsMaximal(UniqueItems(ModelOnly(lib, entries)), text);
      NamedAlone(lib, entries, found.0, found.1);
      assert found.1 in Gather(entries, NamedBy(lib, found.0));
      GatherMembers(entries, NamedBy(lib, found.0), found.1);
    }
  }

  /** The first longest contained key of the table names an entry. */
  ghost predicate NamedByContained(items: seq<(string, string)>, text: string) {
    exists i: nat :: LongestAt(items, text, i) && items[i].1 != ""
  }

  /** The first most similar key names an entry that agrees with the text on whether the car is an estate. */
  ghost predicate NamedBySimilar(lib: Library, entries: seq<Entry>, index: Dict<string>, text: string)
    requires WellFormed(index)
  {
    exists i: nat :: MostSimilarAt(lib, Items(index), text, i) && Agrees(lib, entries, Items(index)[i].1, text)
  }

  /** The id is that of an entry, which agrees with the text on whether the car is an estate. */
  ghost predicate Agrees(lib: Library, entries: seq<Entry>, id: string, text: string) {
    id != "" && Known(entries, id) && lib.estate(text) == lib.estate(FullKey(lib, Find(entries, id)))
  }

  lemma ContainedIff(index: Dict<string>, modelOnly: Dict<seq<string>>, text: string)
    requires WellFormed(index) && WellFormed(modelOnly)
    ensures Contained(index, modelOnly, text).Some? && Contained(index, modelOnly, text).value.1 != "" <==>
      NamedByContained(Items(index), text) ||
      ((forall item :: item in Items(index) ==> !Candidate(item, text)) &&
        NamedByContained(UniqueItems(modelOnly), text))
  {
    LongestIsMaximal(Items(index), text);
    LongestIff(Items(index), text);
    LongestIff(UniqueItems(modelOnly), text);
  }

  lemma FuzzyMatchIff(lib: Library, entries: seq<Entry>, index: Dict<string>, text: string)
    requires WellFormed(index) && forall k :: k in index.at ==> Known(entries, index.at[k])
    ensures FuzzyMatch(lib, entries, index, text).Some? <==> NamedBySimilar(lib, entries, index, text)
  {
    FuzzyIff(lib, Items(index), text);
    if BestFuzzy(lib, Items(index), text).Some? {
      FuzzyIsMaximal(lib, Items(index), text);
      var best := BestFuzzy(lib, Items(index), text).value;
      ItemsAreEntries(index, best.0, best.1);
    }
  }

  ghost predicate NothingFound(lib: Library, entries: seq<Entry>, index: Dict<string>, modelOnly: Dict<seq<string>>,
                               text: string)
    requires WellFormed(index) && WellFormed(modelOnly)
  {
    && (text in index.at ==> index.at[text] == "")
    && |Gather(entries, NamedBy(lib, text))| != 1
    && !NamedByContained(Items(index), text)
    && ((forall item :: item in Items(index) ==> !Candidate(item, text)) ==>
          !NamedByContained(UniqueItems(modelOnly), text))
    && !NamedBySimilar(lib, entries, index, text)
  }

  lemma LookupNoneIff(lib: Library, entries: seq<Entry>, index: Dict<string>, modelOnly: Dict<seq<string>>,
                      text: string)
    requires Sound(entries, index, modelOnly)
    requires (if text in modelOnly.at then modelOnly.at[text] else []) == Gather(entries, NamedBy(lib, text))
    ensures LookupIn(lib, entries, index, modelOnly, text) == None <==>
      text == "" || NothingFound(lib, entries, index, modelOnly, text)
  {
    ContainedIff(index, modelOnly, text);
    FuzzyMatchIff(lib, entries, index, text);
  }

  /** Exactly which texts are not classified: those without a key of their own, without a single entry of that
      model, without a contained key, and whose most similar key is missing or names an entry that differs in its
      estate marker. An empty id counts as none. */
  lemma NoMatchIff(lib: Library, entries: seq<Entry>, aliases: seq<(string, string)>, text: string)
    ensures var index, d := Index(Steps(lib, entries, aliases)), ModelOnly(lib, entries);
      && Sound(entries, index, d)
      && (Found(lib, entries, aliases, text) == None <==> text == "" || NothingFound(lib, entries, index, d, text))
  {
    BuiltIsSound(lib, entries, aliases);
    ModelOnlyMeaning(lib, entries, text);
    LookupNoneIff(lib, entries, Index(Steps(lib, entries, aliases)), ModelOnly(lib, entries), text);
  }

  // ---------------------------------------------------------------- the order of the steps

  /** The key itself names an entry. */
  predicate NamedByKey(index: Dict<string>, text: string) {
    text in index.at && index.at[text] != ""
  }

  /** The first longest contained key of the table names this entry. */
  ghost predicate ContainedNames(items: seq<(string, string)>, text: string, id: string) {
    id != "" && exists i: nat :: LongestAt(items, text, i) && items[i].1 == id
  }

  /** Found by containment: in the index, or, when no key of the index is contained, among the model keys of single
      entries. */
  ghost predicate ByContainment(index: Dict<string>, modelOnly: Dict<seq<string>>, text: string, id: string)
    requires WellFormed(index) && WellFormed(modelOnly)
  {
    || ContainedNames(Items(index), text, id)
    || ((forall item :: item in Items(index) ==> !Candidate(item, text)) &&
        ContainedNames(UniqueItems(modelOnly), text, id))
  }

  lemma ContainmentNames(index: Dict<string>, modelOnly: Dict<seq<string>>, text: string, id: string)
    requires WellFormed(index) && WellFormed(modelOnly)
    ensures ByContainment(index, modelOnly, text, id) <==>
      id != "" && Contained(index, modelOnly, text).Some? && Contained(index, modelOnly, text).value.1 == id
  {
    LongestIsMaximal(Items(index), text);
    LongestIff(Items(index), text);
    LongestIff(UniqueItems(modelOnly), text);
  }

  /** The steps in order: the key itself; the one entry of that model; containment; similarity. A later step speaks
      only where every earlier one is silent. */
  ghost predicate InOrder(lib: Library, entries: seq<Entry>, index: Dict<string>, modelOnly: Dict<seq<string>>,
                          text: string, r: Option<Match>)
    requires WellFormed(index) && WellFormed(modelOnly)
  {
    if text == "" then r == None
    else if NamedByKey(index, text) then r == Some(Match(index.at[text], Exact, 1.0))
    else if |Gather(entries, NamedBy(lib, text))| == 1 then
      r == Some(Match(Gather(entries, NamedBy(lib, text))[0], Exact, 1.0))
    else if exists id :: ByContainment(index, modelOnly, text, id) then
      r.Some? && ByContainment(index, modelOnly, text, r.value.id) && r.value.via == Contains && r.value.score == 1.0
    else if r.Some? then r.value.via == Fuzzy && BySimilarKey(lib, entries, index, text, r.value)
    else !NamedBySimilar(lib, entries, index, text)
  }

  lemma ContainmentIff(index: Dict<string>, modelOnly: Dict<seq<string>>, text: string)
    requires WellFormed(index) && WellFormed(modelOnly)
    ensures var c := Contained(index, modelOnly, text);
      && ((exists id :: ByContainment(index, modelOnly, text, id)) <==> c.Some? && c.value.1 != "")
      && (c.Some? && c.value.1 != "" ==> ByContainment(index, modelOnly, text, c.value.1))
  {
    forall id ensures ByContainment(index, modelOnly, text, id) <==>
      id != "" && Contained(index, modelOnly, text).Some? && Contained(index, modelOnly, text).value.1 == id
    {
      ContainmentNames(index, modelOnly, text, id);
    }
    if Contained(index, modelOnly, text).Some? && Contained(index, modelOnly, text).value.1 != "" {
      assert ByContainment(index, modelOnly, text, Contained(index, modelOnly, text).value.1);
    }
  }

  lemma FuzzyLast(lib: Library, entries: seq<Entry>, index: Dict<string>, text: string)
    requires WellFormed(index) && forall k :: k in index.at ==> Known(entries, index.at[k])
    ensures var r := FuzzyMatch(lib, entries, index, text);
      if r.Some? then r.value.via == Fuzzy && BySimilarKey(lib, entries, index, text, r.value)
      else !NamedBySimilar(lib, entries, index, text)
  {
    FuzzyMatchIff(lib, entries, index, text);
    if FuzzyMatch(lib, entries, index, text).Some? {
      FuzzyMeaning(lib, entries, index, text);
    }
  }

  lemma LookupInOrder(lib: Library, entries: seq<Entry>, index: Dict<string>, modelOnly: Dict<seq<string>>,
                      text: string)
    requires Sound(entries, index, modelOnly)
    requires (if text in modelOnly.at then modelOnly.at[text] else []) == Gather(entries, NamedBy(lib, text))
    ensures InOrder(lib, entries, index, modelOnly, text, LookupIn(lib, entries, index, modelOnly, text))
  {
    ContainmentIff(index, modelOnly, text);
    FuzzyLast(lib, entries, index, text);
  }

  /** What every text finds, by which step, and which entry. */
  lemma FoundInOrder(lib: Library, entries: seq<Entry>, aliases: seq<(string, string)>, text: string)
    ensures var index, d := Index(Steps(lib, entries, aliases)), ModelOnly(lib, entries);
      Sound(entries, index, d) && InOrder(lib, entries, index, d, text, Found(lib, entries, aliases, text))
  {
    BuiltIsSound(lib, entries, aliases);
    ModelOnlyMeaning(lib, entries, text);
    LookupInOrder(lib, entries, Index(Steps(lib, entries, aliases)), ModelOnly(lib, entries), text);
  }
}
