/** The classification service around the engine: bundles, provider-declared codes, the semantic
    fallback, and the mapping to a storable result. Records are updated in place. */
module AcrissService {
  import opened Comprehension
  import opened AcrissLetters
  import AcrissClassifier

  datatype Note = MixedBundle | SameBundle | UnresolvedExcluded | DeclaredTransmission | DeclaredFuel | SemanticResolver

  /** What the language model may return for an unknown model; absent keys are None. */
  datatype PowertrainProfile = BevOnlyProfile | HybridOnlyProfile | OtherProfile
  datatype Profile = Profile(confidence: Option<real>, category: Option<char>, body: Option<char>,
                             powertrain: PowertrainProfile)

  /** The four stored attributes are all set or all NULL. */
  datatype Dto = Dto(code: Option<string>, confidence: real, pendingReview: bool)

  const MIXED_CAP := 0.65

  /** AcrissResult */
  class Record {
    var category: Letter
    var body: Letter
    var transmission: Letter
    var fuel: Letter
    var partialAcriss: string
    var acriss: Option<string>
    var confidence: real
    var needsReview: bool
    const ambiguous: bool
    const unresolved: bool

    function L(): Letters
      reads this
    {
      Letters(category, body, transmission, fuel)
    }

    /** The code strings render the letters, the confidence never exceeds the weakest letter, and a
        record that needs review by its letters is flagged. */
    ghost predicate Valid()
      reads this
    {
      && partialAcriss == Partial(L()) && acriss == Code(L())
      && confidence <= MinConfidence(L())
      && (ShouldReview(L(), unresolved, ambiguous) ==> needsReview)
    }

    /** The assembly at the end of classify_vehicle. */
    constructor (c: AcrissClassifier.Classified)
      ensures Valid() && L() == c.letters && unresolved == c.unresolved && ambiguous == c.ambiguous
      ensures confidence == MinConfidence(L()) && needsReview == ShouldReview(L(), unresolved, ambiguous)
    {
      category, body, transmission, fuel := c.letters.category, c.letters.body, c.letters.transmission, c.letters.fuel;
      partialAcriss, acriss := Partial(c.letters), Code(c.letters);
      confidence := MinConfidence(c.letters);
      needsReview := ShouldReview(c.letters, c.unresolved, c.ambiguous);
      ambiguous, unresolved := c.ambiguous, c.unresolved;
    }

    /** _refresh_aggregate: recompute everything from the letters. */
    method Refresh()
      modifies this`partialAcriss, this`acriss, this`confidence, this`needsReview
      ensures Valid()
      ensures confidence == MinConfidence(L()) && needsReview == ShouldReview(L(), unresolved, ambiguous)
    {
      partialAcriss := Partial(L());
      acriss := if '?' in partialAcriss then None else Some(partialAcriss);
      confidence := MinConfidence(L());
      needsReview := ShouldReview(L(), unresolved, ambiguous);
    }
  }

  // ---------------------------------------------------------------- bundles

  const SCALE := "MNEHCDIJSRFGPULWX"

  function IndexOf(c: char, s: string): int {
    if s == [] then -1
    else if s[0] == c then 0
    else if IndexOf(c, s[1..]) == -1 then -1 else 1 + IndexOf(c, s[1..])
  }

  /** Position on the price ladder, -1 for no letter or one off the ladder. */
  function CategoryRank(c: Option<char>): int {
    if c == None then -1 else IndexOf(c.value, SCALE)
  }

  lemma {:induction false} IndexOfMeaning(c: char, s: string)
    ensures IndexOf(c, s) == -1 <==> c !in s
    ensures c in s ==> 0 <= IndexOf(c, s) < |s| && s[IndexOf(c, s)] == c && c !in s[..IndexOf(c, s)]
  {
    if s != [] && s[0] != c {
      IndexOfMeaning(c, s[1..]);
      assert c in s <==> c in s[1..];
      if c in s {
        var k := IndexOf(c, s[1..]);
        assert s[..k + 1] == [s[0]] + s[1..][..k];
      }
    }
  }

  lemma LadderIsStrict(i: nat, j: nat)
    requires i < j < |SCALE|
    ensures SCALE[i] != SCALE[j]
  {
    var s := SCALE;
    assert s[0] == 'M' && s[1] == 'N' && s[2] == 'E' && s[3] == 'H' && s[4] == 'C' && s[5] == 'D';
    assert s[6] == 'I' && s[7] == 'J' && s[8] == 'S' && s[9] == 'R' && s[10] == 'F' && s[11] == 'G';
    assert s[12] == 'P' && s[13] == 'U' && s[14] == 'L' && s[15] == 'W' && s[16] == 'X';
  }

  /** The rank is the position on the ladder, and a letter off it, or none, is below all others. */
  lemma RankMeaning(c: char, k: nat)
    ensures k < |SCALE| && SCALE[k] == c ==> CategoryRank(Some(c)) == k
    ensures c !in SCALE ==> CategoryRank(Some(c)) == -1
    ensures CategoryRank(None) == -1
  {
    IndexOfMeaning(c, SCALE);
    if k < |SCALE| && SCALE[k] == c {
      var i := IndexOf(c, SCALE);
      assert c in SCALE;
      if i < k {
        LadderIsStrict(i, k);
      }
    }
  }

  function Codes(pool: seq<Record>): set<string>
    reads pool
  {
    set r | r in pool :: r.partialAcriss
  }

  /** The members that take part in the decision: the resolved ones, or all when none is. */
  function Pool(members: seq<Record>): seq<Record>
  {
    var resolved := Gather(members, (r: Record) => if r.unresolved then None else Some(r));
    if resolved == [] then members else resolved
  }

  /** Dearer on the ladder, or equally dear and more confident. */
  predicate Beats(r: Record, s: Record, byCategory: bool)
    reads r, s
  {
    if byCategory then
      CategoryRank(r.category.code) > CategoryRank(s.category.code)
      || (CategoryRank(r.category.code) == CategoryRank(s.category.code) && r.confidence > s.confidence)
    else r.confidence > s.confidence
  }

  /** The first record of the pool that nobody beats. */
  ghost predicate IsBest(best: Record, pool: seq<Record>, byCategory: bool)
    reads pool, best
  {
    && (forall r :: r in pool ==> !Beats(r, best, byCategory))
    && exists i :: 0 <= i < |pool| && pool[i] == best && forall j :: 0 <= j < i ==> Beats(best, pool[j], byCategory)
  }

  /** The first of the most expensive members by category, and among those the most confident. */
  ghost predicate Dearest(best: Record, pool: seq<Record>)
    reads pool, best
  {
    && (forall r :: r in pool ==>
          && CategoryRank(r.category.code) <= CategoryRank(best.category.code)
          && (CategoryRank(r.category.code) == CategoryRank(best.category.code) ==> r.confidence <= best.confidence))
    && exists i :: 0 <= i < |pool| && pool[i] == best && forall j :: 0 <= j < i ==>
         CategoryRank(pool[j].category.code) < CategoryRank(best.category.code) || pool[j].confidence < best.confidence
  }

  /** The first of the most confident members. */
  ghost predicate MostConfident(best: Record, pool: seq<Record>)
    reads pool, best
  {
    && (forall r :: r in pool ==> r.confidence <= best.confidence)
    && exists i :: 0 <= i < |pool| && pool[i] == best && forall j :: 0 <= j < i ==>
         pool[j].confidence < best.confidence
  }

  lemma BestMeaning(best: Record, pool: seq<Record>)
    ensures IsBest(best, pool, true) ==> Dearest(best, pool)
    ensures IsBest(best, pool, false) ==> MostConfident(best, pool)
  {
  }

  /** max(pool, key=...) */
  method Best(pool: seq<Record>, byCategory: bool) returns (best: Record)
    requires pool != []
    ensures best in pool && IsBest(best, pool, byCategory)
  {
    var b, i := 0, 1;
    while i < |pool|
      invariant 0 <= b < i <= |pool|
      invariant forall j :: 0 <= j < i ==> !Beats(pool[j], pool[b], byCategory)
      invariant forall j :: 0 <= j < b ==> Beats(pool[b], pool[j], byCategory)
    {
      if Beats(pool[i], pool[b], byCategory) {
        b := i;
      }
      i := i + 1;
    }
    best := pool[b];
  }

  /** _combine_bundle */
  method CombineBundle(members: seq<Record>) returns (chosen: Record, notes: seq<Note>)
    requires members != [] && forall r :: r in members ==> r.Valid()
    modifies members
    ensures chosen in members && forall r :: r in members ==> r.Valid() && r.L() == old(r.L())
    ensures chosen in Pool(members)
    ensures forall r :: r in members && r != chosen ==>
      r.confidence == old(r.confidence) && r.needsReview == old(r.needsReview)
    ensures MixedBundle in notes <==> |members| > 1 && old(|Codes(Pool(members))|) != 1
    ensures MixedBundle in notes ==>
      && chosen.confidence == AcrissLetters.Min(old(chosen.confidence), MIXED_CAP) && chosen.needsReview
    ensures |members| > 1 && MixedBundle in notes ==> old(Dearest(chosen, Pool(members)))
    ensures |members| > 1 && MixedBundle !in notes ==> old(MostConfident(chosen, Pool(members)))
    ensures MixedBundle !in notes ==>
      chosen.confidence == old(chosen.confidence) && chosen.needsReview == old(chosen.needsReview)
    ensures chosen.unresolved ==> forall r :: r in members ==> r.unresolved
  {
    PoolMembers(members);
    if |members| == 1 {
      assert Pool(members)[0] in Pool(members) && Pool(members)[0] in members;
      return members[0], [];
    }
    var pool := Pool(members);
    notes := if exists r :: r in members && r.unresolved && r !in pool then [UnresolvedExcluded] else [];
    var mixed;
    chosen, mixed := Decide(members, pool);
    notes := notes + [if mixed then MixedBundle else SameBundle];
  }

  /** One code: the most confident member; several: the dearest, capped and flagged. */
  method Decide(members: seq<Record>, pool: seq<Record>) returns (chosen: Record, mixed: bool)
    requires pool != [] && (forall r :: r in pool ==> r in members) && forall r :: r in members ==> r.Valid()
    modifies members
    ensures chosen in pool && (mixed <==> old(|Codes(pool)|) != 1)
    ensures forall r :: r in members ==> r.Valid() && r.L() == old(r.L())
    ensures forall r :: r in members && r != chosen ==>
      r.confidence == old(r.confidence) && r.needsReview == old(r.needsReview)
    ensures if mixed then old(Dearest(chosen, pool)) else old(MostConfident(chosen, pool))
    ensures mixed ==> chosen.confidence == AcrissLetters.Min(old(chosen.confidence), MIXED_CAP) && chosen.needsReview
    ensures !mixed ==> Untouched(chosen)
  {
    mixed := |Codes(pool)| != 1;
    chosen := Best(pool, mixed);
    BestMeaning(chosen, pool);
    if mixed {
      CapMixed(chosen);
    }
  }

  /** A bundle of different codes is a guess. */
  method CapMixed(r: Record)
    requires r.Valid()
    modifies r`confidence, r`needsReview
    ensures r.Valid() && r.needsReview && r.confidence == AcrissLetters.Min(old(r.confidence), MIXED_CAP)
  {
    r.needsReview := true;
    r.confidence := AcrissLetters.Min(r.confidence, MIXED_CAP);
  }

  lemma PoolMembers(members: seq<Record>)
    requires members != []
    ensures Pool(members) != [] && forall r :: r in Pool(members) ==> r in members
    ensures forall r :: r in Pool(members) && r.unresolved ==> forall s :: s in members ==> s.unresolved
  {
    var f := (r: Record) => if r.unresolved then None else Some(r);
    forall r | r in Gather(members, f) ensures r in members && !r.unresolved {
      GatherMembers(members, f, r);
    }
    forall r | r in members && !r.unresolved ensures r in Gather(members, f) {
      var i :| 0 <= i < |members| && members[i] == r;
      assert f(members[i]) == Some(r);
      GatherMembers(members, f, r);
    }
  }

  // ---------------------------------------------------------------- declared codes

  /** A structurally valid four-letter code. */
  predicate IsDeclared(code: string) {
    |code| == 4 && code[0] in CATEGORIES && code[1] in BODIES && code[2] in TRANSMISSIONS && code[3] in FUELS
  }

  /** The first structurally valid candidate; candidates are trimmed and upper-cased. */
  function ParseDeclared(candidates: seq<Option<string>>): (r: Option<string>)
    ensures r.Some? ==> IsDeclared(r.value) && r in candidates
    ensures r == None ==> forall c: string :: Some(c) in candidates ==> !IsDeclared(c)
  {
    if candidates == [] then None
    else if candidates[0].Some? && IsDeclared(candidates[0].value) then candidates[0]
    else ParseDeclared(candidates[1..])
  }

  /** A declared code is the first candidate with a letter of each table. */
  lemma {:induction false} DeclaredMeaning(candidates: seq<Option<string>>, k: nat, c: string)
    requires k < |candidates| && candidates[k] == Some(c)
    requires |c| == 4 && c[0] in CATEGORIES && c[1] in BODIES && c[2] in TRANSMISSIONS && c[3] in FUELS
    requires forall j, b :: 0 <= j < k && candidates[j] == Some(b) && |b| == 4 ==>
      b[0] !in CATEGORIES || b[1] !in BODIES || b[2] !in TRANSMISSIONS || b[3] !in FUELS
    ensures ParseDeclared(candidates) == Some(c)
  {
    if k > 0 {
      assert forall j :: 0 <= j < k - 1 ==> candidates[1..][j] == candidates[j + 1];
      DeclaredMeaning(candidates[1..], k - 1, c);
    }
  }

  /** Letters after a declared code: it fills what is missing and replaces an untrusted fuel. */
  function WithDeclared(l: Letters, code: string): Letters
    requires IsDeclared(code)
  {
    Letters(
      if l.category.code == None then Letter(Some(code[0]), 0.75, FromOverride) else l.category,
      if l.body.code == None then Letter(Some(code[1]), 0.75, FromOverride) else l.body,
      if l.transmission.code == None then Letter(Some(code[2]), 0.90, FromOverride) else l.transmission,
      if l.fuel.code == None || l.fuel.confidence < 0.85 then Letter(Some(code[3]), 0.85, FromOverride) else l.fuel)
  }

  /** _apply_declared_code */
  method ApplyDeclaredCode(r: Record, candidates: seq<Option<string>>) returns (notes: seq<Note>)
    requires r.Valid()
    modifies r
    ensures r.Valid() && MixedBundle !in notes
    ensures var declared := ParseDeclared(candidates);
      if declared == None then r.L() == old(r.L()) && r.confidence == old(r.confidence) &&
        r.needsReview == old(r.needsReview)
      else r.L() == WithDeclared(old(r.L()), declared.value)
           && r.confidence == MinConfidence(r.L()) && r.needsReview == ShouldReview(r.L(), r.unresolved, r.ambiguous)
  {
    notes := [];
    var declared := ParseDeclared(candidates);
    if declared == None {
      return;
    }
    var code := declared.value;
    if r.transmission.code == None {
      r.transmission := Letter(Some(code[2]), 0.90, FromOverride);
      notes := notes + [DeclaredTransmission];
    }
    if r.fuel.code == None || r.fuel.confidence < 0.85 {
      if Some(code[3]) != r.fuel.code {
        notes := notes + [DeclaredFuel];
      }
      r.fuel := Letter(Some(code[3]), 0.85, FromOverride);
    }
    if r.category.code == None {
      r.category := Letter(Some(code[0]), 0.75, FromOverride);
    }
    if r.body.code == None {
      r.body := Letter(Some(code[1]), 0.75, FromOverride);
    }
    r.Refresh();
  }

  lemma NotInTable(c: char, table: string)
    requires c in table && '?' !in table
    ensures c != '?'
  {
  }

  /** A declared code always completes the classification, and never overwrites a letter the engine
      trusted. */
  lemma DeclaredCompletes(l: Letters, code: string)
    requires IsDeclared(code)
    requires l.category.code != Some('?') && l.body.code != Some('?') && l.transmission.code != Some('?')
    requires l.fuel.code != Some('?')
    ensures Code(WithDeclared(l, code)).Some?
    ensures l.category.code.Some? ==> WithDeclared(l, code).category == l.category
    ensures l.body.code.Some? ==> WithDeclared(l, code).body == l.body
    ensures l.transmission.code.Some? ==> WithDeclared(l, code).transmission == l.transmission
    ensures l.fuel.code.Some? && l.fuel.confidence >= TRUSTED ==> WithDeclared(l, code).fuel == l.fuel
    ensures l.category.code == None ==> WithDeclared(l, code).category.code == Some(code[0])
    ensures l.body.code == None ==> WithDeclared(l, code).body.code == Some(code[1])
    ensures l.transmission.code == None ==> WithDeclared(l, code).transmission.code == Some(code[2])
    ensures l.fuel.code == None || l.fuel.confidence < TRUSTED ==> WithDeclared(l, code).fuel.code == Some(code[3])
  {
    NotInTable(code[0], CATEGORIES);
    NotInTable(code[1], BODIES);
    NotInTable(code[2], TRANSMISSIONS);
    NotInTable(code[3], FUELS);
    CodeMeaning(WithDeclared(l, code));
  }

  // ---------------------------------------------------------------- semantic fallback

  /** Letters after a semantic profile: only open letters and a fallback fuel may change, and never with
      enough confidence to be trusted. */
  function WithProfile(l: Letters, p: Profile): Letters {
    var conf := AcrissLetters.Min(if p.confidence.Some? then p.confidence.value else 0.5, 0.84);
    Letters(
      if l.category.code == None && p.category.Some? &&
        p.category.value in CATEGORIES then Letter(p.category, conf, Heuristic) else l.category,
      if l.body.code == None && p.body.Some? && p.body.value in BODIES then Letter(p.body, conf, Heuristic) else l.body,
      l.transmission,
      if l.fuel.source == Fallback && p.powertrain == BevOnlyProfile then Letter(Some('E'), conf, Heuristic)
      else if l.fuel.source == Fallback && p.powertrain == HybridOnlyProfile then Letter(Some('H'), conf, Heuristic)
      else l.fuel)
  }

  twostate predicate Untouched(r: Record)
    reads r
  {
    r.L() == old(r.L()) && r.needsReview == old(r.needsReview) && r.confidence == old(r.confidence)
  }

  /** _resolve_unknowns, for one record; no profile when there is no resolver or it has no answer. */
  method ResolveUnknown(r: Record, profile: Option<Profile>) returns (notes: seq<Note>)
    requires r.Valid()
    modifies r
    ensures r.Valid() && MixedBundle !in notes
    ensures if profile.Some? && r.unresolved && (old(r.category.code) == None || old(r.body.code) == None)
      then
        && r.L() == WithProfile(old(r.L()), profile.value) && notes == [SemanticResolver]
        && r.confidence == MinConfidence(r.L()) && r.needsReview == ShouldReview(r.L(), r.unresolved, r.ambiguous)
      else Untouched(r) && notes == []
  {
    notes := [];
    if !(r.unresolved && (r.category.code == None || r.body.code == None)) || profile == None {
      return;
    }
    var p := profile.value;
    var conf := AcrissLetters.Min(if p.confidence.Some? then p.confidence.value else 0.5, 0.84);
    if r.category.code == None && p.category.Some? && p.category.value in CATEGORIES {
      r.category := Letter(p.category, conf, Heuristic);
    }
    if r.body.code == None && p.body.Some? && p.body.value in BODIES {
      r.body := Letter(p.body, conf, Heuristic);
    }
    if r.fuel.source == Fallback && p.powertrain == BevOnlyProfile {
      r.fuel := Letter(Some('E'), conf, Heuristic);
    } else if r.fuel.source == Fallback && p.powertrain == HybridOnlyProfile {
      r.fuel := Letter(Some('H'), conf, Heuristic);
    }
    notes := [SemanticResolver];
    r.Refresh();
  }

  /** The resolver only fills gaps and second-guesses a fallback fuel, and whatever it contributes keeps the
      result from being trusted. */
  lemma ProfileIsCautious(l: Letters, p: Profile)
    ensures var r := WithProfile(l, p);
      && (l.category.code.Some? ==> r.category == l.category) && (l.body.code.Some? ==> r.body == l.body)
      && r.transmission == l.transmission && (l.fuel.source != Fallback ==> r.fuel == l.fuel)
      && (r.category != l.category ==> r.category.code.Some? && r.category.code.value in CATEGORIES)
      && (r.body != l.body ==> r.body.code.Some? && r.body.code.value in BODIES)
      && (l.category.code == None && p.category.Some? && p.category.value in CATEGORIES ==>
            r.category.code == p.category)
      && (l.body.code == None && p.body.Some? && p.body.value in BODIES ==> r.body.code == p.body)
      && (l.fuel.source == Fallback && p.powertrain == BevOnlyProfile ==> r.fuel.code == Some('E'))
      && (l.fuel.source == Fallback && p.powertrain == HybridOnlyProfile ==> r.fuel.code == Some('H'))
      && (r != l ==> !AllTrusted(r) && forall unresolved, ambiguous :: ShouldReview(r, unresolved, ambiguous))
  {
    var r := WithProfile(l, p);
    if r != l {
      forall unresolved, ambiguous ensures ShouldReview(r, unresolved, ambiguous) {
        ReviewMeaning(r, unresolved, ambiguous);
      }
    }
  }

  // ---------------------------------------------------------------- storable result

  /** The R trunk of a code. */
  function Trunk(code: string): string
    requires |code| == 4
  {
    code[..3] + "R"
  }

  /** An unmaterialized code that falls back to its materialized R trunk. */
  predicate Collapses(l: Letters, codes: set<string>) {
    && Code(l).Some? && Code(l).value !in codes
    && Code(l).value[3] in "VDHI" && Trunk(Code(l).value) in codes
  }

  function Collapsed(l: Letters): Letters {
    l.(fuel := l.fuel.(code := Some('R')))
  }

  /** The stored result as a function of the record's fields and its notes. */
  function DtoOf(l: Letters, confidence: real, needsReview: bool, unresolved: bool, ambiguous: bool, mixed: bool,
                 codes: set<string>): Dto
  {
    if Collapses(l, codes) then
      Dto(Code(Collapsed(l)), MinConfidence(l),
          ShouldReview(l, unresolved, ambiguous) || Code(l).value[3] != 'V')
    else
      var capped := if mixed then AcrissLetters.Min(confidence, MIXED_CAP) else confidence;
      if Code(l).Some? && Code(l).value in codes then Dto(Code(l), capped, needsReview || mixed)
      else Dto(None, capped, true)
  }

  lemma CollapsedCode(l: Letters)
    requires Code(l).Some?
    ensures Code(Collapsed(l)) == Some(Trunk(Code(l).value))
    ensures MinConfidence(Collapsed(l)) == MinConfidence(l)
    ensures forall unresolved, ambiguous :: ShouldReview(Collapsed(l), unresolved,
                                                         ambiguous) == ShouldReview(l, unresolved, ambiguous)
  {
    var p, q := Partial(l), Partial(Collapsed(l));
    assert q == Trunk(p);
    forall i | 0 <= i < 4 ensures q[i] != '?' {
      if i < 3 {
        assert q[i] == p[i] && p[i] in p;
      }
    }
  }

  /** _to_dto */
  method ToDto(r: Record, notes: seq<Note>, codes: set<string>) returns (dto: Dto)
    requires r.Valid()
    modifies r
    ensures r.Valid()
    ensures dto == DtoOf(old(r.L()), old(r.confidence), old(r.needsReview), r.unresolved, r.ambiguous,
                         MixedBundle in notes, codes)
    ensures r.L() == if Collapses(old(r.L()), codes) then Collapsed(old(r.L())) else old(r.L())
    ensures dto.code.Some? ==> dto.code == Code(r.L())
  {
    if MixedBundle in notes {
      r.confidence := AcrissLetters.Min(r.confidence, MIXED_CAP);
      r.needsReview := true;
    }
    var materialized := r.acriss.Some? && r.acriss.value in codes;
    if r.acriss.Some? && !materialized {
      var trunk := Trunk(r.acriss.value);
      var fuel := r.acriss.value[3];
      if fuel in "VDHI" && trunk in codes {
        CollapsedCode(r.L());
        r.fuel := Letter(Some('R'), r.fuel.confidence, r.fuel.source);
        r.Refresh();
        if fuel != 'V' {
          r.needsReview := true;
        }
        materialized := true;
      }
    }
    if r.acriss.Some? && materialized {
      return Dto(r.acriss, r.confidence, r.needsReview);
    }
    return Dto(None, r.confidence, true);
  }

  /** Every stored result is storable and sound: a materialized code or NULL and pending; and what is not
      pending has four trusted letters and a known model. */
  lemma StoredIsSound(l: Letters, confidence: real, needsReview: bool, unresolved: bool, ambiguous: bool, mixed: bool,
                      codes: set<string>)
    requires ShouldReview(l, unresolved, ambiguous) ==> needsReview
    ensures var dto := DtoOf(l, confidence, needsReview, unresolved, ambiguous, mixed, codes);
      && (dto.code.Some? ==> dto.code.value in codes && |dto.code.value| == 4)
      && (dto.code.Some? ==> Code(l).Some? && dto.code.value[..3] == Code(l).value[..3])
      && (dto.code.Some? <==> Code(l).Some? && (Code(l).value in codes || Collapses(l, codes)))
      && (Code(l).Some? && Code(l).value in codes ==> dto.code == Code(l))
      && (dto.code == None ==> dto.pendingReview)
      && (!dto.pendingReview ==> AllTrusted(l) && !unresolved)
      && (confidence <= MinConfidence(l) ==> dto.confidence <= MinConfidence(l))
  {
    if Collapses(l, codes) {
      CollapsedCode(l);
    }
    ReviewMeaning(l, unresolved, ambiguous);
  }

  /** The mixed-bundle cap and flag hold exactly where the trunk collapse does not undo them: the refresh
      inside the collapse recomputes both from the letters. */
  lemma MixedCapIff(l: Letters, confidence: real, needsReview: bool, unresolved: bool, ambiguous: bool,
                    codes: set<string>)
    ensures var dto := DtoOf(l, confidence, needsReview, unresolved, ambiguous, true, codes);
      && (dto.confidence <= 0.65 <==> !Collapses(l, codes) || MinConfidence(l) <= 0.65)
      && (!dto.pendingReview <==>
            Collapses(l, codes) && Code(l).value[3] == 'V' && !ShouldReview(l, unresolved, ambiguous))
  {
    if Collapses(l, codes) {
      CollapsedCode(l);
    }
  }

  // ---------------------------------------------------------------- a mixed bundle that is not flagged

  function Hatchback(category: char, fuel: Option<char>): AcrissClassifier.Vehicle {
    AcrissClassifier.Vehicle(
      ["polo"], None, None,
      Some(AcrissClassifier.Entry("volkswagen polo", Some(category), Some(0.95), Some('D'), Some(0.95), None,
                                  AcrissClassifier.IceOnly, 'R', None, false, false, None)),
      false, None, fuel, AcrissClassifier.NameSignal('M'))
  }

  lemma NoBodyWord()
    ensures AcrissClassifier.FindToken(["polo"], AcrissClassifier.STRONG_TOKENS) == None
  {
    AcrissClassifier.StrongLengths();
    AcrissClassifier.NoWordOfLength("polo", AcrissClassifier.STRONG_TOKENS);
  }

  lemma HatchbackLetters(category: char, fuel: Option<char>)
    requires category != '?' && fuel != Some('?')
    ensures var c := AcrissClassifier.ClassifyVehicle(Hatchback(category, fuel));
      && Partial(c.letters) == [category, 'D', 'M', if fuel.Some? then fuel.value else 'R']
      && Code(c.letters) == Some(Partial(c.letters)) && c.letters.category.code == Some(category)
      && !c.unresolved && !c.ambiguous && AllTrusted(c.letters)
      && MinConfidence(c.letters) == 0.95
  {
    NoBodyWord();
    CodeMeaning(AcrissClassifier.ClassifyVehicle(Hatchback(category, fuel)).letters);
  }

  lemma TwoCodes(a: Record, b: Record)
    requires a.partialAcriss != b.partialAcriss
    ensures |Codes([a, b])| != 1
  {
    assert a in [a, b] && b in [a, b];
    var rest := Codes([a, b]) - {a.partialAcriss};
    assert a.partialAcriss in Codes([a, b]) && b.partialAcriss in rest;
    assert |rest| == |Codes([a, b])| - 1;
  }

  lemma BothResolved(a: Record, b: Record)
    requires !a.unresolved && !b.unresolved
    ensures Pool([a, b]) == [a, b]
  {
    var f := (r: Record) => if r.unresolved then None else Some(r);
    assert [a, b][1..] == [b] && [b][1..] == [];
    assert Gather([b], f) == [b];
  }

  /** A bundle of a petrol EDMV and a EDMR, with the R trunk materialized: the petrol car is chosen, capped and
      flagged as a guess, and then stored as EDMR at 0.95, not pending. */
  method MixedFlagLost() returns (dto: Dto, notes: seq<Note>)
    ensures MixedBundle in notes && dto == Dto(Some("EDMR"), 0.95, false)
  {
    HatchbackLetters('E', Some('V'));
    HatchbackLetters('E', None);
    var petrol := new Record(AcrissClassifier.ClassifyVehicle(Hatchback('E', Some('V'))));
    var other := new Record(AcrissClassifier.ClassifyVehicle(Hatchback('E', None)));
    assert petrol.partialAcriss[3] == 'V' && other.partialAcriss[3] == 'R';
    notes := MixTwo(petrol, other);
    PetrolStored(petrol.L());
    dto := ToDto(petrol, notes, {"EDMR"});
  }

  /** Bundling a record with another one of a different code that does not beat it. */
  method MixTwo(first: Record, other: Record) returns (notes: seq<Note>)
    requires first.Valid() && other.Valid() && !first.unresolved && !other.unresolved
    requires first.partialAcriss != other.partialAcriss && !Beats(other, first, true) && !Beats(first, other, true)
    modifies first, other
    ensures first.Valid() && first.L() == old(first.L()) && MixedBundle in notes
    ensures first.needsReview && first.confidence == AcrissLetters.Min(old(first.confidence), MIXED_CAP)
  {
    TwoCodes(first, other);
    BothResolved(first, other);
    assert first in [first, other];
    var chosen;
    chosen, notes := CombineBundle([first, other]);
  }

  lemma PetrolStored(l: Letters)
    requires Code(l) == Some("EDMV") && MinConfidence(l) == 0.95 && AllTrusted(l)
    ensures DtoOf(l, MIXED_CAP, true, false, false, true, {"EDMR"}) == Dto(Some("EDMR"), 0.95, false)
  {
    assert "EDMV"[3] == 'V' && 'V' in "VDHI" && "EDMR"[3] == 'R';
    assert Trunk("EDMV") == "EDMR";
    CollapsedCode(l);
    ReviewMeaning(l, false, false);
  }

  // ---------------------------------------------------------------- the pipeline

  /** One vehicle alone, without declared codes or semantic profile, is stored without review exactly when
      everything about it is known and trusted, and its code is materialized or is a petrol code whose R trunk is. */
  method ClassifyAlone(v: AcrissClassifier.Vehicle, codes: set<string>) returns (dto: Dto)
    requires AcrissClassifier.Lettered(v)
    ensures var code := Code(AcrissClassifier.ClassifyVehicle(v).letters);
      !dto.pendingReview <==>
        AcrissClassifier.Settled(v) && code.Some? &&
          (code.value in codes || (code.value[3] == 'V' && Trunk(code.value) in codes))
  {
    var r := new Record(AcrissClassifier.ClassifyVehicle(v));
    var chosen, notes := CombineBundle([r]);
    assert chosen in [r];
    var more := ApplyDeclaredCode(chosen, []);
    var semantic := ResolveUnknown(chosen, None);
    AcrissClassifier.NoReviewIff(v);
    AcrissClassifier.NoPlaceholder(v);
    CodeMeaning(chosen.L());
    dto := ToDto(chosen, notes + more + semantic, codes);
  }

  /** The pipeline for one provider group, from its classified members to the stored result. */
  method ClassifyGroup(members: seq<Record>, candidates: seq<Option<string>>, profile: Option<Profile>,
                       codes: set<string>)
    returns (dto: Dto, chosen: Record)
    requires members != [] && forall r :: r in members ==> r.Valid()
    modifies members
    ensures chosen in members && chosen.Valid()
    ensures dto.code.Some? ==> dto.code == Code(chosen.L()) && dto.code.value in codes && |dto.code.value| == 4
    ensures dto.code == None ==> dto.pendingReview
    ensures !dto.pendingReview ==> AllTrusted(chosen.L()) && !chosen.unresolved
    ensures dto.confidence <= MinConfidence(chosen.L())
    ensures (forall r :: r in members ==> r.unresolved) ==> dto.pendingReview
  {
    var notes;
    chosen, notes := CombineBundle(members);
    var more := ApplyDeclaredCode(chosen, candidates);
    var semantic := ResolveUnknown(chosen, profile);
    StoredIsSound(chosen.L(), chosen.confidence, chosen.needsReview, chosen.unresolved, chosen.ambiguous,
                  MixedBundle in notes + more + semantic, codes);
    ghost var before := chosen.L();
    dto := ToDto(chosen, notes + more + semantic, codes);
    if Collapses(before, codes) {
      CollapsedCode(before);
    }
  }
}
