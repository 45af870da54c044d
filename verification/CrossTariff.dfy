/** The cross-provider tariff calculator: from the raw totals of every provider to one recommended
    price per cell. */
module CrossTariff {
  import opened Comprehension
  import opened OrderStatistics
  import opened PriceRounding

  datatype Mode = Pct | Abs
  datatype FloorMode = AutoFloor | CostFloor | NoFloor
  datatype CeilingMode = MaxCeiling | NoCeiling
  datatype Rule = Rule(op: Op, val: real, mode: Mode, floorMode: FloorMode, ceilingMode: CeilingMode)

  /** "min", "med", "avg", "max" and any other string. */
  datatype Base = MinBase | MedBase | AvgBase | MaxBase | UnknownBase

  datatype Clamp = FloorFired | CeilingFired

  /** One entry of the provider -> [total, ...] dictionary, and one of its collapsed form. */
  datatype ProviderTotals = ProviderTotals(code: string, totals: seq<real>)
  datatype Priced = Priced(code: string, total: real)

  // ---------------------------------------------------------------- steps 1 and 2

  function CollapseOne(): ProviderTotals -> Option<Priced> {
    (g: ProviderTotals) => if g.totals == [] then None else Some(Priced(g.code, Min(g.totals)))
  }

  /** Cheapest total per provider; providers without totals disappear. */
  function Collapse(groups: seq<ProviderTotals>): seq<Priced> {
    Gather(groups, CollapseOne())
  }

  ghost predicate AtCheapest(g: ProviderTotals, p: Priced) {
    g.code == p.code && p.total in g.totals && forall x :: x in g.totals ==> p.total <= x
  }

  /** Who is priced, and at what: every provider with totals at its cheapest one. */
  lemma CollapseMeaning(groups: seq<ProviderTotals>, p: Priced)
    ensures p in Collapse(groups) <==> exists g :: g in groups && AtCheapest(g, p)
  {
    GatherMembers(groups, CollapseOne(), p);
    forall g | g in groups ensures CollapseOne()(g) == Some(p) <==> AtCheapest(g, p) {
      if g.totals != [] {
        Extremes(g.totals);
      }
    }
  }

  function IsInferred(inferred: map<string, bool>, code: string): bool {
    code in inferred && inferred[code]
  }

  function WitnessOf(code: string, inferred: map<string, bool>): Priced -> Option<real> {
    (p: Priced) => if p.code != code && !IsInferred(inferred, p.code) then Some(p.total) else None
  }

  /** Direct prices of the other providers. */
  function Witnesses(collapsed: seq<Priced>, code: string, inferred: map<string, bool>): seq<real> {
    Gather(collapsed, WitnessOf(code, inferred))
  }

  const LOW_RATIO := 0.40
  const HIGH_RATIO := 2.50

  predicate IsAnomaly(collapsed: seq<Priced>, p: Priced, inferred: map<string, bool>, master: Option<string>) {
    && master != Some(p.code)
    && OutOfRange(p.total, Witnesses(collapsed, p.code, inferred))
  }

  /** Too far from the median of at least two witnesses. */
  predicate OutOfRange(total: real, witnesses: seq<real>) {
    && |witnesses| >= 2
    && Median(witnesses) != 0.0
    && (total / Median(witnesses) < LOW_RATIO || total / Median(witnesses) > HIGH_RATIO)
  }

  ghost predicate DistinctCodes(collapsed: seq<Priced>) {
    forall i, j :: 0 <= i < j < |collapsed| ==> collapsed[i].code != collapsed[j].code
  }

  ghost function Codes(collapsed: seq<Priced>): set<string> {
    set p | p in collapsed :: p.code
  }

  /** One pass of the loop body: the verdict on a single provider. */
  method Judge(collapsed: seq<Priced>, p: Priced, inferred: map<string, bool>, master: Option<string>)
    returns (anomaly: bool)
    ensures anomaly == IsAnomaly(collapsed, p, inferred, master)
  {
    anomaly := false;
    if master == Some(p.code) { return; }
    var witnesses := Gather(collapsed, WitnessOf(p.code, inferred));
    if |witnesses| < 2 { return; }
    var med := Median(witnesses);
    if med == 0.0 { return; }
    var ratio := p.total / med;
    anomaly := ratio < LOW_RATIO || ratio > HIGH_RATIO;
  }

  /** Every provider has a verdict, and the first n have the right one. */
  ghost predicate JudgedUpTo(result: map<string, bool>, collapsed: seq<Priced>, inferred: map<string, bool>,
                             master: Option<string>, n: nat)
  {
    && (forall p :: p in collapsed ==> p.code in result)
    && (forall code :: code in result ==> code in Codes(collapsed))
    && forall j :: 0 <= j < n && j < |collapsed| ==> RightVerdict(result, collapsed, inferred, master, j)
  }

  predicate RightVerdict(result: map<string, bool>, collapsed: seq<Priced>, inferred: map<string, bool>,
                         master: Option<string>, j: nat)
    requires j < |collapsed|
  {
    var code := collapsed[j].code;
    code in result && result[code] == IsAnomaly(collapsed, collapsed[j], inferred, master)
  }

  lemma JudgeNext(result: map<string, bool>, collapsed: seq<Priced>, inferred: map<string, bool>,
                  master: Option<string>, n: nat, verdict: bool)
    requires n < |collapsed| && DistinctCodes(collapsed) && JudgedUpTo(result, collapsed, inferred, master, n)
    requires verdict == IsAnomaly(collapsed, collapsed[n], inferred, master)
    ensures JudgedUpTo(result[collapsed[n].code := verdict], collapsed, inferred, master, n + 1)
  {
    var next := result[collapsed[n].code := verdict];
    assert collapsed[n].code in Codes(collapsed);
    forall j: nat | j < n ensures RightVerdict(next, collapsed, inferred, master, j) {
      assert RightVerdict(result, collapsed, inferred, master, j);
      assert collapsed[j].code != collapsed[n].code;
    }
  }

  lemma AllJudged(result: map<string, bool>, collapsed: seq<Priced>, inferred: map<string, bool>,
                  master: Option<string>)
    requires JudgedUpTo(result, collapsed, inferred, master, |collapsed|)
    ensures result.Keys == Codes(collapsed)
    ensures forall p :: p in collapsed ==> result[p.code] == IsAnomaly(collapsed, p, inferred, master)
  {
    forall p | p in collapsed ensures result[p.code] == IsAnomaly(collapsed, p, inferred, master) {
      var j :| 0 <= j < |collapsed| && collapsed[j] == p;
      assert RightVerdict(result, collapsed, inferred, master, j);
    }
  }

  method DetectAnomalies(collapsed: seq<Priced>, inferred: map<string, bool>, master: Option<string>)
    returns (result: map<string, bool>)
    requires DistinctCodes(collapsed)
    ensures result.Keys == Codes(collapsed)
    ensures forall p :: p in collapsed ==> result[p.code] == IsAnomaly(collapsed, p, inferred, master)
  {
    result := map p | p in collapsed :: p.code := false;
    assert result.Keys == Codes(collapsed);
    var i := 0;
    while i < |collapsed|
      invariant 0 <= i <= |collapsed|
      invariant JudgedUpTo(result, collapsed, inferred, master, i)
    {
      var anomaly := Judge(collapsed, collapsed[i], inferred, master);
      JudgeNext(result, collapsed, inferred, master, i, anomaly);
      result := result[collapsed[i].code := anomaly];
      i := i + 1;
    }
    AllJudged(result, collapsed, inferred, master);
  }

  lemma ScaleMonotone(x: real, y: real, f: real)
    requires x <= y && f >= 0.0
    ensures x * f <= y * f
  {
  }

  lemma ScaleStrict(x: real, y: real, f: real)
    requires x < y && f > 0.0
    ensures x * f < y * f
  {
  }

  lemma CompareRatio(total: real, med: real, k: real)
    requires med > 0.0
    ensures total / med < k <==> total < k * med
    ensures total / med > k <==> total > k * med
  {
    var ratio := total / med;
    assert total == ratio * med;
    if ratio < k { ScaleStrict(ratio, k, med); }
    if ratio > k { ScaleStrict(k, ratio, med); }
  }

  /** The thresholds: below two fifths or above five halves of a positive median. */
  lemma OutOfRangeIff(total: real, witnesses: seq<real>)
    requires |witnesses| >= 2 && Median(witnesses) > 0.0
    ensures OutOfRange(total, witnesses) <==>
      5.0 * total < 2.0 * Median(witnesses) || 2.0 * total > 5.0 * Median(witnesses)
  {
    CompareRatio(total, Median(witnesses), LOW_RATIO);
    CompareRatio(total, Median(witnesses), HIGH_RATIO);
  }

  /** A strict majority of honest witnesses decides: whatever the minority reports, a provider far
      from the honest range is dropped and one close to it is kept. */
  lemma MajorityDecides(collapsed: seq<Priced>, p: Priced, inferred: map<string, bool>, master: Option<string>,
                        lo: real, hi: real)
    requires 0.0 < lo <= hi && master != Some(p.code)
    requires var w := Witnesses(collapsed, p.code, inferred); |w| >= 2 && 2 * CountIn(w, lo, hi) > |w|
    ensures p.total < LOW_RATIO * lo || p.total > HIGH_RATIO * hi ==> IsAnomaly(collapsed, p, inferred, master)
    ensures LOW_RATIO * hi <= p.total <= HIGH_RATIO * lo ==> !IsAnomaly(collapsed, p, inferred, master)
  {
    var w := Witnesses(collapsed, p.code, inferred);
    MajorityPinsMedian(w, lo, hi);
    CompareRatio(p.total, Median(w), LOW_RATIO);
    CompareRatio(p.total, Median(w), HIGH_RATIO);
    ScaleMonotone(lo, Median(w), LOW_RATIO);
    ScaleMonotone(Median(w), hi, LOW_RATIO);
    ScaleMonotone(lo, Median(w), HIGH_RATIO);
    ScaleMonotone(Median(w), hi, HIGH_RATIO);
  }

  /** Inferred prices never vote: repricing inferred providers leaves every other verdict alone. */
  lemma InferredNeverVote(a: seq<Priced>, b: seq<Priced>, p: Priced, inferred: map<string, bool>,
                          master: Option<string>)
    requires |a| == |b|
    requires forall i :: 0 <= i < |a| ==> a[i].code == b[i].code
    requires forall i :: 0 <= i < |a| && !IsInferred(inferred, a[i].code) ==> a[i] == b[i]
    ensures IsAnomaly(a, p, inferred, master) == IsAnomaly(b, p, inferred, master)
  {
    var same := (x: real, y: real) => x == y;
    GatherRelated(a, WitnessOf(p.code, inferred), b, WitnessOf(p.code, inferred), same);
    var v, w := Witnesses(a, p.code, inferred), Witnesses(b, p.code, inferred);
    assert forall i :: 0 <= i < |v| ==> same(v[i], w[i]);
    assert v == w;
  }

  lemma AnomalyIgnoresOrder(a: seq<Priced>, b: seq<Priced>, p: Priced, inferred: map<string, bool>,
                            master: Option<string>)
    requires multiset(a) == multiset(b)
    ensures IsAnomaly(a, p, inferred, master) == IsAnomaly(b, p, inferred, master)
  {
    GatherPermutes(a, b, WitnessOf(p.code, inferred));
    StatisticsIgnoreOrder(Witnesses(a, p.code, inferred), Witnesses(b, p.code, inferred));
  }

  function KeptTotal(collapsed: seq<Priced>, inferred: map<string, bool>,
                     master: Option<string>): Priced -> Option<real>
  {
    (p: Priced) => if IsAnomaly(collapsed, p, inferred, master) then None else Some(p.total)
  }

  /** Totals of the providers that survive the anomaly filter, in dictionary order. */
  function ValidTotals(groups: seq<ProviderTotals>, inferred: map<string, bool>, master: Option<string>): seq<real> {
    var collapsed := Collapse(groups);
    Gather(collapsed, KeptTotal(collapsed, inferred, master))
  }

  // ---------------------------------------------------------------- steps 3 to 6

  function AggregateCrossProvider(totals: seq<real>, base: Base): Result<Option<real>, PricingError> {
    if totals == [] then Ok(None)
    else match base
      case MinBase => Ok(Some(Min(totals)))
      case MaxBase => Ok(Some(Max(totals)))
      case AvgBase => Ok(Some(Mean(totals)))
      case MedBase => Ok(Some(Median(totals)))
      case UnknownBase => Err(UnknownBaseAggregation)
  }

  /** The middle of some sorted arrangement of the list. */
  ghost predicate IsMiddle(m: real, s: seq<real>) {
    exists r :: IsMiddleOf(m, s, r)
  }

  ghost predicate IsMiddleOf(m: real, s: seq<real>, r: seq<real>) {
    && (forall i, j :: 0 <= i < j < |r| ==> r[i] <= r[j]) && multiset(r) == multiset(s) && |r| == |s| && s != []
    && if |s| % 2 == 1 then m == r[(|s| - 1) / 2] else 2.0 * m == r[|s| / 2 - 1] + r[|s| / 2]
  }

  /** What a base is, in terms of the totals themselves. */
  ghost predicate IsBase(b: real, totals: seq<real>, base: Base) {
    match base
    case MinBase => b in totals && forall x :: x in totals ==> b <= x
    case MaxBase => b in totals && forall x :: x in totals ==> x <= b
    case AvgBase => b * |totals| as real == Sum(totals)
    case MedBase => IsMiddle(b, totals)
    case UnknownBase => false
  }

  lemma AggregateMeaning(totals: seq<real>, base: Base)
    requires totals != [] && base != UnknownBase
    ensures IsBase(AggregateCrossProvider(totals, base).value.value, totals, base)
  {
    match base
    case MinBase => Extremes(totals);
    case MaxBase => Extremes(totals);
    case AvgBase => MeanMeaning(totals);
    case MedBase => MedianIsMiddle(totals);
  }

  lemma MedianIsMiddle(s: seq<real>)
    requires s != []
    ensures IsMiddle(Median(s), s)
  {
    var r := Sort(s);
    SortSorts(s);
    MedianMeaning(s, r);
    forall i, j | 0 <= i < j < |r| ensures r[i] <= r[j] {
      SortedAt(r, i, j);
    }
    assert IsMiddleOf(Median(s), s, r);
  }

  /** The breakers: 82 % of the cheapest total, 55 % of the dearest, and the dearest itself. */
  lemma BreakersMeaning(totals: seq<real>, rule: Rule)
    requires totals != []
    ensures Floor(totals, rule) == None <==> rule.floorMode == NoFloor
    ensures Ceiling(totals, rule) == None <==> rule.ceilingMode == NoCeiling
    ensures rule.floorMode == AutoFloor ==>
      exists x :: IsBase(x, totals, MinBase) && Floor(totals, rule) == Some(0.82 * x)
    ensures rule.floorMode == CostFloor ==>
      exists x :: IsBase(x, totals, MaxBase) && Floor(totals, rule) == Some(0.55 * x)
    ensures rule.ceilingMode == MaxCeiling ==>
      exists x :: IsBase(x, totals, MaxBase) && Ceiling(totals, rule) == Some(x)
  {
    Extremes(totals);
    assert IsBase(Min(totals), totals, MinBase) && IsBase(Max(totals), totals, MaxBase);
  }

  function Sign(op: Op): real { if op == Sub then -1.0 else 1.0 }

  /** What a percentage rule multiplies the base by. */
  function Factor(rule: Rule): real {
    1.0 + Sign(rule.op) * rule.val / 100.0
  }

  function ApplyRule(base: real, rule: Rule): real {
    if rule.mode == Pct then base * Factor(rule) else base + Sign(rule.op) * rule.val
  }

  /** A percentage is taken off or added in hundredths of the base, an amount as it is. */
  lemma RuleMeaning(base: real, rule: Rule)
    requires rule.op != OtherOp
    ensures rule.mode == Abs ==> ApplyRule(base, rule) == if rule.op == Sub then base - rule.val else base + rule.val
    ensures rule.mode == Pct && rule.op == Sub ==> ApplyRule(base, rule) == base - base * rule.val / 100.0
    ensures rule.mode == Pct && rule.op == Add ==> ApplyRule(base, rule) == base + base * rule.val / 100.0
  {
  }

  function Floor(totals: seq<real>, rule: Rule): Option<real> {
    if totals == [] then None
    else match rule.floorMode
      case AutoFloor => Some(Min(totals) * 0.82)
      case CostFloor => Some(Max(totals) * 0.55)
      case NoFloor => None
  }

  function Ceiling(totals: seq<real>, rule: Rule): Option<real> {
    if totals == [] || rule.ceilingMode == NoCeiling then None else Some(Max(totals))
  }

  /** Floor first, then ceiling; the second test sees the value the first one left. */
  function ApplyClamp(adjusted: real, floor: Option<real>, ceiling: Option<real>): (r: (real, Option<Clamp>))
    ensures ceiling.Some? ==> r.0 <= ceiling.value
    ensures floor.Some? && (ceiling.Some? ==> floor.value <= ceiling.value) ==> r.0 >= floor.value
    ensures r.1 == None <==>
      r.0 == adjusted && (floor.Some? ==> floor.value <= adjusted) && (ceiling.Some? ==> adjusted <= ceiling.value)
    ensures r.1 == Some(FloorFired) <==>
      floor.Some? && adjusted < floor.value == r.0 && (ceiling.Some? ==> floor.value <= ceiling.value)
    ensures r.1 == Some(CeilingFired) ==>
      ceiling.Some? && r.0 == ceiling.value &&
        (adjusted > ceiling.value || (floor.Some? && floor.value > ceiling.value))
  {
    var afterFloor := if floor.Some? && adjusted < floor.value then (floor.value, Some(FloorFired))
      else (adjusted, None);
    if ceiling.Some? && afterFloor.0 > ceiling.value then (ceiling.value, Some(CeilingFired)) else afterFloor
  }

  /** The recommendation as a function of the surviving totals alone. */
  function Recommend(totals: seq<real>, base: Base, rule: Rule, mode: RoundMode): Result<Option<real>, PricingError> {
    match AggregateCrossProvider(totals, base)
    case Err(e) => Err(e)
    case Ok(None) => Ok(None)
    case Ok(Some(b)) =>
      var clamped := ApplyClamp(ApplyRule(b, rule), Floor(totals, rule), Ceiling(totals, rule)).0;
      match RoundDirectional(clamped, b, rule.op, rule.val, mode)
      case Ok(price) => Ok(Some(price))
      case Err(e) => Err(e)
  }

  // ---------------------------------------------------------------- monotonicity and order

  lemma RuleMonotone(b: real, b': real, rule: Rule)
    requires b <= b' && (rule.mode == Pct ==> Factor(rule) >= 0.0)
    ensures ApplyRule(b, rule) <= ApplyRule(b', rule)
  {
    if rule.mode == Pct {
      ScaleMonotone(b, b', Factor(rule));
    }
  }

  lemma ClampMonotone(a: real, f: Option<real>, c: Option<real>, a': real, f': Option<real>, c': Option<real>)
    requires a <= a' && f.Some? == f'.Some? && c.Some? == c'.Some?
    requires f.Some? ==> f.value <= f'.value
    requires c.Some? ==> c.value <= c'.value
    ensures ApplyClamp(a, f, c).0 <= ApplyClamp(a', f', c').0
  {
  }

  lemma RecommendMonotone(s: seq<real>, t: seq<real>, base: Base, rule: Rule, mode: RoundMode)
    requires Below(s, t) && s != []
    requires rule.mode == Pct ==> Factor(rule) >= 0.0
    requires Recommend(s, base, rule, mode).Ok?
    ensures Recommend(s, base, rule, mode).value.Some? && Recommend(t, base, rule, mode).Ok?
    ensures Recommend(t, base, rule, mode).value.Some?
    ensures Recommend(s, base, rule, mode).value.value <= Recommend(t, base, rule, mode).value.value
  {
    StatisticsMonotone(s, t);
    var b, b' := AggregateCrossProvider(s, base).value.value, AggregateCrossProvider(t, base).value.value;
    RuleMonotone(b, b', rule);
    ClampMonotone(ApplyRule(b, rule), Floor(s, rule), Ceiling(s, rule), ApplyRule(b', rule), Floor(t, rule),
                  Ceiling(t, rule));
    RoundDirectionalMonotone(
      ApplyClamp(ApplyRule(b, rule), Floor(s, rule), Ceiling(s, rule)).0, b,
      ApplyClamp(ApplyRule(b', rule), Floor(t, rule), Ceiling(t, rule)).0, b', rule.op, rule.val, mode);
  }

  lemma RecommendIgnoresOrder(s: seq<real>, t: seq<real>, base: Base, rule: Rule, mode: RoundMode)
    requires multiset(s) == multiset(t)
    ensures Recommend(s, base, rule, mode) == Recommend(t, base, rule, mode)
  {
    StatisticsIgnoreOrder(s, t);
    assert s == [] <==> t == [];
    assert AggregateCrossProvider(s, base) == AggregateCrossProvider(t, base);
    assert Floor(s, rule) == Floor(t, rule) && Ceiling(s, rule) == Ceiling(t, rule);
  }
}
