/** One cell of the tariff view: compute_cell, which strings the calculator's steps together, and the
    guarantees that hold end to end. */
module TariffCell {
  import opened Comprehension
  import opened CrossTariff
  import opened OrderStatistics
  import opened PriceRounding

  datatype Contribution = Contribution(
    code: string, total: real, perDay: real, isBase: bool, stale: bool, staleDays: int, inferred: bool)

  datatype Reason = Anomaly | Missing

  datatype Dropped = Dropped(code: string, total: Option<real>, reason: Reason)

  datatype CellFlags = CellFlags(
    coverage: nat, totalProviders: int, clamped: Option<Clamp>, stale: bool, degraded: bool, inferred: bool)

  datatype CellResult = CellResult(
    recTotal: Option<real>, recPerDay: Option<real>, baseTotal: Option<real>, adjustedTotal: Option<real>,
    clampedTotal: Option<real>, floor: Option<real>, ceiling: Option<real>,
    present: seq<Contribution>, dropped: seq<Dropped>, flags: CellFlags, roundFlip: bool)

  /** Everything about the request besides prices and rule. */
  datatype Context = Context(
    duration: int, staleProviders: set<string>, staleDays: map<string, int>, missing: set<string>,
    totalProviders: int, inferred: map<string, bool>, master: Option<string>)

  predicate Flagged(collapsed: seq<Priced>, p: Priced, ctx: Context) {
    IsAnomaly(collapsed, p, ctx.inferred, ctx.master)
  }

  function PerDay(total: real, duration: int): real {
    if duration != 0 then total / duration as real else 0.0
  }

  /** The contribution of a surviving provider, before the base is known. */
  function PresentOf(collapsed: seq<Priced>, ctx: Context): Priced -> Option<Contribution> {
    (p: Priced) =>
      if Flagged(collapsed, p, ctx) then None
      else Some(Contribution(p.code, p.total, PerDay(p.total, ctx.duration), false, p.code in ctx.staleProviders,
                             if p.code in ctx.staleDays then ctx.staleDays[p.code]
                               else 0, IsInferred(ctx.inferred, p.code)))
  }

  function DroppedOf(collapsed: seq<Priced>, ctx: Context): Priced -> Option<Dropped> {
    (p: Priced) => if Flagged(collapsed, p, ctx) then Some(Dropped(p.code, Some(p.total), Anomaly)) else None
  }

  ghost predicate DistinctProviders(groups: seq<ProviderTotals>) {
    forall i, j :: 0 <= i < j < |groups| ==> groups[i].code != groups[j].code
  }

  lemma CollapsedCode(groups: seq<ProviderTotals>, p: Priced)
    requires p in Collapse(groups)
    ensures exists g :: g in groups && g.code == p.code
  {
    GatherMembers(groups, CollapseOne(), p);
  }

  lemma {:induction false} CollapseKeepsCodes(groups: seq<ProviderTotals>)
    requires DistinctProviders(groups)
    ensures DistinctCodes(Collapse(groups))
  {
    if groups != [] {
      CollapseKeepsCodes(groups[1..]);
      var rest := Collapse(groups[1..]);
      forall i | 0 <= i < |rest| ensures rest[i].code != groups[0].code {
        CollapsedCode(groups[1..], rest[i]);
      }
    }
  }

  /** The is_base mark: who set the aggregate, for the two bases that single somebody out. */
  predicate Sets(p: Contribution, base: Base, aggregate: real) {
    (base == MinBase || base == MaxBase) && p.total == aggregate
  }

  function Marked(present: seq<Contribution>, base: Base, aggregate: real): seq<Contribution> {
    seq(|present|, i requires 0 <= i < |present| => present[i].(isBase := Sets(present[i], base, aggregate)))
  }

  function Totals(present: seq<Contribution>): seq<real> {
    seq(|present|, i requires 0 <= i < |present| => present[i].total)
  }

  lemma PresentTotals(groups: seq<ProviderTotals>, ctx: Context)
    ensures var c := Collapse(groups); Totals(Gather(c, PresentOf(c, ctx))) == ValidTotals(groups, ctx.inferred,
                                                                                           ctx.master)
  {
    var c := Collapse(groups);
    var related := (p: Contribution, total: real) => p.total == total;
    GatherRelated(c, PresentOf(c, ctx), c, KeptTotal(c, ctx.inferred, ctx.master), related);
    var present, totals := Gather(c, PresentOf(c, ctx)), ValidTotals(groups, ctx.inferred, ctx.master);
    assert forall i :: 0 <= i < |present| ==> related(present[i], totals[i]);
  }

  /** Steps 3 to 6 on the surviving totals. */
  datatype Figures = Figures(
    rec: real, base: real, adjusted: real, clamped: real, fired: Option<Clamp>,
    floor: Option<real>, ceiling: Option<real>, flip: bool)

  ghost predicate Derived(f: Figures, valid: seq<real>, rule: Rule, base: Base, mode: RoundMode) {
    && AggregateCrossProvider(valid, base) == Ok(Some(f.base)) && IsBase(f.base, valid, base)
    && f.adjusted == ApplyRule(f.base, rule)
    && f.floor == Floor(valid, rule) && f.ceiling == Ceiling(valid, rule)
    && (f.clamped, f.fired) == ApplyClamp(f.adjusted, f.floor, f.ceiling)
    && RoundDirectional(f.clamped, f.base, rule.op, rule.val, mode) == Ok(f.rec)
    && (f.flip <==>
          OnGrid(mode) && rule.val != 0.0 && !OnRuleSide(Grid(mode, SnapIndex(f.clamped, mode)), f.base, rule.op))
  }

  /** Who is listed where. */
  ghost predicate Listed(r: CellResult, groups: seq<ProviderTotals>, ctx: Context, base: Base) {
    var c := Collapse(groups);
    var survivors := Gather(c, PresentOf(c, ctx));
    var anomalies := Gather(c, DroppedOf(c, ctx));
    && r.present == (if r.baseTotal.Some? then Marked(survivors, base, r.baseTotal.value) else [])
    && anomalies <= r.dropped
    && |r.dropped| == |anomalies| + |ctx.missing|
    && (forall code :: code in ctx.missing <==> Dropped(code, None, Missing) in r.dropped[|anomalies|..])
    && r.flags.coverage == |survivors|
    && (ctx.totalProviders != 0 ==> r.flags.totalProviders == ctx.totalProviders)
    && (ctx.totalProviders == 0 ==> r.flags.totalProviders == |groups| + |ctx.missing|)
    && (r.flags.degraded <==> anomalies != [])
    && (r.flags.stale <==> exists p :: p in r.present && p.code in ctx.staleProviders)
    && (r.flags.inferred <==> exists p :: p in r.present && IsInferred(ctx.inferred, p.code))
  }

  /** What a cell reports besides the recommendation itself. */
  ghost predicate Accounts(r: CellResult, groups: seq<ProviderTotals>, ctx: Context, rule: Rule, base: Base,
                           mode: RoundMode)
  {
    var valid := ValidTotals(groups, ctx.inferred, ctx.master);
    && Listed(r, groups, ctx, base)
    && (if valid == [] then
          r.recTotal == r.recPerDay == r.baseTotal == r.adjustedTotal == r.clampedTotal == r.floor == r.ceiling == None
          && r.flags.clamped == None && !r.roundFlip
        else exists f :: (
          && Derived(f, valid, rule, base, mode)
          && r.recTotal == Some(f.rec) && r.recPerDay == Some(PerDay(f.rec, ctx.duration))
          && r.baseTotal == Some(f.base) && r.adjustedTotal == Some(f.adjusted) && r.clampedTotal == Some(f.clamped)
          && r.floor == f.floor && r.ceiling == f.ceiling && r.flags.clamped == f.fired && r.roundFlip == f.flip))
  }

  method ComputeFigures(valid: seq<real>, rule: Rule, base: Base, mode: RoundMode)
    returns (r: Result<Figures, PricingError>)
    requires valid != []
    ensures match Recommend(valid, base, rule, mode)
      case Err(e) => r == Err(e)
      case Ok(price) => r.Ok? && price == Some(r.value.rec) && Derived(r.value, valid, rule, base, mode)
  {
    var aggregate := AggregateCrossProvider(valid, base);
    if aggregate.Err? {
      return Err(aggregate.error);
    }
    var baseTotal := aggregate.value.value;
    AggregateMeaning(valid, base);
    var adjusted := ApplyRule(baseTotal, rule);
    var floor, ceiling := Floor(valid, rule), Ceiling(valid, rule);
    var clamp := ApplyClamp(adjusted, floor, ceiling);
    var rounded := ApplyRoundingDirectional(clamp.0, baseTotal, rule.op, rule.val, mode);
    if rounded.Err? {
      return Err(rounded.error);
    }
    r := Ok(Figures(rounded.value.0, baseTotal, adjusted, clamp.0, clamp.1, floor, ceiling, rounded.value.1));
  }

  /** The loop over the collapsed providers: survivors to one list, anomalies to the other. */
  method Separate(collapsed: seq<Priced>, ctx: Context) returns (present: seq<Contribution>, dropped: seq<Dropped>)
    requires DistinctCodes(collapsed)
    ensures present == Gather(collapsed, PresentOf(collapsed, ctx))
    ensures dropped == Gather(collapsed, DroppedOf(collapsed, ctx))
  {
    var anomalies := DetectAnomalies(collapsed, ctx.inferred, ctx.master);
    present, dropped := [], [];
    var i := 0;
    while i < |collapsed|
      invariant 0 <= i <= |collapsed|
      invariant present == Gather(collapsed[..i], PresentOf(collapsed, ctx))
      invariant dropped == Gather(collapsed[..i], DroppedOf(collapsed, ctx))
    {
      var p := collapsed[i];
      GatherSnoc(collapsed, i, PresentOf(collapsed, ctx));
      GatherSnoc(collapsed, i, DroppedOf(collapsed, ctx));
      if anomalies[p.code] {
        dropped := dropped + [Dropped(p.code, Some(p.total), Anomaly)];
      } else {
        present := present + [Contribution(
          p.code, p.total, PerDay(p.total, ctx.duration), false, p.code in ctx.staleProviders,
          if p.code in ctx.staleDays then ctx.staleDays[p.code] else 0, IsInferred(ctx.inferred, p.code))];
      }
      i := i + 1;
    }
    assert collapsed[..|collapsed|] == collapsed;
  }

  /** The loop over the missing providers, a set: every one once, in no particular order. */
  method AppendMissing(dropped: seq<Dropped>, missing: set<string>) returns (r: seq<Dropped>)
    ensures dropped <= r && |r| == |dropped| + |missing|
    ensures forall code :: code in missing <==> Dropped(code, None, Missing) in r[|dropped|..]
  {
    r := dropped;
    var rest := missing;
    while rest != {}
      invariant rest <= missing && dropped <= r && |r| + |rest| == |dropped| + |missing|
      invariant forall code :: code in missing - rest <==> Dropped(code, None, Missing) in r[|dropped|..]
      decreases rest
    {
      var code :| code in rest;
      assert (r + [Dropped(code, None, Missing)])[|dropped|..] == r[|dropped|..] + [Dropped(code, None, Missing)];
      r := r + [Dropped(code, None, Missing)];
      rest := rest - {code};
    }
  }

  /** The loop that marks the providers which set the base, record by record. */
  method MarkBase(present: seq<Contribution>, base: Base, totals: seq<real>, aggregate: real)
    returns (r: seq<Contribution>)
    requires totals == Totals(present) && totals != []
    requires forall i :: 0 <= i < |present| ==> !present[i].isBase
    requires AggregateCrossProvider(totals, base) == Ok(Some(aggregate))
    ensures r == Marked(present, base, aggregate)
  {
    r := present;
    var i := 0;
    while i < |r|
      invariant 0 <= i <= |r| == |present|
      invariant forall j :: 0 <= j < i ==> r[j] == present[j].(isBase := Sets(present[j], base, aggregate))
      invariant forall j :: i <= j < |r| ==> r[j] == present[j]
    {
      if base == MinBase {
        r := r[i := r[i].(isBase := r[i].total == Min(totals))];
      } else if base == MaxBase {
        r := r[i := r[i].(isBase := r[i].total == Max(totals))];
      }
      i := i + 1;
    }
  }

  /** Both providers lists, with all survivors before marking. */
  ghost predicate Separated(present: seq<Contribution>, dropped: seq<Dropped>, groups: seq<ProviderTotals>,
                            ctx: Context)
  {
    var c := Collapse(groups);
    var anomalies := Gather(c, DroppedOf(c, ctx));
    && present == Gather(c, PresentOf(c, ctx))
    && anomalies <= dropped && |dropped| == |anomalies| + |ctx.missing|
    && (forall code :: code in ctx.missing <==> Dropped(code, None, Missing) in dropped[|anomalies|..])
  }

  function TotalProviders(groups: seq<ProviderTotals>, ctx: Context): int {
    if ctx.totalProviders != 0 then ctx.totalProviders else |groups| + |ctx.missing|
  }

  /** The cell once the figures are known. */
  method PricedCell(groups: seq<ProviderTotals>, ctx: Context, base: Base, survivors: seq<Contribution>,
                    dropped: seq<Dropped>, degraded: bool, f: Figures) returns (r: CellResult)
    requires Separated(survivors, dropped, groups, ctx) && survivors != []
    requires degraded <==> Gather(Collapse(groups), DroppedOf(Collapse(groups), ctx)) != []
    requires AggregateCrossProvider(Totals(survivors), base) == Ok(Some(f.base))
    ensures Listed(r, groups, ctx, base)
    ensures r.recTotal == Some(f.rec) && r.recPerDay == Some(PerDay(f.rec, ctx.duration))
    ensures r.baseTotal == Some(f.base) && r.adjustedTotal == Some(f.adjusted) && r.clampedTotal == Some(f.clamped)
    ensures r.floor == f.floor && r.ceiling == f.ceiling && r.flags.clamped == f.fired && r.roundFlip == f.flip
  {
    SurvivorsUnmarked(Collapse(groups), ctx);
    var present := MarkBase(survivors, base, Totals(survivors), f.base);
    MarkedKeeps(Collapse(groups), ctx, base, f.base);
    r := CellResult(
      Some(f.rec), Some(PerDay(f.rec, ctx.duration)), Some(f.base), Some(f.adjusted), Some(f.clamped),
      f.floor, f.ceiling, present, dropped,
      CellFlags(|present|, TotalProviders(groups, ctx), f.fired, exists p :: p in present && p.stale, degraded,
                exists p :: p in present && p.inferred),
      f.flip);
  }

  /** compute_cell: the whole pipeline. */
  method ComputeCell(groups: seq<ProviderTotals>, ctx: Context, rule: Rule, base: Base, mode: RoundMode)
    returns (r: Result<CellResult, PricingError>)
    requires DistinctProviders(groups)
    ensures match Recommend(ValidTotals(groups, ctx.inferred, ctx.master), base, rule, mode)
      case Err(e) => r == Err(e)
      case Ok(price) => r.Ok? && r.value.recTotal == price && Accounts(r.value, groups, ctx, rule, base, mode)
  {
    var collapsed := Collapse(groups);
    CollapseKeepsCodes(groups);
    var present, anomalies := Separate(collapsed, ctx);
    var dropped := AppendMissing(anomalies, ctx.missing);
    PresentTotals(groups, ctx);
    if present == [] {
      return Ok(CellResult(None, None, None, None, None, None, None, [], dropped,
                           CellFlags(0, TotalProviders(groups, ctx), None, false, anomalies != [], false), false));
    }
    var figures := ComputeFigures(Totals(present), rule, base, mode);
    if figures.Err? {
      return Err(figures.error);
    }
    var cell := PricedCell(groups, ctx, base, present, dropped, anomalies != [], figures.value);
    r := Ok(cell);
  }

  lemma {:induction false} SurvivorsUnmarked(collapsed: seq<Priced>, ctx: Context)
    ensures forall i :: 0 <= i < |Gather(collapsed, PresentOf(collapsed, ctx))| ==>
      !Gather(collapsed, PresentOf(collapsed, ctx))[i].isBase
  {
    var s := Gather(collapsed, PresentOf(collapsed, ctx));
    forall i | 0 <= i < |s| ensures !s[i].isBase {
      GatherMembers(collapsed, PresentOf(collapsed, ctx), s[i]);
    }
  }

  /** Marking changes nothing but the mark, so the stale and inferred flags read off the marked list
      describe the survivors. */
  lemma MarkedKeeps(collapsed: seq<Priced>, ctx: Context, base: Base, aggregate: real)
    ensures var s := Gather(collapsed, PresentOf(collapsed, ctx));
      var m := Marked(s, base, aggregate);
      forall p :: p in m ==> (
        (p.stale <==> p.code in ctx.staleProviders) && (p.inferred <==> IsInferred(ctx.inferred, p.code)))
  {
    var s := Gather(collapsed, PresentOf(collapsed, ctx));
    var m := Marked(s, base, aggregate);
    forall p | p in m ensures (p.stale <==> p.code in ctx.staleProviders) &&
      (p.inferred <==> IsInferred(ctx.inferred, p.code)) {
      var i :| 0 <= i < |m| && m[i] == p;
      GatherMembers(collapsed, PresentOf(collapsed, ctx), s[i]);
    }
  }

  /** For the bases that single somebody out, somebody is marked, and the marked ones are exactly the
      providers whose total is the aggregate. */
  lemma BaseHasOwner(present: seq<Contribution>, base: Base)
    requires present != [] && (base == MinBase || base == MaxBase)
    ensures var b := AggregateCrossProvider(Totals(present), base).value.value;
      && (exists p :: p in Marked(present, base, b) && p.isBase)
      && forall p :: p in Marked(present, base, b) ==> (p.isBase <==> p.total == b)
  {
    var totals := Totals(present);
    var b := AggregateCrossProvider(totals, base).value.value;
    Extremes(totals);
    var i :| 0 <= i < |totals| && totals[i] == b;
    assert Marked(present, base, b)[i].isBase;
    assert Marked(present, base, b)[i] in Marked(present, base, b);
  }

  lemma {:induction false} CountsAddUp(collapsed: seq<Priced>, some: seq<Priced>, ctx: Context)
    ensures |Gather(some, PresentOf(collapsed, ctx))| + |Gather(some, DroppedOf(collapsed, ctx))| == |some|
  {
    if some != [] {
      CountsAddUp(collapsed, some[1..], ctx);
    }
  }

  /** Nobody is lost and nobody is counted twice: every provider is either present or dropped, never both, and
      the two lists have as many entries as there are providers. */
  lemma Conservation(collapsed: seq<Priced>, ctx: Context)
    requires DistinctCodes(collapsed)
    ensures var present := Gather(collapsed, PresentOf(collapsed, ctx));
      var dropped := Gather(collapsed, DroppedOf(collapsed, ctx));
      && |present| + |dropped| == |collapsed|
      && forall p :: p in collapsed ==> (
           (exists c: Contribution :: c in present && c.code == p.code) <==>
             !(exists d: Dropped :: d in dropped && d.code == p.code))
  {
    CountsAddUp(collapsed, collapsed, ctx);
    var f, g := PresentOf(collapsed, ctx), DroppedOf(collapsed, ctx);
    forall p | p in collapsed
      ensures (exists c: Contribution :: c in Gather(collapsed, f) && c.code == p.code) <==> f(p).Some?
      ensures (exists d: Dropped :: d in Gather(collapsed, g) && d.code == p.code) <==> g(p).Some?
    {
      PresentMeaning(collapsed, p, ctx);
      DroppedMeaning(collapsed, p, ctx);
    }
  }

  /** What is reported of a survivor: its own total, a price per day that makes it up, and its own marks. */
  lemma ContributionMeaning(collapsed: seq<Priced>, ctx: Context, c: Contribution, days: real)
    requires c in Gather(collapsed, PresentOf(collapsed, ctx)) && days == ctx.duration as real
    ensures exists p :: p in collapsed && p.code == c.code && p.total == c.total
    ensures ctx.duration != 0 ==> c.perDay * days == c.total
    ensures c.stale <==> c.code in ctx.staleProviders
    ensures c.staleDays == if c.code in ctx.staleDays then ctx.staleDays[c.code] else 0
    ensures c.inferred <==> c.code in ctx.inferred && ctx.inferred[c.code]
  {
    GatherMembers(collapsed, PresentOf(collapsed, ctx), c);
    if ctx.duration != 0 {
      PerDayTimesDays(c.total, days, c.perDay);
    }
  }

  lemma PerDayTimesDays(total: real, days: real, perDay: real)
    requires days != 0.0 && perDay == total / days
    ensures perDay * days == total
  {
  }

  lemma PresentMeaning(collapsed: seq<Priced>, p: Priced, ctx: Context)
    requires DistinctCodes(collapsed) && p in collapsed
    ensures var f := PresentOf(collapsed, ctx); (exists c: Contribution ::
      c in Gather(collapsed, f) && c.code == p.code) <==> f(p).Some?
  {
    var f := PresentOf(collapsed, ctx);
    var k :| 0 <= k < |collapsed| && collapsed[k] == p;
    if f(p).Some? {
      GatherMembers(collapsed, f, f(p).value);
    }
    if c: Contribution :| c in Gather(collapsed, f) && c.code == p.code {
      GatherMembers(collapsed, f, c);
      var i :| 0 <= i < |collapsed| && f(collapsed[i]) == Some(c);
      assert i == k;
    }
  }

  lemma DroppedMeaning(collapsed: seq<Priced>, p: Priced, ctx: Context)
    requires DistinctCodes(collapsed) && p in collapsed
    ensures var g := DroppedOf(collapsed, ctx); (exists d: Dropped ::
      d in Gather(collapsed, g) && d.code == p.code) <==> g(p).Some?
  {
    var g := DroppedOf(collapsed, ctx);
    var k :| 0 <= k < |collapsed| && collapsed[k] == p;
    if g(p).Some? {
      GatherMembers(collapsed, g, g(p).value);
    }
    if d: Dropped :| d in Gather(collapsed, g) && d.code == p.code {
      GatherMembers(collapsed, g, d);
      var i :| 0 <= i < |collapsed| && g(collapsed[i]) == Some(d);
      assert i == k;
    }
  }

  // ---------------------------------------------------------------- end-to-end guarantees

  /** The same providers with the same number of groups, none of them cheaper. */
  ghost predicate Raised(a: seq<ProviderTotals>, b: seq<ProviderTotals>) {
    |a| == |b| && forall i :: 0 <= i < |a| ==> a[i].code == b[i].code && Below(a[i].totals, b[i].totals)
  }

  ghost predicate SameSurvivors(a: seq<ProviderTotals>, b: seq<ProviderTotals>, ctx: Context) {
    var c, d := Collapse(a), Collapse(b);
    |c| == |d| && forall i :: 0 <= i < |c| ==> Flagged(c, c[i], ctx) == Flagged(d, d[i], ctx)
  }

  lemma CollapseMonotone(a: seq<ProviderTotals>, b: seq<ProviderTotals>)
    requires Raised(a, b)
    ensures |Collapse(a)| == |Collapse(b)|
    ensures forall i :: 0 <= i < |Collapse(a)| ==>
      Collapse(a)[i].code == Collapse(b)[i].code && Collapse(a)[i].total <= Collapse(b)[i].total
  {
    var c, d := Collapse(a), Collapse(b);
    var dearer := (x: Priced, y: Priced) => x.code == y.code && x.total <= y.total;
    forall i | 0 <= i < |a| && CollapseOne()(a[i]).Some?
      ensures CollapseOne()(b[i]).Some? && dearer(CollapseOne()(a[i]).value, CollapseOne()(b[i]).value)
    {
      StatisticsMonotone(a[i].totals, b[i].totals);
    }
    GatherRelated(a, CollapseOne(), b, CollapseOne(), dearer);
    assert forall i :: 0 <= i < |c| ==> dearer(c[i], d[i]);
  }

  /** End-to-end monotonicity: as long as the same providers survive, dearer totals never lower the
      recommendation, whatever the base, the breakers and the rounding. */
  lemma CellMonotone(a: seq<ProviderTotals>, b: seq<ProviderTotals>, ctx: Context, rule: Rule, base: Base,
                     mode: RoundMode)
    requires Raised(a, b) && SameSurvivors(a, b, ctx)
    requires rule.mode == Pct ==> Factor(rule) >= 0.0
    requires Recommend(ValidTotals(a, ctx.inferred, ctx.master), base, rule, mode).Ok?
    ensures var p := Recommend(ValidTotals(a, ctx.inferred, ctx.master), base, rule, mode).value;
      var q := Recommend(ValidTotals(b, ctx.inferred, ctx.master), base, rule, mode);
      && q.Ok? && p.Some? == q.value.Some? && (p.Some? ==> p.value <= q.value.value)
  {
    var c, d := Collapse(a), Collapse(b);
    CollapseMonotone(a, b);
    var f, g := KeptTotal(c, ctx.inferred, ctx.master), KeptTotal(d, ctx.inferred, ctx.master);
    assert forall i :: 0 <= i < |c| ==> f(c[i]).Some? == g(d[i]).Some? by {
      assert forall i :: 0 <= i < |c| ==> Flagged(c, c[i], ctx) == Flagged(d, d[i], ctx);
    }
    var below := (x: real, y: real) => x <= y;
    GatherRelated(c, f, d, g, below);
    var s, t := Gather(c, f), Gather(d, g);
    assert forall i :: 0 <= i < |s| ==> below(s[i], t[i]);
    if s != [] {
      RecommendMonotone(s, t, base, rule, mode);
    }
  }

  /** The order in which providers are listed never matters. */
  lemma CellIgnoresOrder(a: seq<ProviderTotals>, b: seq<ProviderTotals>, ctx: Context, rule: Rule, base: Base,
                         mode: RoundMode)
    requires multiset(a) == multiset(b)
    ensures Recommend(ValidTotals(a, ctx.inferred, ctx.master), base, rule, mode)
         == Recommend(ValidTotals(b, ctx.inferred, ctx.master), base, rule, mode)
    ensures multiset(Gather(Collapse(a), PresentOf(Collapse(a), ctx))) == multiset(Gather(Collapse(b),
                                                                                          PresentOf(Collapse(b), ctx)))
    ensures multiset(Gather(Collapse(a), DroppedOf(Collapse(a), ctx))) == multiset(Gather(Collapse(b),
                                                                                          DroppedOf(Collapse(b), ctx)))
  {
    GatherPermutes(a, b, CollapseOne());
    var c, d := Collapse(a), Collapse(b);
    VerdictsIgnoreOrder(c, d, ctx);
    GatherAlike(c, PresentOf(c, ctx), d, PresentOf(d, ctx));
    GatherAlike(c, DroppedOf(c, ctx), d, DroppedOf(d, ctx));
    GatherAlike(c, KeptTotal(c, ctx.inferred, ctx.master), d, KeptTotal(d, ctx.inferred, ctx.master));
    RecommendIgnoresOrder(
      ValidTotals(a, ctx.inferred, ctx.master), ValidTotals(b, ctx.inferred, ctx.master), base, rule, mode);
  }

  lemma VerdictsIgnoreOrder(c: seq<Priced>, d: seq<Priced>, ctx: Context)
    requires multiset(c) == multiset(d)
    ensures forall p :: p in d ==> PresentOf(c, ctx)(p) == PresentOf(d, ctx)(p)
    ensures forall p :: p in d ==> DroppedOf(c, ctx)(p) == DroppedOf(d, ctx)(p)
    ensures forall p :: p in d ==>
      KeptTotal(c, ctx.inferred, ctx.master)(p) == KeptTotal(d, ctx.inferred, ctx.master)(p)
  {
    forall p | p in d
      ensures PresentOf(c, ctx)(p) == PresentOf(d, ctx)(p) && DroppedOf(c, ctx)(p) == DroppedOf(d, ctx)(p)
      ensures KeptTotal(c, ctx.inferred, ctx.master)(p) == KeptTotal(d, ctx.inferred, ctx.master)(p)
    {
      AnomalyIgnoresOrder(c, d, p, ctx.inferred, ctx.master);
    }
  }

  /** A master with a price is never dropped, so its cell always has a recommendation. */
  lemma MasterAlwaysPriced(groups: seq<ProviderTotals>, g: ProviderTotals, ctx: Context, rule: Rule, base: Base,
                           mode: RoundMode)
    requires g in groups && g.totals != [] && ctx.master == Some(g.code)
    requires base != UnknownBase && (mode != UnknownMode || rule.val == 0.0)
    ensures Min(g.totals) in ValidTotals(groups, ctx.inferred, ctx.master)
    ensures Recommend(ValidTotals(groups, ctx.inferred, ctx.master), base, rule, mode).Ok?
    ensures Recommend(ValidTotals(groups, ctx.inferred, ctx.master), base, rule, mode).value.Some?
  {
    var c, p := Collapse(groups), Priced(g.code, Min(g.totals));
    var i :| 0 <= i < |groups| && groups[i] == g;
    assert CollapseOne()(groups[i]) == Some(p);
    GatherMembers(groups, CollapseOne(), p);
    var j :| 0 <= j < |c| && c[j] == p;
    assert KeptTotal(c, ctx.inferred, ctx.master)(c[j]) == Some(p.total);
    GatherMembers(c, KeptTotal(c, ctx.inferred, ctx.master), p.total);
    SomeTotalIsEnough(ValidTotals(groups, ctx.inferred, ctx.master), rule, base, mode);
  }

  lemma SomeTotalIsEnough(totals: seq<real>, rule: Rule, base: Base, mode: RoundMode)
    requires totals != [] && base != UnknownBase && (mode != UnknownMode || rule.val == 0.0)
    ensures Recommend(totals, base, rule, mode).Ok? && Recommend(totals, base, rule, mode).value.Some?
  {
  }
}
