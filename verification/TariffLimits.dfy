/** Where the calculator's promises end, exactly: the side of the base, floor and ceiling after rounding, and
    monotonicity of deep discounts. */
module TariffLimits {
  import opened Comprehension
  import opened CrossTariff
  import opened OrderStatistics
  import opened PriceRounding
  import opened Rounding

  // ---------------------------------------------------------------- the side of the base

  function BasePrice(totals: seq<real>, base: Base): real
    requires totals != [] && base != UnknownBase
  {
    AggregateCrossProvider(totals, base).value.value
  }

  /** The price that is rounded: the rule applied to the base, between the breakers. */
  function ClampedPrice(totals: seq<real>, base: Base, rule: Rule): real
    requires totals != [] && base != UnknownBase
  {
    ApplyClamp(ApplyRule(BasePrice(totals, base), rule), Floor(totals, rule), Ceiling(totals, rule)).0
  }

  predicate Priceable(totals: seq<real>, base: Base, rule: Rule, mode: RoundMode) {
    totals != [] && base != UnknownBase && (mode != UnknownMode || rule.val == 0.0)
  }

  function Price(totals: seq<real>, base: Base, rule: Rule, mode: RoundMode): real
    requires Priceable(totals, base, rule, mode)
  {
    Recommend(totals, base, rule, mode).value.value
  }

  predicate Guarded(rule: Rule, mode: RoundMode) {
    OnGrid(mode) && rule.val != 0.0
  }

  /** A cell's recommendation lies on the rule's side of the base exactly when the grid guard runs or the clamped
      price is at least half a cent on that side. */
  lemma CellSideIff(totals: seq<real>, base: Base, rule: Rule, mode: RoundMode)
    requires Priceable(totals, base, rule, mode)
    ensures var b := BasePrice(totals, base);
      OnRuleSide(Price(totals, base, rule, mode), b, rule.op) <==>
        Guarded(rule, mode) || CentsOnSide(ClampedPrice(totals, base, rule), b, rule.op)
  {
    SideKeptIff(ClampedPrice(totals, base, rule), BasePrice(totals, base), rule.op, rule.val, mode);
  }

  /** What the rule takes off or adds. */
  function Difference(b: real, rule: Rule): real {
    if rule.mode == Pct then b * rule.val / 100.0 else rule.val
  }

  /** Without guard and breakers, on a base of whole cents, a discount shows exactly when it is worth more than
      half a cent, and a surcharge when it is worth half a cent. */
  lemma DifferenceShowsIff(totals: seq<real>, base: Base, rule: Rule, mode: RoundMode, n: int)
    requires Priceable(totals, base, rule, mode) && !Guarded(rule, mode)
    requires IsCents(BasePrice(totals, base), n) && n >= 1
    requires ApplyClamp(ApplyRule(BasePrice(totals, base), rule), Floor(totals, rule), Ceiling(totals, rule)).1 == None
    ensures var b := BasePrice(totals, base);
      && (rule.op == Sub ==> (Price(totals, base, rule, mode) < b <==> Difference(b, rule) > 0.005))
      && (rule.op == Add ==> (Price(totals, base, rule, mode) > b <==> Difference(b, rule) >= 0.005))
  {
    var b := BasePrice(totals, base);
    CellSideIff(totals, base, rule, mode);
    CentsOnSideOfCents(ClampedPrice(totals, base, rule), b, n);
    RuleDifference(b, rule);
  }

  lemma RuleDifference(b: real, rule: Rule)
    ensures ApplyRule(b, rule) == b + Sign(rule.op) * Difference(b, rule)
  {
  }

  // ---------------------------------------------------------------- floor and ceiling after rounding

  /** A guarded discount ends at or above the floor exactly when the least grid price that meets the floor is
      below the base and the clamped price snaps to it or higher. */
  lemma FloorKeptIff(totals: seq<real>, base: Base, rule: Rule, mode: RoundMode)
    requires Priceable(totals, base, rule, mode) && Guarded(rule, mode) && rule.op == Sub && Floor(totals, rule).Some?
    ensures var k := GreatestBelow(Floor(totals, rule).value, mode) + 1;
      Price(totals, base, rule, mode) >= Floor(totals, rule).value <==>
        Grid(mode, k) < BasePrice(totals, base) && SnapsUpTo(ClampedPrice(totals, base, rule), k, mode)
  {
    DiscountReachesIff(ClampedPrice(totals, base, rule), BasePrice(totals, base), Floor(totals, rule).value, mode);
  }

  /** A surcharge ends at or below the ceiling exactly when the greatest grid price within the ceiling is above
      the base and the clamped price does not snap beyond it. */
  lemma CeilingKeptIff(totals: seq<real>, base: Base, rule: Rule, mode: RoundMode)
    requires Priceable(totals, base, rule, mode) && Guarded(rule, mode) && rule.op == Add && Ceiling(totals, rule).Some?
    ensures var k := LeastAbove(Ceiling(totals, rule).value, mode) - 1;
      Price(totals, base, rule, mode) <= Ceiling(totals, rule).value <==>
        Grid(mode, k) > BasePrice(totals, base) && !SnapsUpTo(ClampedPrice(totals, base, rule), k + 1, mode)
  {
    SurchargeStaysIff(ClampedPrice(totals, base, rule), BasePrice(totals, base), Ceiling(totals, rule).value, mode);
  }

  /** Without the guard the breakers only suffer the rounding to cents. */
  lemma BreakersInCents(totals: seq<real>, base: Base, rule: Rule, mode: RoundMode)
    requires Priceable(totals, base, rule, mode) && !Guarded(rule, mode)
    ensures var cents := ClampedPrice(totals, base, rule) * 100.0;
      var floor, ceiling := Floor(totals, rule), Ceiling(totals, rule);
      && (floor.Some? ==>
            (Price(totals, base, rule, mode) >= floor.value <==> Reaches(cents, Ceil(floor.value * 100.0))))
      && (ceiling.Some? ==>
            (Price(totals, base, rule, mode) <= ceiling.value <==> !Reaches(cents, (ceiling.value * 100.0).Floor + 1)))
  {
    var floor, ceiling := Floor(totals, rule), Ceiling(totals, rule);
    if floor.Some? { CentsReach(ClampedPrice(totals, base, rule), floor.value); }
    if ceiling.Some? { CentsReach(ClampedPrice(totals, base, rule), ceiling.value); }
  }

  /** A discount never falls more than one grid step under a floor at or below the base; above the base the
      guard wins over the floor. */
  lemma DiscountFloorSlack(totals: seq<real>, base: Base, rule: Rule, mode: RoundMode)
    requires Priceable(totals, base, rule, mode) && Guarded(rule, mode) && rule.op == Sub && Floor(totals, rule).Some?
    requires Ceiling(totals, rule).Some? ==> Floor(totals, rule).value <= Ceiling(totals, rule).value
    ensures var b, floor, rec := BasePrice(totals, base), Floor(totals, rule).value, Price(totals, base, rule, mode);
      && rec < b
      && (floor <= b ==> rec >= floor - Step(mode))
      && (floor >= b ==> rec < floor)
  {
    GuardedIsNearest(ClampedPrice(totals, base, rule), BasePrice(totals, base), Sub, mode);
  }

  /** One provider at 100.00 with 17.7 % off: the floor is 82.00, and rounding to ,90 alone ends at 81.90. */
  lemma FloorBroken()
    ensures var rule := Rule(Sub, 17.7, Pct, AutoFloor, NoCeiling);
      Floor([100.0], rule) == Some(82.0) && Recommend([100.0], MinBase, rule, Cents90) == Ok(Some(81.9))
  {
    assert Sort([100.0]) == [100.0];
    assert HalfUp(81.4) == 81;
    assert GreatestBelow(100.0, Cents90) == 99;
  }

  /** With base and ceiling both at the market's maximum, every guarded surcharge ends above the ceiling. */
  lemma SurchargeBeatsCeiling(totals: seq<real>, rule: Rule, mode: RoundMode)
    requires totals != [] && Guarded(rule, mode) && rule.op == Add && rule.ceilingMode == MaxCeiling
    ensures Price(totals, MaxBase, rule, mode) > Ceiling(totals, rule).value
  {
    GuardedIsNearest(ClampedPrice(totals, MaxBase, rule), BasePrice(totals, MaxBase), Add, mode);
  }

  // ---------------------------------------------------------------- deep discounts

  ghost predicate Positive(s: seq<real>) {
    forall i :: 0 <= i < |s| ==> s[i] > 0.0
  }

  /** Dearer markets never lower the recommendation. */
  ghost predicate MonotoneInMarket(base: Base, rule: Rule, mode: RoundMode)
    requires base != UnknownBase && mode != UnknownMode
  {
    forall s, t :: s != [] && Positive(s) && Below(s, t) ==> Price(s, base, rule, mode) <= Price(t, base, rule, mode)
  }

  /** Over positive totals a percentage discount is monotone in the market exactly when it takes no more than
      everything, or a floor catches it. */
  lemma DiscountMonotoneIff(rule: Rule, base: Base, mode: RoundMode)
    requires rule.op == Sub && rule.mode == Pct && base != UnknownBase && mode != UnknownMode
    ensures MonotoneInMarket(base, rule, mode) <==> rule.val <= 100.0 || rule.floorMode != NoFloor
  {
    if rule.val <= 100.0 || rule.floorMode != NoFloor {
      forall s, t | s != [] && Positive(s) && Below(s, t)
        ensures Price(s, base, rule, mode) <= Price(t, base, rule, mode)
      {
        DiscountMonotone(s, t, base, rule, mode);
      }
    } else {
      var near, far := DeepDiscountInverts(rule, base, mode);
      assert Below([near], [far]);
    }
  }

  lemma DiscountMonotone(s: seq<real>, t: seq<real>, base: Base, rule: Rule, mode: RoundMode)
    requires s != [] && Positive(s) && Below(s, t) && base != UnknownBase && mode != UnknownMode
    requires rule.op == Sub && rule.mode == Pct && (rule.val <= 100.0 || rule.floorMode != NoFloor)
    ensures Price(s, base, rule, mode) <= Price(t, base, rule, mode)
  {
    if rule.val <= 100.0 {
      RecommendMonotone(s, t, base, rule, mode);
    } else {
      FloorCatches(s, t, base, rule, mode);
    }
  }

  lemma StatisticsPositive(s: seq<real>)
    requires s != [] && Positive(s)
    ensures 0.0 < Min(s) <= Max(s) && Median(s) > 0.0 && Mean(s) > 0.0
  {
    Extremes(s);
    SortSorts(s);
    forall i | 0 <= i < |s| ensures Sort(s)[i] > 0.0 {
      SortKeepsMembers(s, Sort(s)[i]);
      assert Sort(s)[i] in Sort(s);
    }
    MedianBetween(s);
    PositiveSum(Sort(s));
    PositiveQuotient(Sum(Sort(s)), |s| as real);
  }

  lemma {:induction false} PositiveSum(s: seq<real>)
    requires Positive(s)
    ensures s != [] ==> Sum(s) > 0.0
  {
    if s != [] {
      PositiveSum(s[1..]);
      assert s[1..] == [] ==> Sum(s[1..]) == 0.0;
    }
  }

  lemma PositiveQuotient(x: real, n: real)
    requires x > 0.0 && n > 0.0
    ensures x / n > 0.0
  {
  }

  /** A discount of more than everything drives the adjusted price below zero, so it ends on the floor. */
  lemma DeepClampsToFloor(s: seq<real>, base: Base, rule: Rule)
    requires s != [] && Positive(s) && base != UnknownBase
    requires rule.op == Sub && rule.mode == Pct && rule.val > 100.0 && rule.floorMode != NoFloor
    ensures ClampedPrice(s, base, rule) == Floor(s, rule).value
  {
    StatisticsPositive(s);
    DeepAdjusted(BasePrice(s, base), rule);
    NegativeClamps(ApplyRule(BasePrice(s, base), rule), Floor(s, rule).value, Ceiling(s, rule));
  }

  lemma DeepAdjusted(b: real, rule: Rule)
    requires b > 0.0 && rule.op == Sub && rule.mode == Pct && rule.val > 100.0
    ensures ApplyRule(b, rule) < 0.0
  {
    DeepFactor(rule.val);
    NegativeProduct(b, Factor(rule));
  }

  lemma NegativeClamps(adjusted: real, floor: real, ceiling: Option<real>)
    requires adjusted < 0.0 < floor && (ceiling.Some? ==> floor <= ceiling.value)
    ensures ApplyClamp(adjusted, Some(floor), ceiling).0 == floor
  {
  }

  lemma NegativeProduct(x: real, f: real)
    requires x > 0.0 && f < 0.0
    ensures x * f < 0.0
  {
  }

  lemma FloorCatches(s: seq<real>, t: seq<real>, base: Base, rule: Rule, mode: RoundMode)
    requires s != [] && Positive(s) && Below(s, t) && base != UnknownBase && mode != UnknownMode
    requires rule.op == Sub && rule.mode == Pct && rule.val > 100.0 && rule.floorMode != NoFloor
    ensures Price(s, base, rule, mode) <= Price(t, base, rule, mode)
  {
    StatisticsMonotone(s, t);
    DeepClampsToFloor(s, base, rule);
    DeepClampsToFloor(t, base, rule);
    RoundDirectionalMonotone(Floor(s, rule).value, BasePrice(s, base), Floor(t, rule).value, BasePrice(t, base),
                             rule.op, rule.val, mode);
  }

  /** Two single-provider markets: the dearer one is recommended the lower price. */
  lemma DeepDiscountInverts(rule: Rule, base: Base, mode: RoundMode) returns (near: real, far: real)
    requires rule.op == Sub && rule.mode == Pct && rule.val > 100.0 && rule.floorMode == NoFloor
    requires base != UnknownBase && mode != UnknownMode
    ensures 0.0 < near < far && Price([near], base, rule, mode) > Price([far], base, rule, mode)
  {
    near, far := FallingPoints(rule);
    DeepRounding(near, far, rule.val, mode);
    SingleMarket(near, -1.0, base, rule, mode);
    SingleMarket(far, -4.0, base, rule, mode);
  }

  lemma FallingPoints(rule: Rule) returns (near: real, far: real)
    requires rule.op == Sub && rule.mode == Pct && rule.val > 100.0
    ensures 0.0 < near < far && ApplyRule(near, rule) == -1.0 && ApplyRule(far, rule) == -4.0
  {
    DeepFactor(rule.val);
    near := Reciprocal(Factor(rule));
    far := 4.0 * near;
  }

  lemma DeepFactor(val: real)
    requires val > 100.0
    ensures 1.0 + -1.0 * val / 100.0 < 0.0
  {
  }

  lemma Reciprocal(f: real) returns (x: real)
    requires f < 0.0
    ensures x > 0.0 && x * f == -1.0 && 4.0 * x * f == -4.0
  {
    x := 1.0 / -f;
    assert x * -f == 1.0;
  }

  lemma DeepRounding(near: real, far: real, val: real, mode: RoundMode)
    requires near > 0.0 && mode != UnknownMode && val != 0.0
    ensures RoundDirectional(-4.0, far, Sub, val, mode).value < RoundDirectional(-1.0, near, Sub, val, mode).value
  {
    if mode == Off {
      assert HalfUp(-400.0) == -400 && HalfUp(-100.0) == -100;
    } else {
      GridOrder(mode, SnapIndex(-4.0, mode), GuardedIndex(-4.0, far, Sub, mode));
      GridOrder(mode, GuardedIndex(-1.0, near, Sub, mode), SnapIndex(-1.0, mode));
      GridOrder(mode, GuardedIndex(-1.0, near, Sub, mode), GreatestBelow(near, mode));
    }
  }

  /** One provider and no floor: the rounded rule, whatever the ceiling. */
  lemma SingleMarket(x: real, y: real, base: Base, rule: Rule, mode: RoundMode)
    requires base != UnknownBase && rule.floorMode == NoFloor && mode != UnknownMode
    requires ApplyRule(x, rule) == y && y <= x
    ensures Price([x], base, rule, mode) == RoundDirectional(y, x, rule.op, rule.val, mode).value
  {
    assert Sort([x]) == [x];
    assert Sum([x]) == x;
  }
}
