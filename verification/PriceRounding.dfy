/** Commercial rounding with a directional guard: step 6 of the tariff calculator.
    Money is exact (real); a rounding mode other than "0" describes the grid of prices k*step + offset. */
module PriceRounding {
  import opened Comprehension
  import opened Rounding

  datatype Op = Sub | Add | OtherOp

  /** "0", "1", "0.50", "0.99", "0.90" and any other string. */
  datatype RoundMode = Off | Units | Halves | Cents99 | Cents90 | UnknownMode

  datatype PricingError = UnknownBaseAggregation | UnknownRoundMode

  predicate OnGrid(mode: RoundMode) {
    mode != Off && mode != UnknownMode
  }

  function Step(mode: RoundMode): (r: real)
    requires OnGrid(mode)
    ensures r > 0.0
  {
    if mode == Halves then 0.5 else 1.0
  }

  /** An amount of money, in grid steps. */
  function Steps(amount: real, mode: RoundMode): (r: real)
    requires OnGrid(mode)
    ensures r * Step(mode) == amount
  {
    if mode == Halves then amount * 2.0 else amount
  }

  function Offset(mode: RoundMode): real {
    match mode
    case Cents99 => 0.99
    case Cents90 => 0.90
    case _ => 0.0
  }

  /** The k-th price of the grid. */
  function Grid(mode: RoundMode, k: int): real
    requires OnGrid(mode)
  {
    (if mode == Halves then k as real * 0.5 else k as real) + Offset(mode)
  }

  lemma GridIsCents(mode: RoundMode, k: int)
    requires OnGrid(mode)
    ensures Cents(Grid(mode, k)) == Grid(mode, k)
  {
    var hundredths := match mode
      case Cents99 => 100 * k + 99
      case Cents90 => 100 * k + 90
      case Halves => 50 * k
      case _ => 100 * k;
    assert IsCents(Grid(mode, k), hundredths);
    CentsIdentity(Grid(mode, k));
  }

  /** The prices of a mode, in cents: whole euros, whole half euros, or those ending in 99 or 90. */
  predicate Ends(mode: RoundMode, hundredths: int) {
    match mode
    case Units => hundredths % 100 == 0
    case Halves => hundredths % 50 == 0
    case Cents99 => hundredths % 100 == 99
    case Cents90 => hundredths % 100 == 90
    case _ => false
  }

  /** The k-th price of a grid ends as the mode asks, and every price that does is on the grid. */
  lemma GridMeaning(mode: RoundMode, k: int)
    requires OnGrid(mode)
    ensures exists n :: IsCents(Grid(mode, k), n) && Ends(mode, n)
  {
    var hundredths := match mode
      case Cents99 => 100 * k + 99
      case Cents90 => 100 * k + 90
      case Halves => 50 * k
      case _ => 100 * k;
    assert IsCents(Grid(mode, k), hundredths);
  }

  lemma EveryEndingIsOnGrid(mode: RoundMode, x: real, n: int) returns (k: int)
    requires OnGrid(mode) && IsCents(x, n) && Ends(mode, n)
    ensures Grid(mode, k) == x
  {
    k := if mode == Halves then n / 50 else n / 100;
  }

  /** Index of the grid price the value snaps to, without the guard. */
  function SnapIndex(value: real, mode: RoundMode): (k: int)
    requires OnGrid(mode)
    ensures value >= Offset(mode) ==> -Step(mode) / 2.0 <= value - Grid(mode, k) < Step(mode) / 2.0
    ensures value < Offset(mode) ==> -Step(mode) / 2.0 < value - Grid(mode, k) <= Step(mode) / 2.0
  {
    if Offset(mode) == 0.0 then HalfUp(Steps(value, mode)) else HalfUp(value - Offset(mode))
  }

  lemma SnapMonotone(x: real, y: real, mode: RoundMode)
    requires OnGrid(mode) && x <= y
    ensures SnapIndex(x, mode) <= SnapIndex(y, mode)
  {
    HalfUpMonotone(Steps(x, mode), Steps(y, mode));
    HalfUpMonotone(x - Offset(mode), y - Offset(mode));
  }

  /** Index of the greatest grid price strictly below x. */
  function GreatestBelow(x: real, mode: RoundMode): (k: int)
    requires OnGrid(mode)
    ensures Grid(mode, k) < x <= Grid(mode, k + 1)
  {
    -Steps(Offset(mode) - x, mode).Floor - 1
  }

  /** Index of the least grid price strictly above x. */
  function LeastAbove(x: real, mode: RoundMode): (k: int)
    requires OnGrid(mode)
    ensures Grid(mode, k - 1) <= x < Grid(mode, k)
  {
    Steps(x - Offset(mode), mode).Floor + 1
  }

  lemma GridOrder(mode: RoundMode, j: int, k: int)
    requires OnGrid(mode)
    ensures j < k <==> Grid(mode, j) < Grid(mode, k)
    ensures j < k ==> Grid(mode, j) + Step(mode) <= Grid(mode, k)
  {
  }

  function IntMin(a: int, b: int): int { if a < b then a else b }

  function IntMax(a: int, b: int): int { if a > b then a else b }

  /** The guarded grid index: the snap, pulled back to the rule's side of the base. */
  function GuardedIndex(value: real, base: real, op: Op, mode: RoundMode): int
    requires OnGrid(mode)
  {
    match op
    case Sub => IntMin(SnapIndex(value, mode), GreatestBelow(base, mode))
    case Add => IntMax(SnapIndex(value, mode), LeastAbove(base, mode))
    case OtherOp => SnapIndex(value, mode)
  }

  /** Strictly below the base for a discount, strictly above it for a surcharge. */
  predicate OnRuleSide(price: real, base: real, op: Op) {
    (op == Sub ==> price < base) && (op == Add ==> price > base)
  }

  function Distance(x: real, y: real): real { if x < y then y - x else x - y }

  /** Optimality: among all grid prices strictly on the rule's side of the base, the guarded price is
      one nearest to the input; and it overshoots the clamped price or the base by at most one step. */
  lemma GuardedIsNearest(value: real, base: real, op: Op, mode: RoundMode)
    requires OnGrid(mode)
    ensures var price := Grid(mode, GuardedIndex(value, base, op, mode));
      && OnRuleSide(price, base, op)
      && (forall k: int :: OnRuleSide(Grid(mode, k), base, op) ==>
           Distance(value, price) <= Distance(value, Grid(mode, k)))
      && (op == Sub ==> price >= (if value < base then value else base) - Step(mode))
      && (op == Add ==> price <= (if value > base then value else base) + Step(mode))
  {
    var snap, g := SnapIndex(value, mode), GuardedIndex(value, base, op, mode);
    GridOrder(mode, g, snap);
    GridOrder(mode, snap, g);
    GridOrder(mode, snap, GreatestBelow(base, mode));
    GridOrder(mode, LeastAbove(base, mode), snap);
    forall k: int | OnRuleSide(Grid(mode, k), base, op)
      ensures Distance(value, Grid(mode, g)) <= Distance(value, Grid(mode, k))
    {
      GridOrder(mode, k, g);
      GridOrder(mode, g, k);
      if op == Sub {
        GridOrder(mode, GreatestBelow(base, mode) + 1, k);
        GridOrder(mode, k, GreatestBelow(base, mode) + 1);
      }
      if op == Add {
        GridOrder(mode, LeastAbove(base, mode) - 1, k);
        GridOrder(mode, k, LeastAbove(base, mode) - 1);
      }
    }
  }

  /** The rounded price: cents when the mode is "0" or the rule changes nothing, else the guarded
      grid price. */
  function RoundDirectional(value: real, base: real, op: Op, val: real, mode: RoundMode): Result<real, PricingError> {
    if mode == Off || val == 0.0 then Ok(Cents(value))
    else if mode == UnknownMode then Err(UnknownRoundMode)
    else Ok(Grid(mode, GuardedIndex(value, base, op, mode)))
  }

  /** The downward nudge: from grid price k at or above the base to the greatest one below it. */
  method NudgeBelow(start: real, ghost k: int, base: real, mode: RoundMode) returns (rounded: real)
    requires OnGrid(mode) && start == Grid(mode, k) && start >= base
    ensures rounded == Grid(mode, GreatestBelow(base, mode))
  {
    rounded := start;
    ghost var j, target := k, GreatestBelow(base, mode);
    GridOrder(mode, target, j);
    while rounded >= base
      invariant rounded == Grid(mode, j) && target <= j
      decreases j - target
    {
      GridOrder(mode, target, j);
      rounded := rounded - Step(mode);
      j := j - 1;
    }
    GridOrder(mode, target + 1, j);
  }

  /** The upward nudge: from grid price k at or below the base to the least one above it. */
  method NudgeAbove(start: real, ghost k: int, base: real, mode: RoundMode) returns (rounded: real)
    requires OnGrid(mode) && start == Grid(mode, k) && start <= base
    ensures rounded == Grid(mode, LeastAbove(base, mode))
  {
    rounded := start;
    ghost var j, target := k, LeastAbove(base, mode);
    GridOrder(mode, j, target);
    while rounded <= base
      invariant rounded == Grid(mode, j) && j <= target
      decreases target - j
    {
      GridOrder(mode, j, target);
      rounded := rounded + Step(mode);
      j := j + 1;
    }
    GridOrder(mode, j, target - 1);
  }

  /** When the snap already lies on the rule's side the guard changes nothing. */
  lemma GuardIdle(value: real, base: real, op: Op, mode: RoundMode)
    requires OnGrid(mode)
    ensures OnRuleSide(Grid(mode, SnapIndex(value, mode)), base, op) <==>
      GuardedIndex(value, base, op, mode) == SnapIndex(value, mode)
    ensures GuardedIndex(value, base, op, mode) != SnapIndex(value, mode) ==>
      GuardedIndex(value, base, op, mode) == if op == Sub then GreatestBelow(base, mode) else LeastAbove(base, mode)
  {
    var snap := SnapIndex(value, mode);
    GridOrder(mode, GreatestBelow(base, mode) + 1, snap);
    GridOrder(mode, snap, GreatestBelow(base, mode) + 1);
    GridOrder(mode, LeastAbove(base, mode) - 1, snap);
    GridOrder(mode, snap, LeastAbove(base, mode) - 1);
  }

  /** apply_rounding_directional: snap, nudge to the rule's side, quantise to cents. */
  method ApplyRoundingDirectional(value: real, base: real, op: Op, val: real, mode: RoundMode)
    returns (r: Result<(real, bool), PricingError>)
    ensures r.Err? <==> mode == UnknownMode && val != 0.0
    ensures match RoundDirectional(value, base, op, val, mode)
      case Ok(price) => r.Ok? && r.value.0 == price
      case Err(e) => r == Err(e)
    ensures r.Ok? ==>
      (r.value.1 <==> OnGrid(mode) && val != 0.0 && !OnRuleSide(Grid(mode, SnapIndex(value, mode)), base, op))
  {
    if mode == Off || val == 0.0 {
      return Ok((Cents(value), false));
    }
    if mode == UnknownMode {
      return Err(UnknownRoundMode);
    }
    var rounded := Grid(mode, SnapIndex(value, mode));
    var flip := false;
    if op == Sub && rounded >= base {
      rounded := NudgeBelow(rounded, SnapIndex(value, mode), base, mode);
      flip := true;
    } else if op == Add && rounded <= base {
      rounded := NudgeAbove(rounded, SnapIndex(value, mode), base, mode);
      flip := true;
    }
    GuardIdle(value, base, op, mode);
    GridIsCents(mode, GuardedIndex(value, base, op, mode));
    return Ok((Cents(rounded), flip));
  }

  lemma GuardedMonotone(v: real, b: real, v': real, b': real, op: Op, mode: RoundMode)
    requires OnGrid(mode) && v <= v' && b <= b'
    ensures GuardedIndex(v, b, op, mode) <= GuardedIndex(v', b', op, mode)
  {
    SnapMonotone(v, v', mode);
    if op == Sub {
      GridOrder(mode, GreatestBelow(b', mode) + 1, GreatestBelow(b, mode));
      GridOrder(mode, GreatestBelow(b, mode), GreatestBelow(b', mode) + 1);
    }
    if op == Add {
      GridOrder(mode, LeastAbove(b', mode), LeastAbove(b, mode) - 1);
      GridOrder(mode, LeastAbove(b, mode) - 1, LeastAbove(b', mode));
    }
  }

  /** Rounding never inverts an increase of the clamped price and of the base. */
  lemma RoundDirectionalMonotone(v: real, b: real, v': real, b': real, op: Op, val: real, mode: RoundMode)
    requires v <= v' && b <= b'
    requires RoundDirectional(v, b, op, val, mode).Ok?
    ensures RoundDirectional(v', b', op, val, mode).Ok?
    ensures RoundDirectional(v, b, op, val, mode).value <= RoundDirectional(v', b', op, val, mode).value
  {
    CentsMonotone(v, v');
    if OnGrid(mode) {
      GuardedMonotone(v, b, v', b', op, mode);
      GridOrder(mode, GuardedIndex(v', b', op, mode), GuardedIndex(v, b, op, mode));
    }
  }

  /** The unguarded price is on the rule's side, read off the value before it is rounded to cents. */
  predicate CentsOnSide(value: real, base: real, op: Op) {
    && (op == Sub ==> !Reaches(value * 100.0, Ceil(base * 100.0)))
    && (op == Add ==> Reaches(value * 100.0, (base * 100.0).Floor + 1))
  }

  /** The documented promise "sub stays below the base, add stays above it" holds exactly when the grid guard
      runs or the value itself is at least half a cent on the right side. */
  lemma SideKeptIff(value: real, base: real, op: Op, val: real, mode: RoundMode)
    requires RoundDirectional(value, base, op, val, mode).Ok?
    ensures OnRuleSide(RoundDirectional(value, base, op, val, mode).value, base, op)
      <==> (OnGrid(mode) && val != 0.0) || CentsOnSide(value, base, op)
  {
    if OnGrid(mode) && val != 0.0 {
      GuardedIsNearest(value, base, op, mode);
    } else {
      CentsReach(value, base);
    }
  }

  /** For a base of n whole cents that is a distance of half a cent; only a surcharge may sit on the tie. */
  lemma CentsOnSideOfCents(value: real, base: real, n: int)
    requires IsCents(base, n) && n >= 1
    ensures CentsOnSide(value, base, Sub) <==> value < base - 0.005
    ensures CentsOnSide(value, base, Add) <==> value >= base + 0.005
  {
    assert Ceil(base * 100.0) == n && (base * 100.0).Floor == n;
  }

  // ---------------------------------------------------------------- bounds kept on the grid

  /** What it takes to snap to grid price k or above. */
  predicate SnapsUpTo(value: real, k: int, mode: RoundMode)
    requires OnGrid(mode)
  {
    var half := Grid(mode, k) - Step(mode) / 2.0;
    if k >= 1 then value >= half else value > half
  }

  lemma SnapReaches(value: real, k: int, mode: RoundMode)
    requires OnGrid(mode)
    ensures SnapIndex(value, mode) >= k <==> SnapsUpTo(value, k, mode)
  {
    if mode == Halves {
      HalfUpReaches(value * 2.0, k);
    } else {
      HalfUpReaches(value - Offset(mode), k);
    }
  }

  /** A guarded discount ends at or above a bound exactly when the least grid price that meets the bound is
      below the base and the value snaps to it or higher. */
  lemma DiscountReachesIff(value: real, base: real, bound: real, mode: RoundMode)
    requires OnGrid(mode)
    ensures var k := GreatestBelow(bound, mode) + 1;
      Grid(mode, GuardedIndex(value, base, Sub, mode)) >= bound <==> Grid(mode, k) < base && SnapsUpTo(value, k, mode)
  {
    var k, g := GreatestBelow(bound, mode) + 1, GuardedIndex(value, base, Sub, mode);
    SnapReaches(value, k, mode);
    GridOrder(mode, g, k);
    GridOrder(mode, k - 1, g);
    GridOrder(mode, GreatestBelow(base, mode), k);
    GridOrder(mode, k, GreatestBelow(base, mode) + 1);
  }

  /** Dually for a surcharge and the greatest grid price at or below the bound. */
  lemma SurchargeStaysIff(value: real, base: real, bound: real, mode: RoundMode)
    requires OnGrid(mode)
    ensures var k := LeastAbove(bound, mode) - 1;
      Grid(mode, GuardedIndex(value, base, Add, mode)) <= bound <==>
        Grid(mode, k) > base && !SnapsUpTo(value, k + 1, mode)
  {
    var k, g := LeastAbove(bound, mode) - 1, GuardedIndex(value, base, Add, mode);
    SnapReaches(value, k + 1, mode);
    GridOrder(mode, k, g);
    GridOrder(mode, g, k + 1);
    GridOrder(mode, k, LeastAbove(base, mode));
    GridOrder(mode, LeastAbove(base, mode) - 1, k);
  }

  /** ... and it does fail: with rounding off, a discount of a thousandth rounds back onto the base. */
  lemma SideLostWithoutGrid()
    ensures RoundDirectional(49.999, 50.0, Sub, 0.001, Off) == Ok(50.0)
    ensures !OnRuleSide(50.0, 50.0, Sub)
  {
    assert HalfUp(4999.9) == 5000;
  }
}
