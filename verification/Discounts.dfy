/** Stacked discounts and the dual-cap override gate. */
module Discounts {
  import opened Outcome
  import opened Sums
  import opened Rounding

  /** 100 percent in units of 1/10,000 percent. */
  const DBPS_PER_WHOLE := 1_000_000

  datatype Request = Percentage(percentDbps: int) | FixedAmount(fixedAmountMinor: int)

  /** The caps granted to the acting user; an absent cap is a dimension that was not granted. */
  datatype Caps = Caps(maxPercentDbps: Option<int>, maxFixedAmountMinor: Option<int>)

  datatype Stage = Stage(requestedMinor: int, appliedMinor: int, zeroesOutSubtotal: bool, remainingSubtotalMinor: int)

  datatype OverrideReason = ZeroesOut | ExceedsMatchingCap | ExceedsCrossCap | Both

  function RequestedMinor(remaining: int, request: Request): int {
    match request
    case Percentage(dbps) => DivideRoundHalfToEven(remaining * dbps, DBPS_PER_WHOLE).value
    case FixedAmount(minor) => minor
  }

  function ComputeDiscountStage(remaining: int, request: Request): Result<Stage> {
    if remaining < 0 then Err(Validation)
    else
      var requested := RequestedMinor(remaining, request);
      if requested <= 0 then Err(Validation)
      else
        var applied := if requested < remaining then requested else remaining;
        Ok(Stage(requested, applied, applied >= remaining, remaining - applied))
  }

  function DiscountOverrideRequirement(stage: Stage, request: Request, caps: Caps): Option<OverrideReason> {
    var basis := stage.appliedMinor + stage.remainingSubtotalMinor;
    var matchingExceeded :=
      match request
      case Percentage(dbps) => caps.maxPercentDbps.Some? && dbps > caps.maxPercentDbps.value
      case FixedAmount(minor) => caps.maxFixedAmountMinor.Some? && minor > caps.maxFixedAmountMinor.value;
    if stage.zeroesOutSubtotal then Some(if matchingExceeded then Both else ZeroesOut)
    else if basis <= 0 then Some(ZeroesOut)
    else
      var crossExceeded :=
        match request
        case Percentage(_) => caps.maxFixedAmountMinor.Some? && stage.requestedMinor > caps.maxFixedAmountMinor.value
        case FixedAmount(minor) =>
          caps.maxPercentDbps.Some?
            && DivideRoundHalfToEven(minor * DBPS_PER_WHOLE, basis).value > caps.maxPercentDbps.value;
      if matchingExceeded && crossExceeded then Some(Both)
      else if matchingExceeded then Some(ExceedsMatchingCap)
      else if crossExceeded then Some(ExceedsCrossCap)
      else None
  }

  // The gate, in exact arithmetic

  /** `amount / basis` exceeds `cap` of 1/1,000,000 by more than half a unit, or by half with the tie going up. */
  predicate OverCapBeyondRounding(amount: int, basis: int, cap: int) {
    || 2 * (amount * DBPS_PER_WHOLE) > (2 * cap + 1) * basis
    || (2 * (amount * DBPS_PER_WHOLE) == (2 * cap + 1) * basis && cap % 2 == 1)
  }

  lemma RoundedAboveCap(n: int, d: int, cap: int)
    requires d > 0
    ensures DivideRoundHalfToEven(n, d).Ok?
    ensures DivideRoundHalfToEven(n, d).value > cap
            <==> 2 * n > (2 * cap + 1) * d || (2 * n == (2 * cap + 1) * d && cap % 2 == 1)
  {
    HalfToEvenIsNearest(n, d);
    NearestAboveCap(n, d, cap, DivideRoundHalfToEven(n, d).value);
  }

  lemma NearestAboveCap(n: int, d: int, cap: int, q: int)
    requires d > 0 && IsNearestEven(n, d, q)
    ensures q > cap <==> 2 * n > (2 * cap + 1) * d || (2 * n == (2 * cap + 1) * d && cap % 2 == 1)
  {
    assert (2 * cap + 1) * d == 2 * (cap * d) + d;
    assert 2 * (q * d) - d <= 2 * n <= 2 * (q * d) + d;
    if q > cap + 1 {
      MulGap(cap + 1, q, d);
      assert (cap + 1) * d == cap * d + d;
    } else if q == cap + 1 {
      assert q * d == cap * d + d;
    } else if q < cap {
      MulGap(q, cap, d);
    }
  }

  /**
   * A stage computes exactly on a non-negative remainder and a positive request: a percentage of it, rounded
   * to the nearest unit with ties to even, or the amount asked for; and never more than there is comes off.
   */
  lemma StageExactlyWhen(remaining: int, request: Request, stage: Stage)
    ensures ComputeDiscountStage(remaining, request) == Ok(stage) <==>
            && remaining >= 0 && stage.requestedMinor > 0
            && (match request
                case Percentage(dbps) => IsNearestEven(remaining * dbps, 1_000_000, stage.requestedMinor)
                case FixedAmount(minor) => stage.requestedMinor == minor)
            && stage.appliedMinor == (if stage.requestedMinor < remaining then stage.requestedMinor else remaining)
            && stage.remainingSubtotalMinor == remaining - stage.appliedMinor
            && (stage.zeroesOutSubtotal <==> stage.remainingSubtotalMinor == 0)
  {
    if request.Percentage? {
      var n := remaining * request.percentDbps;
      HalfToEvenIsNearest(n, 1_000_000);
      if IsNearestEven(n, 1_000_000, stage.requestedMinor) {
        NearestEvenUnique(n, 1_000_000, stage.requestedMinor, DivideRoundHalfToEven(n, 1_000_000).value);
      }
    }
  }

  /** The request exceeds the cap of its own kind. */
  predicate OverMatchingCap(request: Request, caps: Caps) {
    match request
    case Percentage(dbps) => caps.maxPercentDbps.Some? && dbps > caps.maxPercentDbps.value
    case FixedAmount(minor) => caps.maxFixedAmountMinor.Some? && minor > caps.maxFixedAmountMinor.value
  }

  /** Its equivalent exceeds the cap of the other kind. */
  predicate OverCrossCap(remaining: int, request: Request, requestedMinor: int, caps: Caps) {
    match request
    case Percentage(_) => caps.maxFixedAmountMinor.Some? && requestedMinor > caps.maxFixedAmountMinor.value
    case FixedAmount(minor) =>
      caps.maxPercentDbps.Some? && OverCapBeyondRounding(minor, remaining, caps.maxPercentDbps.value)
  }

  /** Why a discount needs a manager, without division. */
  function ReasonFor(remaining: int, request: Request, caps: Caps, stage: Stage): Option<OverrideReason> {
    var matching, cross := OverMatchingCap(request, caps), OverCrossCap(remaining, request, stage.requestedMinor, caps);
    if stage.requestedMinor >= remaining then Some(if matching then Both else ZeroesOut)
    else if matching then Some(if cross then Both else ExceedsMatchingCap)
    else if cross then Some(ExceedsCrossCap)
    else None
  }

  lemma OverrideReasonIs(remaining: int, request: Request, caps: Caps)
    requires ComputeDiscountStage(remaining, request).Ok?
    ensures var stage := ComputeDiscountStage(remaining, request).value;
            DiscountOverrideRequirement(stage, request, caps) == ReasonFor(remaining, request, caps, stage)
  {
    if request.FixedAmount? && caps.maxPercentDbps.Some? && remaining > 0 {
      RoundedAboveCap(request.fixedAmountMinor * DBPS_PER_WHOLE, remaining, caps.maxPercentDbps.value);
    }
  }

  /** Exactly when a discount needs a manager: it leaves nothing, or exceeds a granted cap of either kind. */
  lemma OverrideExactlyWhen(remaining: int, request: Request, caps: Caps)
    requires ComputeDiscountStage(remaining, request).Ok?
    ensures var stage := ComputeDiscountStage(remaining, request).value;
            DiscountOverrideRequirement(stage, request, caps).Some? <==>
              || stage.remainingSubtotalMinor == 0
              || (match request
                  case Percentage(dbps) =>
                    || (caps.maxPercentDbps.Some? && dbps > caps.maxPercentDbps.value)
                    || (caps.maxFixedAmountMinor.Some? && stage.appliedMinor > caps.maxFixedAmountMinor.value)
                  case FixedAmount(minor) =>
                    || (caps.maxFixedAmountMinor.Some? && minor > caps.maxFixedAmountMinor.value)
                    || (caps.maxPercentDbps.Some?
                        && OverCapBeyondRounding(minor, remaining, caps.maxPercentDbps.value)))
  {
    OverrideReasonIs(remaining, request, caps);
  }

  /** A discount nobody has to approve leaves something to pay and keeps within what was granted. */
  lemma UnapprovedDiscountIsBounded(remaining: int, request: Request, caps: Caps)
    requires remaining > 0 && ComputeDiscountStage(remaining, request).Ok?
    requires DiscountOverrideRequirement(ComputeDiscountStage(remaining, request).value, request, caps).None?
    ensures var stage := ComputeDiscountStage(remaining, request).value;
            && 0 < stage.remainingSubtotalMinor < remaining
            && stage.appliedMinor == stage.requestedMinor
            && (caps.maxFixedAmountMinor.Some? ==> stage.appliedMinor <= caps.maxFixedAmountMinor.value)
            && (caps.maxPercentDbps.Some? ==>
                  2 * (stage.appliedMinor * DBPS_PER_WHOLE) <= 2 * (caps.maxPercentDbps.value * remaining)
                                                               + (if request.FixedAmount? then remaining
                                                                  else DBPS_PER_WHOLE))
            && (request.Percentage? && caps.maxPercentDbps.Some? ==> request.percentDbps <= caps.maxPercentDbps.value)
  {
    OverrideExactlyWhen(remaining, request, caps);
    if caps.maxPercentDbps.Some? {
      match request
      case FixedAmount(minor) => FixedWithinCap(minor, remaining, caps.maxPercentDbps.value);
      case Percentage(dbps) => PercentWithinCap(remaining, dbps, caps.maxPercentDbps.value);
    }
  }

  lemma FixedWithinCap(amount: int, basis: int, cap: int)
    requires !OverCapBeyondRounding(amount, basis, cap)
    ensures 2 * (amount * DBPS_PER_WHOLE) <= 2 * (cap * basis) + basis
  {
    assert (2 * cap + 1) * basis == 2 * (cap * basis) + basis;
  }

  lemma PercentWithinCap(remaining: int, dbps: int, cap: int)
    requires remaining > 0 && dbps <= cap
    ensures DivideRoundHalfToEven(remaining * dbps, DBPS_PER_WHOLE).Ok?
    ensures 2 * (DivideRoundHalfToEven(remaining * dbps, DBPS_PER_WHOLE).value * DBPS_PER_WHOLE)
            <= 2 * (cap * remaining) + DBPS_PER_WHOLE
  {
    HalfToEvenIsNearest(remaining * dbps, DBPS_PER_WHOLE);
    MulAtMost(remaining, dbps, cap);
  }

  lemma MulAtMost(r: int, x: int, y: int)
    requires r > 0 && x <= y
    ensures r * x <= y * r
  {
    assert y * r - r * x == (y - x) * r;
  }

  // Stacking

  datatype StackedStage = StackedStage(request: Request, caps: Caps)

  datatype StageResult = StageResult(stage: StackedStage, computation: Stage, overrideReason: Option<OverrideReason>)

  const NothingLeft := Stage(0, 0, false, 0)

  function StageAt(remaining: int, stage: StackedStage): Result<StageResult> {
    if remaining == 0 then Ok(StageResult(stage, NothingLeft, None))
    else match ComputeDiscountStage(remaining, stage.request)
      case Err(e) => Err(e)
      case Ok(c) => Ok(StageResult(stage, c, DiscountOverrideRequirement(c, stage.request, stage.caps)))
  }

  function Applied(results: seq<StageResult>): int {
    SumBy(results, (r: StageResult) => r.computation.appliedMinor)
  }

  /** Each result is its stage computed on what the earlier stages left over. */
  ghost predicate IsStacking(subtotal: int, stages: seq<StackedStage>, results: seq<StageResult>) {
    && |results| <= |stages|
    && (results != [] ==>
          var n := |results| - 1;
          && IsStacking(subtotal, stages, results[..n])
          && StageAt(subtotal - Applied(results[..n]), stages[n]) == Ok(results[n]))
  }

  lemma StageSplits(remaining: int, stage: StackedStage)
    requires StageAt(remaining, stage).Ok?
    ensures var c := StageAt(remaining, stage).value.computation;
            && c.remainingSubtotalMinor + c.appliedMinor == remaining
            && 0 <= c.remainingSubtotalMinor <= remaining
            && (remaining > 0 ==> c.appliedMinor > 0)
  {
  }

  lemma StackOne(subtotal: int, stages: seq<StackedStage>, results: seq<StageResult>, next: StageResult)
    requires IsStacking(subtotal, stages, results) && |results| < |stages|
    requires StageAt(subtotal - Applied(results), stages[|results|]) == Ok(next)
    ensures IsStacking(subtotal, stages, results + [next])
    ensures subtotal - Applied(results + [next]) == next.computation.remainingSubtotalMinor
  {
    assert (results + [next])[..|results|] == results;
    SumBySnoc(results, next, (r: StageResult) => r.computation.appliedMinor);
    StageSplits(subtotal - Applied(results), stages[|results|]);
  }

  /** Runs the stages in order; fails exactly when some stage fails on what the earlier ones left. */
  method ApplyDiscountStages(subtotalMinor: int, stages: seq<StackedStage>) returns (r: Result<seq<StageResult>>)
    ensures r.Ok? ==> |r.value| == |stages| && IsStacking(subtotalMinor, stages, r.value)
    ensures r.Err? ==> exists done: seq<StageResult> ::
                         && IsStacking(subtotalMinor, stages, done) && |done| < |stages|
                         && StageAt(subtotalMinor - Applied(done), stages[|done|]).Err?
  {
    var remaining := subtotalMinor;
    var results: seq<StageResult> := [];
    for i := 0 to |stages|
      invariant |results| == i && IsStacking(subtotalMinor, stages, results)
      invariant remaining == subtotalMinor - Applied(results)
    {
      var next := StageAt(remaining, stages[i]);
      if next.Err? {
        return Err(next.error);
      }
      StackOne(subtotalMinor, stages, results, next.value);
      results := results + [next.value];
      remaining := next.value.computation.remainingSubtotalMinor;
    }
    return Ok(results);
  }

  lemma PrefixOfPrefix<T>(s: seq<T>, i: nat, n: nat)
    requires i <= n <= |s|
    ensures s[..n][..i] == s[..i]
  {
  }

  lemma {:induction false} StackingPrefix(subtotal: int, stages: seq<StackedStage>, results: seq<StageResult>, i: nat)
    requires IsStacking(subtotal, stages, results) && i <= |results|
    ensures IsStacking(subtotal, stages, results[..i])
  {
    if i == |results| {
      assert results[..i] == results;
    } else {
      StackingPrefix(subtotal, stages, results[..|results| - 1], i);
      PrefixOfPrefix(results, i, |results| - 1);
    }
  }

  /** The stage splits what was left before it into its discount and what is left after it. */
  ghost predicate SplitsAt(before: int, after: int, stage: StackedStage, r: StageResult) {
    && StageAt(before, stage) == Ok(r)
    && 0 <= after <= before
    && after == r.computation.remainingSubtotalMinor
    && before == r.computation.appliedMinor + after
    && (before > 0 ==> after < before)
  }

  lemma LastStage(subtotal: int, stages: seq<StackedStage>, results: seq<StageResult>)
    requires IsStacking(subtotal, stages, results) && results != []
    ensures var n := |results| - 1;
            SplitsAt(subtotal - Applied(results[..n]), subtotal - Applied(results), stages[n], results[n])
  {
    var n := |results| - 1;
    PrefixSnoc(results, n);
    assert results[..n + 1] == results;
    SumBySnoc(results[..n], results[n], (r: StageResult) => r.computation.appliedMinor);
    StageSplits(subtotal - Applied(results[..n]), stages[n]);
  }

  lemma {:induction false} AppliedNonNegative(subtotal: int, stages: seq<StackedStage>, results: seq<StageResult>)
    requires IsStacking(subtotal, stages, results)
    ensures Applied(results) >= 0
  {
    if results != [] {
      LastStage(subtotal, stages, results);
      AppliedNonNegative(subtotal, stages, results[..|results| - 1]);
    }
  }

  /** What was discounted and what is left add up to the subtotal, and the remainder only shrinks. */
  lemma StackingConserves(subtotal: int, stages: seq<StackedStage>, results: seq<StageResult>, i: nat)
    requires IsStacking(subtotal, stages, results) && i < |results|
    ensures SplitsAt(subtotal - Applied(results[..i]), subtotal - Applied(results[..i + 1]), stages[i], results[i])
    ensures subtotal - Applied(results[..i]) <= subtotal
  {
    StackingPrefix(subtotal, stages, results, i + 1);
    LastStage(subtotal, stages, results[..i + 1]);
    PrefixOfPrefix(results, i, i + 1);
    StackingPrefix(subtotal, stages, results, i);
    AppliedNonNegative(subtotal, stages, results[..i]);
  }

  /** A stage that finds nothing left applies nothing and needs nobody; any other has the reason of its own request. */
  lemma StackingReasons(subtotal: int, stages: seq<StackedStage>, results: seq<StageResult>, i: nat, before: int)
    requires IsStacking(subtotal, stages, results) && i < |results| && before == subtotal - Applied(results[..i])
    ensures results[i].stage == stages[i]
    ensures if before == 0 then results[i].overrideReason.None? && results[i].computation.appliedMinor == 0
            else results[i].overrideReason
                 == ReasonFor(before, stages[i].request, stages[i].caps, results[i].computation)
  {
    StackingConserves(subtotal, stages, results, i);
    StageReason(before, stages[i], results[i]);
  }

  lemma StageReason(before: int, stage: StackedStage, r: StageResult)
    requires StageAt(before, stage) == Ok(r)
    ensures r.stage == stage
    ensures if before == 0 then r.overrideReason.None? && r.computation.appliedMinor == 0
            else r.overrideReason == ReasonFor(before, stage.request, stage.caps, r.computation)
  {
    if before != 0 {
      OverrideReasonIs(before, stage.request, stage.caps);
    }
  }
}
