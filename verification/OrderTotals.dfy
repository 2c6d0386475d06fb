/** Order totals: discounts spread over the lines, then stored tax snapshots replayed on the reduced bases. */
module OrderTotals {
  import opened Outcome
  import opened Sums
  import opened Rounding
  import opened DecimalText
  import opened Allocation
  import opened TaxMath
  import opened Cascade
  import opened ProportionalShares

  // The order's financial snapshot

  /** A stored, immutable tax snapshot of one line. */
  datatype TaxPlanLine = TaxPlanLine(rateId: string, family: Family, priority: int, bps: int, inclusive: bool)

  datatype OrderLine = OrderLine(itemId: string, amount: int, taxPlan: seq<TaxPlanLine>)

  /** `discounts` are the stored applied amounts as text, at the currency's own scale `digits`. */
  datatype Snapshot = Snapshot(lines: seq<OrderLine>, discounts: seq<string>, digits: nat, currency: string,
                               strategy: Option<Strategy>, completedPayments: int)

  datatype Totals = Totals(subtotal: int, discountTotal: int, discountedSubtotal: int, tax: int, total: int,
                           remainingBalance: int)

  function ToApplicableTax(line: TaxPlanLine): Tax {
    var id := "rate:" + line.rateId;
    Tax(Category(id, line.family, line.priority), Rate(line.rateId, id, line.bps, line.inclusive))
  }

  function Subtotal(lines: seq<OrderLine>): int {
    SumBy(lines, (l: OrderLine) => l.amount)
  }

  function LineWeights(lines: seq<OrderLine>): seq<Weight> {
    Apply((l: OrderLine) => Weight(l.itemId, l.amount), lines)
  }

  predicate DiscountsParse(s: Snapshot) {
    forall t :: t in s.discounts ==> DecimalTextToMinor(t, s.digits).Ok?
  }

  function DiscountMinor(s: Snapshot, text: string): int {
    match DecimalTextToMinor(text, s.digits) case Ok(v) => v case Err(_) => 0
  }

  function RawDiscount(s: Snapshot): int {
    SumBy(s.discounts, (t: string) => DiscountMinor(s, t))
  }

  function ClampedDiscount(s: Snapshot): int {
    if RawDiscount(s) > Subtotal(s.lines) then Subtotal(s.lines) else RawDiscount(s)
  }

  function ReplayPlan(line: OrderLine, discount: map<string, int>, currency: string): Plan {
    Plan(line.itemId, line.amount - Share(discount, line.itemId), currency, Apply(ToApplicableTax, line.taxPlan))
  }

  /** The lines that carry tax snapshots, on their discounted bases. */
  function TaxedPlans(lines: seq<OrderLine>, discount: map<string, int>, currency: string): seq<Plan> {
    Apply((l: OrderLine) => ReplayPlan(l, discount, currency), Select((l: OrderLine) => l.taxPlan != [], lines))
  }

  function ExclusivePart(m: map<Cell, int>, c: Cell): int {
    if c.inclusive then 0 else Amount(m, c)
  }

  function ExclusiveTotal(cells: seq<Cell>, m: map<Cell, int>): int {
    SumBy(cells, (c: Cell) => ExclusivePart(m, c))
  }

  predicate HasTaxPlans(s: Snapshot) {
    exists l :: l in s.lines && l.taxPlan != []
  }

  /** What each line gives up to the discount. */
  function LineDiscounts(s: Snapshot): map<string, int> {
    if ClampedDiscount(s) == 0 then map[] else Proportional(ClampedDiscount(s), LineWeights(s.lines))
  }

  /** The cascade on the discounted bases. */
  ghost predicate IsTaxBasis(s: Snapshot, m: map<Cell, int>) {
    var discount := LineDiscounts(s);
    && s.strategy.Some?
    && ValidPlans(TaxedPlans(s.lines, discount, s.currency))
    && IsCascade(Sheet(TaxedPlans(s.lines, discount, s.currency)), s.strategy.value, m)
    && InRange(TaxedPlans(s.lines, discount, s.currency), Sheet(TaxedPlans(s.lines, discount, s.currency)), m)
  }

  ghost predicate IsTotals(s: Snapshot, t: Totals) {
    && DiscountsParse(s)
    && t.subtotal == Subtotal(s.lines)
    && t.discountTotal == ClampedDiscount(s)
    && t.discountedSubtotal == t.subtotal - t.discountTotal
    && (if HasTaxPlans(s) then
          exists m :: IsTaxBasis(s, m)
            && t.tax == ExclusiveTotal(Sheet(TaxedPlans(s.lines, LineDiscounts(s), s.currency)), m)
        else t.tax == 0)
    && t.total == t.discountedSubtotal + t.tax
    && t.remainingBalance == t.total - s.completedPayments
  }

  ghost predicate TotalsDefined(s: Snapshot) {
    DiscountsParse(s) && (HasTaxPlans(s) ==> exists m :: IsTaxBasis(s, m))
  }

  /** What the store guarantees of a snapshot: distinct lines, non-negative amounts and discounts. */
  ghost predicate StoredSnapshot(s: Snapshot) {
    && (forall i, j :: 0 <= i < j < |s.lines| ==> s.lines[i].itemId != s.lines[j].itemId)
    && (forall l :: l in s.lines ==> l.amount >= 0)
    && (forall t :: t in s.discounts ==> DiscountMinor(s, t) >= 0)
  }

  lemma {:induction false} NonNegativeSums(s: Snapshot)
    requires StoredSnapshot(s)
    ensures Subtotal(s.lines) >= 0 && RawDiscount(s) >= 0
  {
    LinesNonNegative(s.lines);
    DiscountsNonNegative(s, s.discounts);
  }

  lemma {:induction false} LinesNonNegative(lines: seq<OrderLine>)
    requires forall l :: l in lines ==> l.amount >= 0
    ensures Subtotal(lines) >= 0
  {
    if lines != [] { LinesNonNegative(lines[1..]); }
  }

  lemma {:induction false} DiscountsNonNegative(s: Snapshot, texts: seq<string>)
    requires forall t :: t in texts ==> DiscountMinor(s, t) >= 0
    ensures SumBy(texts, (t: string) => DiscountMinor(s, t)) >= 0
  {
    if texts != [] { DiscountsNonNegative(s, texts[1..]); }
  }

  lemma WeightsOfLines(s: Snapshot)
    requires StoredSnapshot(s)
    ensures ValidWeights(LineWeights(s.lines)) && TotalWeight(LineWeights(s.lines)) == Subtotal(s.lines)
  {
    SameTotals(s.lines);
    forall w | w in LineWeights(s.lines) ensures w.weight >= 0 {
      var i :| 0 <= i < |LineWeights(s.lines)| && LineWeights(s.lines)[i] == w;
      assert s.lines[i] in s.lines;
    }
  }

  lemma {:induction false} SameTotals(lines: seq<OrderLine>)
    ensures TotalWeight(LineWeights(lines)) == Subtotal(lines)
  {
    if lines != [] {
      SameTotals(lines[1..]);
      assert LineWeights(lines)[1..] == LineWeights(lines[1..]);
    }
  }

  // The rows of a result add up to the exclusive total of its cells

  function RowTax(r: Row): int { if r.inclusive then 0 else r.tax }

  function RowsTax(rows: seq<Row>): int { SumBy(rows, RowTax) }

  lemma {:induction false} LineRowsTax(plan: Plan, cells: seq<Cell>, m: map<Cell, int>, k: nat)
    requires k <= |plan.taxes|
    ensures RowsTax(LineRows(plan, cells, m)[..k]) == ExclusiveTotal(LineCells(plan)[..k], m)
  {
    var f := (c: Cell) => ExclusivePart(m, c);
    if k > 0 {
      LineRowsTax(plan, cells, m, k - 1);
      PrefixSnoc(LineRows(plan, cells, m), k - 1);
      PrefixSnoc(LineCells(plan), k - 1);
      SumBySnoc(LineRows(plan, cells, m)[..k - 1], LineRows(plan, cells, m)[k - 1], RowTax);
      SumBySnoc(LineCells(plan)[..k - 1], LineCells(plan)[k - 1], f);
    }
  }

  /** Adds up the exclusive tax of all rows, line by line. */
  method SumExclusive(plans: seq<Plan>, ghost strategy: Strategy, ghost m: map<Cell, int>,
                      result: map<string, seq<Row>>) returns (tax: int)
    requires IsResult(plans, strategy, m, result)
    ensures tax == ExclusiveTotal(Sheet(plans), m)
  {
    tax := 0;
    ghost var lines := OrderedPlans(plans);
    ghost var cells := Sheet(plans);
    for i := 0 to |plans|
      invariant tax == ExclusiveTotal(Cells(lines[..i]), m)
    {
      assert plans[i] in plans;
      var rows := result[plans[i].lineId];
      ghost var before := tax;
      for k := 0 to |rows|
        invariant tax == before + RowsTax(rows[..k])
      {
        PrefixSnoc(rows, k);
        SumBySnoc(rows[..k], rows[k], RowTax);
        if !rows[k].inclusive {
          tax := tax + rows[k].tax;
        }
      }
      assert rows[..|rows|] == rows;
      LineAdded(lines, i, cells, m);
    }
    assert lines[..|lines|] == lines;
  }

  lemma LineAdded(lines: seq<Plan>, i: nat, cells: seq<Cell>, m: map<Cell, int>)
    requires i < |lines|
    ensures ExclusiveTotal(Cells(lines[..i + 1]), m)
            == ExclusiveTotal(Cells(lines[..i]), m) + RowsTax(LineRows(lines[i], cells, m))
  {
    var rows := LineRows(lines[i], cells, m);
    assert rows[..|rows|] == rows && LineCells(lines[i])[..|rows|] == LineCells(lines[i]);
    LineRowsTax(lines[i], cells, m, |rows|);
    PrefixSnoc(lines, i);
    CellsSnoc(lines[..i], lines[i]);
    SumByAppend(Cells(lines[..i]), LineCells(lines[i]), (c: Cell) => ExclusivePart(m, c));
  }

  lemma {:induction false} CellsSnoc(plans: seq<Plan>, plan: Plan)
    ensures Cells(plans + [plan]) == Cells(plans) + LineCells(plan)
  {
    if plans == [] {
      assert [plan][1..] == [] && [] + [plan] == [plan];
      assert Cells([plan]) == LineCells(plan) + [];
    } else {
      assert (plans + [plan])[1..] == plans[1..] + [plan];
      CellsSnoc(plans[1..], plan);
    }
  }

  /** The totals of an order; fails exactly when a discount text is invalid or the tax replay has no solution. */
  method ComputeOrderTotals(s: Snapshot) returns (r: Result<Totals>)
    ensures r.Ok? <==> TotalsDefined(s)
    ensures r.Ok? ==> IsTotals(s, r.value)
  {
    var subtotal := Subtotal(s.lines);
    var rawDiscount := 0;
    for i := 0 to |s.discounts|
      invariant forall t :: t in s.discounts[..i] ==> DecimalTextToMinor(t, s.digits).Ok?
      invariant rawDiscount == SumBy(s.discounts[..i], (t: string) => DiscountMinor(s, t))
    {
      var parsed := DecimalTextToMinor(s.discounts[i], s.digits);
      assert s.discounts[i] in s.discounts;
      if parsed.Err? {
        return Err(parsed.error);
      }
      PrefixSnoc(s.discounts, i);
      SumBySnoc(s.discounts[..i], s.discounts[i], (t: string) => DiscountMinor(s, t));
      rawDiscount := rawDiscount + parsed.value;
    }
    assert s.discounts[..|s.discounts|] == s.discounts;
    var discountTotal := if rawDiscount > subtotal then subtotal else rawDiscount;
    var discountedSubtotal := subtotal - discountTotal;
    var tax := 0;
    if HasTaxPlans(s) {
      var replayed := ReplayTaxes(s, discountTotal);
      if replayed.Err? {
        return Err(replayed.error);
      }
      tax := replayed.value;
    }
    var total := discountedSubtotal + tax;
    return Ok(Totals(subtotal, discountTotal, discountedSubtotal, tax, total, total - s.completedPayments));
  }

  method ReplayTaxes(s: Snapshot, discountTotal: int) returns (r: Result<int>)
    requires discountTotal == ClampedDiscount(s)
    ensures r.Ok? ==> exists m :: IsTaxBasis(s, m)
                                  && r.value == ExclusiveTotal(Sheet(TaxedPlans(s.lines, LineDiscounts(s), s.currency)),
                                                               m)
    ensures r.Err? ==> forall m :: !IsTaxBasis(s, m)
  {
    if s.strategy.None? {
      return Err(TaxConfiguration);
    }
    var discount: map<string, int> := map[];
    if discountTotal != 0 {
      discount := AllocateProportionally(discountTotal, LineWeights(s.lines));
    }
    var plans := TaxedPlans(s.lines, discount, s.currency);
    var resolved := CalculateCascadingTaxes(plans, s.strategy.value);
    if resolved.Err? {
      return Err(resolved.error);
    }
    ghost var m :| IsResult(plans, s.strategy.value, m, resolved.value);
    var tax := SumExclusive(plans, s.strategy.value, m, resolved.value);
    assert IsTaxBasis(s, m);
    return Ok(tax);
  }

  // What the totals promise

  function DiscountedBases(lines: seq<OrderLine>, discount: map<string, int>): int {
    SumBy(lines, (l: OrderLine) => l.amount - Share(discount, l.itemId))
  }

  lemma {:induction false} BasesSplit(lines: seq<OrderLine>, discount: map<string, int>)
    ensures DiscountedBases(lines, discount) == Subtotal(lines) - WeightShares(LineWeights(lines), discount)
  {
    if lines != [] {
      BasesSplit(lines[1..], discount);
      assert LineWeights(lines)[1..] == LineWeights(lines[1..]);
    }
  }

  /** Every discounted base lies between zero and the line amount, and the bases add up to the discounted subtotal. */
  lemma DiscountedBasesExact(s: Snapshot, discount: map<string, int>)
    requires StoredSnapshot(s) && discount == LineDiscounts(s)
    ensures 0 <= ClampedDiscount(s) <= Subtotal(s.lines)
    ensures forall l :: l in s.lines ==> 0 <= l.amount - Share(discount, l.itemId) <= l.amount
    ensures DiscountedBases(s.lines, discount) == Subtotal(s.lines) - ClampedDiscount(s)
  {
    NonNegativeSums(s);
    WeightsOfLines(s);
    BasesSplit(s.lines, discount);
    var weights := LineWeights(s.lines);
    if ClampedDiscount(s) == 0 {
      ZeroShares(weights, discount);
    } else {
      ProportionalIsLargestRemainder(ClampedDiscount(s), weights);
      ProportionalExact(ClampedDiscount(s), weights, discount);
      forall i | 0 <= i < |s.lines| ensures 0 <= Share(discount, s.lines[i].itemId) <= s.lines[i].amount {
        assert weights[i] in weights;
      }
    }
  }

  lemma GroupShareBounds(cells: seq<Cell>, m: map<Cell, int>, c: Cell, r: map<string, int>)
    requires c in cells && ValidShares(GroupShares(cells, m, c))
    requires IsInvoiceAllocation(GroupShares(cells, m, c), c.bps, c.inclusive, r)
    ensures 0 <= Share(r, c.lineId) <= Base(cells, m, c)
  {
    GroupMembers(cells, c);
    var i :| 0 <= i < |Group(cells, c)| && Group(cells, c)[i] == c;
    var share := TaxShare(c.lineId, Base(cells, m, c));
    assert GroupShares(cells, m, c)[i] == share;
    InvoiceShareBounds(GroupShares(cells, m, c), c.bps, c.inclusive, r, share);
  }

  lemma CellAmountNonNegative(cells: seq<Cell>, strategy: Strategy, m: map<Cell, int>, c: Cell)
    requires c in cells && CellHolds(cells, strategy, m, c)
    ensures 0 <= Amount(m, c) <= Base(cells, m, c)
  {
    if strategy.PerLine? {
      TaxAmountIsNearest(Base(cells, m, c), c.bps, c.inclusive);
    } else {
      var r :| IsInvoiceAllocation(GroupShares(cells, m, c), c.bps, c.inclusive, r)
        && Share(r, c.lineId) == Amount(m, c);
      GroupShareBounds(cells, m, c, r);
    }
  }

  lemma {:induction false} ExclusiveNonNegative(all: seq<Cell>, cells: seq<Cell>, strategy: Strategy, m: map<Cell, int>)
    requires IsCascade(all, strategy, m)
    requires forall c :: c in cells ==> c in all
    ensures ExclusiveTotal(cells, m) >= 0
  {
    if cells != [] {
      CellAmountNonNegative(all, strategy, m, cells[0]);
      ExclusiveNonNegative(all, cells[1..], strategy, m);
    }
  }

  /** The total is never below the discounted subtotal, which is never negative. */
  lemma TotalNotBelowDiscounted(s: Snapshot, t: Totals)
    requires StoredSnapshot(s) && IsTotals(s, t)
    ensures 0 <= t.discountedSubtotal <= t.subtotal && t.discountedSubtotal <= t.total
  {
    NonNegativeSums(s);
    if HasTaxPlans(s) {
      var cells := Sheet(TaxedPlans(s.lines, LineDiscounts(s), s.currency));
      var m :| IsTaxBasis(s, m) && t.tax == ExclusiveTotal(cells, m);
      ExclusiveNonNegative(cells, cells, s.strategy.value, m);
    }
  }

  // The amounts that are taxed, in terms of the lines alone

  /** What is left of a line after its proportional share of the order's discount. */
  function DiscountedAmount(s: Snapshot, l: OrderLine): int {
    l.amount - Share(Proportional(ClampedDiscount(s), LineWeights(s.lines)), l.itemId)
  }

  /** One stored tax of a line, on the discounted amount. */
  function LineCell(s: Snapshot, l: OrderLine, e: TaxPlanLine): Cell {
    Cell(l.itemId, DiscountedAmount(s, l), s.currency, e.priority, e.rateId, e.bps, e.inclusive)
  }

  function LowerPart(s: Snapshot, m: map<Cell, int>, l: OrderLine, priority: int, e: TaxPlanLine): int {
    if e.priority < priority && !e.inclusive then Amount(m, LineCell(s, l, e)) else 0
  }

  /** The exclusive tax of a line from strictly lower priorities. */
  function LowerTax(s: Snapshot, m: map<Cell, int>, l: OrderLine, priority: int): int {
    SumBy(l.taxPlan, (e: TaxPlanLine) => LowerPart(s, m, l, priority, e))
  }

  function ExclusiveTaxPart(s: Snapshot, m: map<Cell, int>, l: OrderLine, e: TaxPlanLine): int {
    if e.inclusive then 0 else Amount(m, LineCell(s, l, e))
  }

  function ExclusiveTax(s: Snapshot, m: map<Cell, int>, l: OrderLine): int {
    SumBy(l.taxPlan, (e: TaxPlanLine) => ExclusiveTaxPart(s, m, l, e))
  }

  /** The base of one line for a rate that several lines may carry. */
  ghost predicate RateBase(s: Snapshot, m: map<Cell, int>, e: TaxPlanLine, l: OrderLine, f: TaxPlanLine, x: TaxShare) {
    && l in s.lines && f in l.taxPlan
    && f.priority == e.priority && f.rateId == e.rateId && f.bps == e.bps && f.inclusive == e.inclusive
    && x == TaxShare(l.itemId, DiscountedAmount(s, l) + LowerTax(s, m, l, e.priority))
  }

  ghost predicate RateShare(s: Snapshot, m: map<Cell, int>, e: TaxPlanLine, x: TaxShare) {
    exists l, f :: RateBase(s, m, e, l, f, x)
  }

  /** `amount` is the line's share of the tax on all discounted lines with the rate, rounded once. */
  ghost predicate SharesRate(s: Snapshot, m: map<Cell, int>, l: OrderLine, e: TaxPlanLine, amount: int) {
    exists shares, r :: && ValidShares(shares) && (forall x :: x in shares <==> RateShare(s, m, e, x))
                        && IsInvoiceAllocation(shares, e.bps, e.inclusive, r) && Share(r, l.itemId) == amount
  }

  /** The tax on a base, rounded as the strategy says. */
  ghost predicate TaxedOn(s: Snapshot, m: map<Cell, int>, l: OrderLine, e: TaxPlanLine, base: int, tax: int) {
    && s.strategy.Some?
    && match s.strategy.value
       case PerLine => IsNearestUp(base * e.bps, if e.inclusive then 10_000 + e.bps else 10_000, tax)
       case InvoiceTotal => SharesRate(s, m, l, e, tax)
  }

  lemma DiscountsAgree(s: Snapshot, l: OrderLine)
    requires l in s.lines
    ensures Share(LineDiscounts(s), l.itemId) == Share(Proportional(ClampedDiscount(s), LineWeights(s.lines)), l.itemId)
  {
  }

  lemma PlanOfLine(s: Snapshot, l: OrderLine)
    requires l in s.lines && l.taxPlan != []
    ensures ReplayPlan(l, LineDiscounts(s), s.currency) in TaxedPlans(s.lines, LineDiscounts(s), s.currency)
  {
    var taxed := Select((l: OrderLine) => l.taxPlan != [], s.lines);
    SelectMembers((l: OrderLine) => l.taxPlan != [], s.lines);
    var i :| 0 <= i < |taxed| && taxed[i] == l;
    assert TaxedPlans(s.lines, LineDiscounts(s), s.currency)[i] == ReplayPlan(l, LineDiscounts(s), s.currency);
  }

  lemma LineOfPlan(s: Snapshot, q: Plan) returns (l: OrderLine)
    requires q in TaxedPlans(s.lines, LineDiscounts(s), s.currency)
    ensures l in s.lines && l.taxPlan != [] && q == ReplayPlan(l, LineDiscounts(s), s.currency)
  {
    var taxed, plans := Select((l: OrderLine) => l.taxPlan != [], s.lines),
      TaxedPlans(s.lines, LineDiscounts(s), s.currency);
    SelectMembers((l: OrderLine) => l.taxPlan != [], s.lines);
    var i :| 0 <= i < |plans| && plans[i] == q;
    l := taxed[i];
    assert l in taxed;
  }

  lemma CellOfLine(s: Snapshot, l: OrderLine, e: TaxPlanLine)
    requires l in s.lines
    ensures CellOf(ReplayPlan(l, LineDiscounts(s), s.currency), ToApplicableTax(e)) == LineCell(s, l, e)
  {
    DiscountsAgree(s, l);
  }

  /** The cells of the cascade are the stored taxes of the lines on their discounted amounts. */
  lemma SheetOfLines(s: Snapshot, c: Cell)
    ensures c in Sheet(TaxedPlans(s.lines, LineDiscounts(s), s.currency)) <==>
            exists l, e :: l in s.lines && e in l.taxPlan && c == LineCell(s, l, e)
  {
    var plans := TaxedPlans(s.lines, LineDiscounts(s), s.currency);
    SheetMembers(plans, c);
    if q, t :| q in plans && t in q.taxes && c == CellOf(q, t) {
      var l := LineOfPlan(s, q);
      var k :| 0 <= k < |q.taxes| && q.taxes[k] == t;
      CellOfLine(s, l, l.taxPlan[k]);
      assert l.taxPlan[k] in l.taxPlan;
    }
    if l, e :| l in s.lines && e in l.taxPlan && c == LineCell(s, l, e) {
      CellOnSheet(s, l, e);
    }
  }

  lemma CellOnSheet(s: Snapshot, l: OrderLine, e: TaxPlanLine)
    requires l in s.lines && e in l.taxPlan
    ensures exists q, t :: && q in TaxedPlans(s.lines, LineDiscounts(s), s.currency) && t in q.taxes
                           && LineCell(s, l, e) == CellOf(q, t)
  {
    PlanOfLine(s, l);
    var q := ReplayPlan(l, LineDiscounts(s), s.currency);
    var k :| 0 <= k < |l.taxPlan| && l.taxPlan[k] == e;
    assert q.taxes[k] == ToApplicableTax(e) && q.taxes[k] in q.taxes;
    CellOfLine(s, l, e);
  }

  lemma {:induction false} LineSums(s: Snapshot, m: map<Cell, int>, l: OrderLine, entries: seq<TaxPlanLine>,
                                    priority: int)
    requires l in s.lines
    ensures var cells := Apply((e: TaxPlanLine) => LineCell(s, l, e), entries);
            && SumBy(entries, (e: TaxPlanLine) => LowerPart(s, m, l, priority, e))
               == ExclusiveBelow(cells, m, l.itemId, priority)
            && SumBy(entries, (e: TaxPlanLine) => ExclusiveTaxPart(s, m, l, e)) == ExclusiveTotal(cells, m)
    decreases |entries|
  {
    if entries != [] {
      LineSums(s, m, l, entries[1..], priority);
      var cells := Apply((e: TaxPlanLine) => LineCell(s, l, e), entries);
      assert cells[1..] == Apply((e: TaxPlanLine) => LineCell(s, l, e), entries[1..]);
    }
  }

  lemma CellsOfLine(s: Snapshot, l: OrderLine)
    requires l in s.lines
    ensures LineCells(ReplayPlan(l, LineDiscounts(s), s.currency))
            == Apply((e: TaxPlanLine) => LineCell(s, l, e), l.taxPlan)
  {
    var q := ReplayPlan(l, LineDiscounts(s), s.currency);
    forall k | 0 <= k < |l.taxPlan| ensures LineCells(q)[k] == LineCell(s, l, l.taxPlan[k]) {
      CellOfLine(s, l, l.taxPlan[k]);
    }
  }

  lemma LowerOfLine(s: Snapshot, m: map<Cell, int>, l: OrderLine, priority: int)
    requires l in s.lines && l.taxPlan != [] && ValidPlans(TaxedPlans(s.lines, LineDiscounts(s), s.currency))
    ensures ExclusiveBelow(Sheet(TaxedPlans(s.lines, LineDiscounts(s), s.currency)), m, l.itemId, priority)
            == LowerTax(s, m, l, priority)
  {
    var plans, q := TaxedPlans(s.lines, LineDiscounts(s), s.currency), ReplayPlan(l, LineDiscounts(s), s.currency);
    PlanOfLine(s, l);
    SheetIsPermutation(plans);
    SumByPermutation(Sheet(plans), Cells(plans), (c: Cell) => Cascading(m, l.itemId, priority, c));
    OwnCellsOnly(plans, m, q, priority);
    CellsOfLine(s, l);
    LineSums(s, m, l, l.taxPlan, priority);
  }

  lemma BaseOfCell(s: Snapshot, m: map<Cell, int>, l: OrderLine, e: TaxPlanLine)
    requires l in s.lines && e in l.taxPlan && ValidPlans(TaxedPlans(s.lines, LineDiscounts(s), s.currency))
    ensures Base(Sheet(TaxedPlans(s.lines, LineDiscounts(s), s.currency)), m, LineCell(s, l, e))
            == DiscountedAmount(s, l) + LowerTax(s, m, l, e.priority)
  {
    LowerOfLine(s, m, l, e.priority);
  }

  lemma SameRateBase(s: Snapshot, m: map<Cell, int>, c: Cell, e: TaxPlanLine, l: OrderLine, f: TaxPlanLine, x: TaxShare)
    requires l in s.lines && f in l.taxPlan && ValidPlans(TaxedPlans(s.lines, LineDiscounts(s), s.currency))
    requires c.priority == e.priority && c.rateId == e.rateId && c.bps == e.bps && c.inclusive == e.inclusive
    requires c.currency == s.currency
    ensures GroupBase(Sheet(TaxedPlans(s.lines, LineDiscounts(s), s.currency)), m, c, LineCell(s, l, f), x) <==>
            RateBase(s, m, e, l, f, x)
  {
    SheetOfLines(s, LineCell(s, l, f));
    BaseOfCell(s, m, l, f);
  }

  lemma RateShareIsGroupBase(s: Snapshot, m: map<Cell, int>, c: Cell, e: TaxPlanLine, x: TaxShare)
    requires ValidPlans(TaxedPlans(s.lines, LineDiscounts(s), s.currency))
    requires c.priority == e.priority && c.rateId == e.rateId && c.bps == e.bps && c.inclusive == e.inclusive
    requires c.currency == s.currency
    ensures (exists d :: GroupBase(Sheet(TaxedPlans(s.lines, LineDiscounts(s), s.currency)), m, c, d, x)) <==>
            RateShare(s, m, e, x)
  {
    var cells := Sheet(TaxedPlans(s.lines, LineDiscounts(s), s.currency));
    if d :| GroupBase(cells, m, c, d, x) {
      SheetOfLines(s, d);
      var l, f :| l in s.lines && f in l.taxPlan && d == LineCell(s, l, f);
      SameRateBase(s, m, c, e, l, f, x);
    }
    if l, f :| RateBase(s, m, e, l, f, x) {
      SameRateBase(s, m, c, e, l, f, x);
    }
  }

  lemma SharedByLines(s: Snapshot, m: map<Cell, int>, l: OrderLine, e: TaxPlanLine)
    requires ValidPlans(TaxedPlans(s.lines, LineDiscounts(s), s.currency))
    requires CellHolds(Sheet(TaxedPlans(s.lines, LineDiscounts(s), s.currency)), InvoiceTotal, m, LineCell(s, l, e))
    ensures SharesRate(s, m, l, e, Amount(m, LineCell(s, l, e)))
  {
    var cells, c := Sheet(TaxedPlans(s.lines, LineDiscounts(s), s.currency)), LineCell(s, l, e);
    CellIsShared(cells, m, c);
    var shares, r :| && IsGroup(cells, m, c, shares) && IsInvoiceAllocation(shares, c.bps, c.inclusive, r)
                     && Share(r, c.lineId) == Amount(m, c);
    forall x ensures x in shares <==> RateShare(s, m, e, x) {
      RateShareIsGroupBase(s, m, c, e, x);
    }
  }

  lemma NearestOnBase(cells: seq<Cell>, m: map<Cell, int>, c: Cell, e: TaxPlanLine, base: int)
    requires CellHolds(cells, PerLine, m, c) && base == Base(cells, m, c) && c.bps == e.bps
             && c.inclusive == e.inclusive
    ensures IsNearestUp(base * e.bps, if e.inclusive then 10_000 + e.bps else 10_000, Amount(m, c))
  {
    CellIsNearest(cells, m, c);
  }

  lemma TaxedOnBase(s: Snapshot, m: map<Cell, int>, l: OrderLine, e: TaxPlanLine, base: int)
    requires IsTaxBasis(s, m) && l in s.lines && e in l.taxPlan
    requires base == DiscountedAmount(s, l) + LowerTax(s, m, l, e.priority)
    ensures TaxedOn(s, m, l, e, base, Amount(m, LineCell(s, l, e)))
  {
    var cells, c := Sheet(TaxedPlans(s.lines, LineDiscounts(s), s.currency)), LineCell(s, l, e);
    SheetOfLines(s, c);
    BaseOfCell(s, m, l, e);
    assert CellHolds(cells, s.strategy.value, m, c);
    if s.strategy.value.PerLine? {
      NearestOnBase(cells, m, c, e, base);
    } else {
      SharedByLines(s, m, l, e);
    }
  }

  /** Each stored tax of a line is computed on what is left of the line after its share of the discount. */
  lemma TaxedOnDiscounted(s: Snapshot, m: map<Cell, int>, l: OrderLine, e: TaxPlanLine, base: int)
    requires IsTaxBasis(s, m) && l in s.lines && e in l.taxPlan
    requires base == l.amount - Share(Proportional(ClampedDiscount(s), LineWeights(s.lines)), l.itemId)
                     + LowerTax(s, m, l, e.priority)
    ensures TaxedOn(s, m, l, e, base, Amount(m, LineCell(s, l, e)))
  {
    assert base == DiscountedAmount(s, l) + LowerTax(s, m, l, e.priority);
    TaxedOnBase(s, m, l, e, base);
  }

  lemma {:induction false} TaxOfLines(s: Snapshot, m: map<Cell, int>, lines: seq<OrderLine>)
    requires forall l :: l in lines ==> l in s.lines
    ensures ExclusiveTotal(Cells(TaxedPlans(lines, LineDiscounts(s), s.currency)), m)
            == SumBy(lines, (l: OrderLine) => ExclusiveTax(s, m, l))
    decreases |lines|
  {
    if lines != [] {
      TaxOfLines(s, m, lines[1..]);
      var l, plans := lines[0], TaxedPlans(lines, LineDiscounts(s), s.currency);
      if l.taxPlan != [] {
        assert plans[1..] == TaxedPlans(lines[1..], LineDiscounts(s), s.currency);
        SumByAppend(LineCells(plans[0]), Cells(plans[1..]), (c: Cell) => ExclusivePart(m, c));
        CellsOfLine(s, l);
        LineSums(s, m, l, l.taxPlan, 0);
      } else {
        assert plans == TaxedPlans(lines[1..], LineDiscounts(s), s.currency);
      }
    }
  }

  lemma TaxSpelledOut(s: Snapshot, t: Totals) returns (m: map<Cell, int>)
    requires IsTotals(s, t)
    ensures HasTaxPlans(s) ==> IsTaxBasis(s, m)
    ensures t.tax == SumBy(s.lines, (l: OrderLine) => ExclusiveTax(s, m, l))
  {
    m := map[];
    if HasTaxPlans(s) {
      var plans := TaxedPlans(s.lines, LineDiscounts(s), s.currency);
      m :| IsTaxBasis(s, m) && t.tax == ExclusiveTotal(Sheet(plans), m);
      SheetIsPermutation(plans);
      SumByPermutation(Sheet(plans), Cells(plans), (c: Cell) => ExclusivePart(m, c));
      TaxOfLines(s, m, s.lines);
    } else {
      NothingTaxed(s, m, s.lines);
    }
  }

  /** The base of each stored tax: the line's amount less its share of the discount, plus its lower exclusive tax. */
  ghost predicate LinesTaxed(s: Snapshot, m: map<Cell, int>, discountTotal: int) {
    forall l, e, base, tax {:trigger TaxedOn(s, m, l, e, base, tax)} ::
      && l in s.lines && e in l.taxPlan && tax == Amount(m, LineCell(s, l, e))
      && base == l.amount - Share(Proportional(discountTotal, LineWeights(s.lines)), l.itemId)
                 + LowerTax(s, m, l, e.priority)
      ==> TaxedOn(s, m, l, e, base, tax)
  }

  lemma TaxedSomewhere(s: Snapshot, l: OrderLine, e: TaxPlanLine)
    requires l in s.lines && e in l.taxPlan
    ensures HasTaxPlans(s)
  {
  }

  lemma LinesAreTaxed(s: Snapshot, m: map<Cell, int>)
    requires HasTaxPlans(s) ==> IsTaxBasis(s, m)
    ensures LinesTaxed(s, m, ClampedDiscount(s))
  {
    forall l, e, base, tax |
      && l in s.lines && e in l.taxPlan && tax == Amount(m, LineCell(s, l, e))
      && base == l.amount - Share(Proportional(ClampedDiscount(s), LineWeights(s.lines)), l.itemId)
                 + LowerTax(s, m, l, e.priority)
      ensures TaxedOn(s, m, l, e, base, tax)
    {
      TaxedSomewhere(s, l, e);
      TaxedOnDiscounted(s, m, l, e, base);
    }
  }

  /**
   * The totals, from the lines and discounts alone: the discounts up to the subtotal come off, and the tax
   * is the sum of the exclusive taxes of the lines, each on its discounted amount.
   */
  lemma TotalsSpelledOut(s: Snapshot, t: Totals) returns (m: map<Cell, int>)
    requires IsTotals(s, t)
    ensures t.subtotal == SumBy(s.lines, (l: OrderLine) => l.amount)
    ensures var raw := SumBy(s.discounts, (d: string) => DiscountMinor(s, d));
            t.discountTotal == if raw > t.subtotal then t.subtotal else raw
    ensures t.discountedSubtotal == t.subtotal - t.discountTotal
    ensures t.tax == SumBy(s.lines, (l: OrderLine) => ExclusiveTax(s, m, l)) && LinesTaxed(s, m, t.discountTotal)
    ensures t.total == t.discountedSubtotal + t.tax && t.remainingBalance == t.total - s.completedPayments
  {
    m := TaxSpelledOut(s, t);
    LinesAreTaxed(s, m);
  }

  lemma {:induction false} NothingTaxed(s: Snapshot, m: map<Cell, int>, lines: seq<OrderLine>)
    requires forall l :: l in lines ==> l.taxPlan == []
    ensures SumBy(lines, (l: OrderLine) => ExclusiveTax(s, m, l)) == 0
  {
    if lines != [] {
      NothingTaxed(s, m, lines[1..]);
    }
  }

  /** The amounts that reach the cascade add up to the discounted subtotal when every line is taxed. */
  lemma TaxedAmountsAddUp(s: Snapshot, t: Totals)
    requires StoredSnapshot(s) && IsTotals(s, t) && forall l :: l in s.lines ==> l.taxPlan != []
    ensures SumBy(TaxedPlans(s.lines, LineDiscounts(s), s.currency), (p: Plan) => p.amount) == t.discountedSubtotal
  {
    DiscountedBasesExact(s, LineDiscounts(s));
    AmountsOfPlans(s.lines, LineDiscounts(s), s.currency);
  }

  lemma {:induction false} AmountsOfPlans(lines: seq<OrderLine>, discount: map<string, int>, currency: string)
    requires forall l :: l in lines ==> l.taxPlan != []
    ensures SumBy(TaxedPlans(lines, discount, currency), (p: Plan) => p.amount) == DiscountedBases(lines, discount)
  {
    if lines != [] {
      AmountsOfPlans(lines[1..], discount, currency);
      assert TaxedPlans(lines, discount, currency)[1..] == TaxedPlans(lines[1..], discount, currency);
    }
  }

  // Replay: the stored snapshots give back the amounts fixed at creation

  /** What creation stores for a line: its amount and its taxes in computation order. */
  function Stored(plan: Plan): OrderLine {
    OrderLine(plan.lineId, plan.amount,
              Apply((t: Tax) => TaxPlanLine(t.rate.id, t.category.family, t.category.priority, t.rate.bps,
                                            t.rate.inclusive), Ordered(plan.taxes)))
  }

  function Replayed(plan: Plan): Plan {
    ReplayPlan(Stored(plan), map[], plan.currency)
  }

  /** Replacing the categories by synthetic ones changes no cell. */
  lemma ReplayedCells(plan: Plan)
    ensures LineCells(Replayed(plan)) == LineCells(OrderedPlan(plan))
  {
    var taxes := Ordered(plan.taxes);
    forall k | 0 <= k < |taxes| ensures LineCells(Replayed(plan))[k] == LineCells(OrderedPlan(plan))[k] {
      assert Replayed(plan).taxes[k] == ToApplicableTax(Stored(plan).taxPlan[k]);
    }
  }

  lemma {:induction false} ReplayedSheet(plans: seq<Plan>)
    ensures Cells(Apply(Replayed, plans)) == Sheet(plans)
  {
    if plans != [] {
      ReplayedCells(plans[0]);
      ReplayedSheet(plans[1..]);
      assert Apply(Replayed, plans)[1..] == Apply(Replayed, plans[1..]);
      assert OrderedPlans(plans)[1..] == OrderedPlans(plans[1..]);
    }
  }

  lemma {:induction false} CellsRemove(plans: seq<Plan>, i: nat)
    requires i < |plans|
    ensures multiset(Cells(plans)) == multiset(Cells(plans[..i] + plans[i + 1..])) + multiset(LineCells(plans[i]))
  {
    if i == 0 {
      CellsCons(plans);
      assert plans[..0] + plans[1..] == plans[1..];
    } else {
      var tail, rest := plans[1..], plans[..i] + plans[i + 1..];
      CellsRemove(tail, i - 1);
      TailOfRemoved(plans, i);
      CellsSwap(plans, rest, multiset(LineCells(plans[i])));
    }
  }

  lemma CellsSwap(plans: seq<Plan>, rest: seq<Plan>, removed: multiset<Cell>)
    requires plans != [] && rest != [] && rest[0] == plans[0]
    requires multiset(Cells(plans[1..])) == multiset(Cells(rest[1..])) + removed
    ensures multiset(Cells(plans)) == multiset(Cells(rest)) + removed
  {
    CellsCons(plans);
    CellsCons(rest);
  }

  lemma CellsCons(plans: seq<Plan>)
    requires plans != []
    ensures multiset(Cells(plans)) == multiset(LineCells(plans[0])) + multiset(Cells(plans[1..]))
  {
  }

  lemma {:induction false} CellsPermute(plans: seq<Plan>, others: seq<Plan>)
    requires multiset(plans) == multiset(others)
    ensures multiset(Cells(plans)) == multiset(Cells(others))
    decreases |plans|
  {
    if plans == [] {
      SameLength(plans, others);
    } else {
      var i := MatchHead(plans, others);
      CellsPermute(plans[1..], others[..i] + others[i + 1..]);
      CellsCons(plans);
      CellsRemove(others, i);
    }
  }

  /** The order in which a line's taxes are listed does not matter either. */
  lemma {:induction false} SheetIsPermutation(plans: seq<Plan>)
    ensures multiset(Sheet(plans)) == multiset(Cells(plans))
  {
    if plans != [] {
      SheetIsPermutation(plans[1..]);
      assert OrderedPlans(plans)[1..] == OrderedPlans(plans[1..]);
      TaxLeIsPreorder();
      Sorting.SortByIsSorted(plans[0].taxes, TaxLe);
      ApplyPermutation((t: Tax) => CellOf(plans[0], t), Ordered(plans[0].taxes), plans[0].taxes);
      LineCellsOfOrdered(plans[0]);
    }
  }

  lemma LineCellsOfOrdered(plan: Plan)
    ensures LineCells(OrderedPlan(plan)) == Apply((t: Tax) => CellOf(plan, t), Ordered(plan.taxes))
  {
    var taxes := Ordered(plan.taxes);
    forall k | 0 <= k < |taxes| ensures LineCells(OrderedPlan(plan))[k] == Apply((t: Tax) => CellOf(plan, t), taxes)[k]
    {
    }
  }

  /** The amount payable that creation fixes for a line: its amount plus its exclusive tax. */
  function AmountPayable(plan: Plan, rows: seq<Row>): int {
    plan.amount + RowsTax(rows)
  }

  function CreationPayable(plans: seq<Plan>, result: map<string, seq<Row>>): int {
    SumBy(plans, (p: Plan) => AmountPayable(p, if p.lineId in result then result[p.lineId] else []))
  }

  /** The snapshot holds the created lines in some order, next to lines without tax snapshots. */
  ghost predicate RecordsCreation(s: Snapshot, plans: seq<Plan>, untaxed: seq<OrderLine>) {
    && multiset(s.lines) == multiset(Apply(Stored, plans)) + multiset(untaxed)
    && (forall l :: l in untaxed ==> l.taxPlan == [])
    && (forall p :: p in plans ==> p.currency == s.currency && DistinctRates(p.taxes))
  }

  ghost predicate DistinctRates(taxes: seq<Tax>) {
    forall i, j :: 0 <= i < j < |taxes| ==> taxes[i].rate.id != taxes[j].rate.id
  }

  lemma StoredHasTaxes(plan: Plan)
    ensures |Stored(plan).taxPlan| == |Ordered(plan.taxes)| == |plan.taxes|
  {
    TaxLeIsPreorder();
    Sorting.SortByIsSorted(plan.taxes, TaxLe);
  }

  lemma {:induction false} SelectStored(plans: seq<Plan>, untaxed: seq<OrderLine>)
    requires forall p :: p in plans ==> p.taxes != []
    requires forall l :: l in untaxed ==> l.taxPlan == []
    ensures Select((l: OrderLine) => l.taxPlan != [], Apply(Stored, plans) + untaxed) == Apply(Stored, plans)
  {
    var keep := (l: OrderLine) => l.taxPlan != [];
    SelectAppend(keep, Apply(Stored, plans), untaxed);
    SelectNone(keep, untaxed);
    SelectAllStored(plans);
  }

  lemma {:induction false} SelectAllStored(plans: seq<Plan>)
    requires forall p :: p in plans ==> p.taxes != []
    ensures Select((l: OrderLine) => l.taxPlan != [], Apply(Stored, plans)) == Apply(Stored, plans)
  {
    if plans != [] {
      StoredHasTaxes(plans[0]);
      SelectAllStored(plans[1..]);
      assert Apply(Stored, plans)[1..] == Apply(Stored, plans[1..]);
    }
  }

  /** The replayed plans are the created ones with synthetic categories, in some order. */
  lemma ReplayedPlans(s: Snapshot, plans: seq<Plan>, untaxed: seq<OrderLine>)
    requires ValidPlans(plans) && RecordsCreation(s, plans, untaxed)
    ensures multiset(TaxedPlans(s.lines, map[], s.currency)) == multiset(Apply(Replayed, plans))
  {
    var keep := (l: OrderLine) => l.taxPlan != [];
    var replay := (l: OrderLine) => ReplayPlan(l, map[], s.currency);
    assert multiset(Apply(Stored, plans) + untaxed) == multiset(s.lines);
    SelectPermutation(keep, s.lines, Apply(Stored, plans) + untaxed);
    SelectStored(plans, untaxed);
    ApplyPermutation(replay, Select(keep, s.lines), Apply(Stored, plans));
    ReplayOfStored(plans, s.currency);
  }

  lemma ReplayOfStored(plans: seq<Plan>, currency: string)
    requires forall p :: p in plans ==> p.currency == currency
    ensures Apply((l: OrderLine) => ReplayPlan(l, map[], currency), Apply(Stored, plans)) == Apply(Replayed, plans)
  {
    var replay := (l: OrderLine) => ReplayPlan(l, map[], currency);
    forall i | 0 <= i < |plans| ensures Apply(replay, Apply(Stored, plans))[i] == Apply(Replayed, plans)[i] {
      assert plans[i] in plans;
    }
  }

  lemma ReplayedSheetIsSame(s: Snapshot, plans: seq<Plan>, untaxed: seq<OrderLine>)
    requires ValidPlans(plans) && RecordsCreation(s, plans, untaxed)
    ensures multiset(Sheet(TaxedPlans(s.lines, map[], s.currency))) == multiset(Sheet(plans))
  {
    var taxed := TaxedPlans(s.lines, map[], s.currency);
    SheetIsPermutation(taxed);
    ReplayedPlans(s, plans, untaxed);
    CellsPermute(taxed, Apply(Replayed, plans));
    ReplayedSheet(plans);
  }

  lemma PrefixDistinct(a: string, b: string)
    requires a != b
    ensures "rate:" + a != "rate:" + b
  {
    assert ("rate:" + a)[5..] == a && ("rate:" + b)[5..] == b;
  }

  lemma OrderedKeepsRates(taxes: seq<Tax>)
    requires DistinctRates(taxes)
    ensures DistinctRates(Ordered(taxes))
  {
    TaxLeIsPreorder();
    Sorting.SortByIsSorted(taxes, TaxLe);
    var f := (t: Tax) => Portion(t.rate.id, 0);
    ApplyPermutation(f, Ordered(taxes), taxes);
    MultisetDistinct(Apply(f, taxes), Apply(f, Ordered(taxes)));
    var s := Ordered(taxes);
    forall i, j | 0 <= i < j < |s| ensures s[i].rate.id != s[j].rate.id {
      assert Apply(f, s)[i].id != Apply(f, s)[j].id;
    }
  }

  lemma ReplayedPlanIsValid(plan: Plan)
    requires ValidPlan(plan) && DistinctRates(plan.taxes)
    ensures ValidPlan(Replayed(plan))
  {
    var taxes, replayed := Ordered(plan.taxes), Replayed(plan).taxes;
    TaxLeIsPreorder();
    Sorting.SortByIsSorted(plan.taxes, TaxLe);
    SameMembers(taxes, plan.taxes);
    OrderedKeepsRates(plan.taxes);
    ReplayedTaxes(plan);
    SyntheticDistinct(taxes, replayed);
    SyntheticFamilies(taxes, replayed);
    SyntheticMatch(replayed);
  }

  ghost predicate Synthetic(taxes: seq<Tax>, replayed: seq<Tax>) {
    && |replayed| == |taxes|
    && forall i :: 0 <= i < |taxes| ==>
                     && replayed[i].category == Category("rate:" + taxes[i].rate.id, taxes[i].category.family,
                                                         taxes[i].category.priority)
                     && replayed[i].rate.categoryId == replayed[i].category.id
  }

  lemma ReplayedTaxes(plan: Plan)
    ensures Synthetic(Ordered(plan.taxes), Replayed(plan).taxes)
  {
    var taxes, replayed := Ordered(plan.taxes), Replayed(plan).taxes;
    assert forall i :: 0 <= i < |taxes| ==> replayed[i] == ToApplicableTax(Stored(plan).taxPlan[i]);
  }

  lemma SyntheticDistinct(taxes: seq<Tax>, replayed: seq<Tax>)
    requires Synthetic(taxes, replayed) && DistinctRates(taxes)
    ensures DistinctCategories(replayed)
  {
    forall i, j | 0 <= i < j < |replayed| ensures replayed[i].category.id != replayed[j].category.id {
      PrefixDistinct(taxes[i].rate.id, taxes[j].rate.id);
    }
  }

  lemma SyntheticMatch(replayed: seq<Tax>)
    requires forall i :: 0 <= i < |replayed| ==> replayed[i].rate.categoryId == replayed[i].category.id
    ensures RatesMatch(replayed)
  {
  }

  lemma SyntheticFamilies(taxes: seq<Tax>, replayed: seq<Tax>)
    requires Synthetic(taxes, replayed) && ExciseBelowVat(taxes)
    ensures ExciseBelowVat(replayed)
  {
    forall e, v | e in replayed && v in replayed && e.category.family == Excise && v.category.family == Vat
      ensures e.category.priority < v.category.priority
    {
      var i :| 0 <= i < |replayed| && replayed[i] == e;
      var j :| 0 <= j < |replayed| && replayed[j] == v;
      assert taxes[i] in taxes && taxes[j] in taxes;
    }
  }

  lemma {:induction false} DistinctByCount(plans: seq<Plan>, others: seq<Plan>)
    requires multiset(plans) == multiset(others)
    requires forall i, j :: 0 <= i < j < |plans| ==> plans[i].lineId != plans[j].lineId
    ensures forall i, j :: 0 <= i < j < |others| ==> others[i].lineId != others[j].lineId
  {
    var f := (p: Plan) => Portion(p.lineId, 0);
    ApplyPermutation(f, plans, others);
    MultisetDistinct(Apply(f, plans), Apply(f, others));
    forall i, j | 0 <= i < j < |others| ensures others[i].lineId != others[j].lineId {
      assert Apply(f, others)[i].id != Apply(f, others)[j].id;
    }
  }

  lemma ReplayIsValid(s: Snapshot, plans: seq<Plan>, untaxed: seq<OrderLine>)
    requires ValidPlans(plans) && RecordsCreation(s, plans, untaxed)
    ensures ValidPlans(TaxedPlans(s.lines, map[], s.currency))
  {
    var taxed, replayed := TaxedPlans(s.lines, map[], s.currency), Apply(Replayed, plans);
    ReplayedPlans(s, plans, untaxed);
    SameMembers(taxed, replayed);
    forall p | p in replayed ensures ValidPlan(p) {
      var i :| 0 <= i < |replayed| && replayed[i] == p;
      assert plans[i] in plans;
      ReplayedPlanIsValid(plans[i]);
    }
    DistinctByCount(replayed, taxed);
  }

  lemma ReplayedFrom(plans: seq<Plan>, taxed: seq<Plan>, p: Plan) returns (q: Plan)
    requires multiset(taxed) == multiset(Apply(Replayed, plans)) && p in taxed
    ensures q in plans && q.lineId == p.lineId && q.amount == p.amount
  {
    assert p in multiset(taxed);
    var i := FindIn(p, Apply(Replayed, plans));
    q := plans[i];
  }

  lemma ReplayInRange(s: Snapshot, plans: seq<Plan>, untaxed: seq<OrderLine>, m: map<Cell, int>)
    requires ValidPlans(plans) && RecordsCreation(s, plans, untaxed) && InRange(plans, Sheet(plans), m)
    ensures InRange(TaxedPlans(s.lines, map[], s.currency), Sheet(TaxedPlans(s.lines, map[], s.currency)), m)
  {
    var taxed := TaxedPlans(s.lines, map[], s.currency);
    ReplayedPlans(s, plans, untaxed);
    ReplayedSheetIsSame(s, plans, untaxed);
    RangeCarriesOver(plans, taxed, m);
  }

  lemma RangeCarriesOver(plans: seq<Plan>, taxed: seq<Plan>, m: map<Cell, int>)
    requires multiset(taxed) == multiset(Apply(Replayed, plans)) && multiset(Sheet(taxed)) == multiset(Sheet(plans))
    requires InRange(plans, Sheet(plans), m)
    ensures InRange(taxed, Sheet(taxed), m)
  {
    SameMembers(Sheet(taxed), Sheet(plans));
    forall p, c | p in taxed && c in Sheet(taxed)
      ensures ValidTaxAmount(p.amount + ExclusiveBelow(Sheet(taxed), m, p.lineId, c.priority))
    {
      var q := ReplayedFrom(plans, taxed, p);
      SumByPermutation(Sheet(taxed), Sheet(plans), (d: Cell) => Cascading(m, p.lineId, c.priority, d));
    }
  }

  lemma {:induction false} PayableSplits(plans: seq<Plan>, all: seq<Plan>, strategy: Strategy, m: map<Cell, int>,
                                         result: map<string, seq<Row>>)
    requires IsResult(all, strategy, m, result)
    requires forall p :: p in plans ==> p in all
    ensures CreationPayable(plans, result)
            == SumBy(plans, (p: Plan) => p.amount) + ExclusiveTotal(Cells(OrderedPlans(plans)), m)
  {
    if plans != [] {
      PayableSplits(plans[1..], all, strategy, m, result);
      var line := OrderedPlan(plans[0]);
      var cells := Sheet(all);
      var rows := LineRows(line, cells, m);
      LineRowsTax(line, cells, m, |rows|);
      assert rows[..|rows|] == rows && LineCells(line)[..|rows|] == LineCells(line);
      assert OrderedPlans(plans)[1..] == OrderedPlans(plans[1..]);
      SumByAppend(LineCells(line), Cells(OrderedPlans(plans[1..])), (c: Cell) => ExclusivePart(m, c));
    }
  }

  lemma {:induction false} StoredAmounts(plans: seq<Plan>)
    ensures Subtotal(Apply(Stored, plans)) == SumBy(plans, (p: Plan) => p.amount)
  {
    if plans != [] {
      StoredAmounts(plans[1..]);
      assert Apply(Stored, plans)[1..] == Apply(Stored, plans[1..]);
    }
  }

  lemma RecordedSubtotal(s: Snapshot, plans: seq<Plan>, untaxed: seq<OrderLine>)
    requires RecordsCreation(s, plans, untaxed)
    ensures Subtotal(s.lines) == SumBy(plans, (p: Plan) => p.amount) + Subtotal(untaxed)
  {
    assert multiset(Apply(Stored, plans) + untaxed) == multiset(s.lines);
    SumByPermutation(s.lines, Apply(Stored, plans) + untaxed, (l: OrderLine) => l.amount);
    SumByAppend(Apply(Stored, plans), untaxed, (l: OrderLine) => l.amount);
    StoredAmounts(plans);
  }

  /** Replaying the snapshots finds the very cascade computed at creation. */
  lemma ReplayFindsCreation(s: Snapshot, plans: seq<Plan>, untaxed: seq<OrderLine>, strategy: Strategy,
                            m: map<Cell, int>, n: map<Cell, int>)
    requires ValidPlans(plans) && RecordsCreation(s, plans, untaxed)
    requires IsCascade(Sheet(plans), strategy, m)
    requires IsCascade(Sheet(TaxedPlans(s.lines, map[], s.currency)), strategy, n)
    ensures n == m
  {
    ReplayedSheetIsSame(s, plans, untaxed);
    CascadeUnique(Sheet(plans), Sheet(TaxedPlans(s.lines, map[], s.currency)), strategy, m, n);
  }

  /**
   * With no discount and no voided line, the totals of an order exist and are the amounts payable
   * that were fixed when the order was created.
   */
  lemma ReplayPreservesTotals(s: Snapshot, plans: seq<Plan>, untaxed: seq<OrderLine>, strategy: Strategy,
                              m: map<Cell, int>, result: map<string, seq<Row>>, t: Totals)
    requires StoredSnapshot(s) && s.discounts == [] && s.strategy == Some(strategy)
    requires ValidPlans(plans) && RecordsCreation(s, plans, untaxed) && IsResult(plans, strategy, m, result)
    ensures TotalsDefined(s)
    ensures IsTotals(s, t) ==> t.total == CreationPayable(plans, result) + Subtotal(untaxed)
  {
    var taxed := TaxedPlans(s.lines, map[], s.currency);
    NonNegativeSums(s);
    ReplayIsValid(s, plans, untaxed);
    ReplayInRange(s, plans, untaxed, m);
    ReplayedSheetIsSame(s, plans, untaxed);
    CascadePermutes(Sheet(plans), Sheet(taxed), strategy, m);
    assert LineDiscounts(s) == map[] && IsTaxBasis(s, m);
    RecordedSubtotal(s, plans, untaxed);
    PayableSplits(plans, plans, strategy, m, result);
    SumByPermutation(Sheet(taxed), Sheet(plans), (c: Cell) => ExclusivePart(m, c));
    if IsTotals(s, t) {
      if HasTaxPlans(s) {
        var n :| IsTaxBasis(s, n) && t.tax == ExclusiveTotal(Sheet(taxed), n);
        ReplayFindsCreation(s, plans, untaxed, strategy, m, n);
      } else if plans != [] {
        SomethingTaxed(s, plans, untaxed);
      }
    }
  }

  lemma SomethingTaxed(s: Snapshot, plans: seq<Plan>, untaxed: seq<OrderLine>)
    requires ValidPlans(plans) && RecordsCreation(s, plans, untaxed) && plans != []
    ensures HasTaxPlans(s)
  {
    assert plans[0] in plans;
    StoredHasTaxes(plans[0]);
    var l := Apply(Stored, plans)[0];
    assert l in multiset(Apply(Stored, plans));
    assert l in multiset(s.lines);
  }
}
