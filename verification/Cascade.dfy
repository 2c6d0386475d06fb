/** Cascading taxes: a sweep by priority over all order lines at once. */
module Cascade {
  import opened Outcome
  import opened TextOrder
  import opened Sums
  import opened Sorting
  import opened Rounding
  import opened Allocation
  import opened TaxMath

  datatype Family = Vat | Excise
  datatype Category = Category(id: string, family: Family, priority: int)
  datatype Rate = Rate(id: string, categoryId: string, bps: int, inclusive: bool)
  datatype Tax = Tax(category: Category, rate: Rate)
  datatype Plan = Plan(lineId: string, amount: int, currency: string, taxes: seq<Tax>)
  datatype Strategy = PerLine | InvoiceTotal

  datatype Row = Row(rateId: string, family: Family, sequence: nat, bps: int, inclusive: bool, taxable: int, tax: int)

  /** One tax on one line, as far as its amount is concerned. */
  datatype Cell = Cell(lineId: string, lineAmount: int, currency: string, priority: int, rateId: string, bps: int,
                       inclusive: bool)

  const MAX_TAXES_PER_LINE := 32_767

  // The mandatory order: priority, then category identifier

  predicate TaxLe(a: Tax, b: Tax) {
    a.category.priority < b.category.priority
    || (a.category.priority == b.category.priority && !Less(b.category.id, a.category.id))
  }

  lemma TaxLeIsPreorder()
    ensures Preorder(TaxLe)
  {
    forall a: Tax, b: Tax ensures TaxLe(a, b) || TaxLe(b, a) {
      if Less(b.category.id, a.category.id) {
        LessAsymmetric(b.category.id, a.category.id);
      }
    }
    forall a: Tax, b: Tax, c: Tax | TaxLe(a, b) && TaxLe(b, c) ensures TaxLe(a, c) {
      if Less(c.category.id, a.category.id) {
        LessConnected(a.category.id, b.category.id);
        if Less(a.category.id, b.category.id) {
          LessTransitive(c.category.id, a.category.id, b.category.id);
        }
      }
    }
  }

  function Ordered(taxes: seq<Tax>): seq<Tax> {
    SortBy(taxes, TaxLe)
  }

  predicate DistinctCategories(taxes: seq<Tax>) {
    forall i, j :: 0 <= i < j < |taxes| ==> taxes[i].category.id != taxes[j].category.id
  }

  predicate ExciseBelowVat(taxes: seq<Tax>) {
    forall e, v :: e in taxes && v in taxes && e.category.family == Excise && v.category.family == Vat ==>
      e.category.priority < v.category.priority
  }

  predicate RatesMatch(taxes: seq<Tax>) {
    forall t :: t in taxes ==> t.rate.categoryId == t.category.id
  }

  predicate ValidPlan(plan: Plan) {
    && ValidTaxAmount(plan.amount)
    && 0 < |plan.taxes| <= MAX_TAXES_PER_LINE
    && DistinctCategories(plan.taxes)
    && ExciseBelowVat(plan.taxes)
    && RatesMatch(plan.taxes)
  }

  ghost predicate ValidPlans(plans: seq<Plan>) {
    && (forall p :: p in plans ==> ValidPlan(p))
    && (forall i, j :: 0 <= i < j < |plans| ==> plans[i].lineId != plans[j].lineId)
  }

  /** What the engine demands of a batch: amounts and counts in range, one tax per category, excise before VAT. */
  lemma ValidPlansExactlyWhen(plans: seq<Plan>)
    ensures ValidPlans(plans) <==>
            && (forall i, j :: 0 <= i < j < |plans| ==> plans[i].lineId != plans[j].lineId)
            && (forall p :: p in plans ==>
                  && 0 <= p.amount <= 9_223_372_036_854_775_807 && 0 < |p.taxes| <= 32_767
                  && (forall t :: t in p.taxes ==> t.rate.categoryId == t.category.id)
                  && (forall i, j :: 0 <= i < j < |p.taxes| ==> p.taxes[i].category.id != p.taxes[j].category.id)
                  && (forall e, v :: e in p.taxes && v in p.taxes && e.category.family.Excise? && v.category.family.Vat?
                        ==> e.category.priority < v.category.priority))
  {
  }

  // Cells

  function CellOf(plan: Plan, tax: Tax): Cell {
    Cell(plan.lineId, plan.amount, plan.currency, tax.category.priority, tax.rate.id, tax.rate.bps, tax.rate.inclusive)
  }

  function LineCells(plan: Plan): seq<Cell> {
    Apply((t: Tax) => CellOf(plan, t), plan.taxes)
  }

  function Cells(plans: seq<Plan>): seq<Cell> {
    if plans == [] then [] else LineCells(plans[0]) + Cells(plans[1..])
  }

  /** The amount recorded for a cell, zero while there is none. */
  function Amount(m: map<Cell, int>, c: Cell): int {
    if c in m then m[c] else 0
  }

  function Cascading(m: map<Cell, int>, lineId: string, priority: int, c: Cell): int {
    if c.lineId == lineId && c.priority < priority && !c.inclusive then Amount(m, c) else 0
  }

  /** Exclusive tax of a line from strictly lower priorities. */
  function ExclusiveBelow(cells: seq<Cell>, m: map<Cell, int>, lineId: string, priority: int): int {
    SumBy(cells, (c: Cell) => Cascading(m, lineId, priority, c))
  }

  function Base(cells: seq<Cell>, m: map<Cell, int>, c: Cell): int {
    c.lineAmount + ExclusiveBelow(cells, m, c.lineId, c.priority)
  }

  /** Cells rounded together: same priority, rate, inclusiveness and currency. */
  predicate SameGroup(c: Cell, d: Cell) {
    c.priority == d.priority && c.rateId == d.rateId && c.bps == d.bps && c.inclusive == d.inclusive
      && c.currency == d.currency
  }

  function Group(cells: seq<Cell>, c: Cell): seq<Cell> {
    Select((d: Cell) => SameGroup(c, d), cells)
  }

  function GroupShares(cells: seq<Cell>, m: map<Cell, int>, c: Cell): seq<TaxShare> {
    Apply((d: Cell) => TaxShare(d.lineId, Base(cells, m, d)), Group(cells, c))
  }

  /** `amount` is the tax on the base of a cell: computed on its own, or its share of its group. */
  ghost predicate CellTaxed(cells: seq<Cell>, strategy: Strategy, m: map<Cell, int>, c: Cell, amount: int) {
    && ValidTaxAmount(Base(cells, m, c))
    && ValidTaxRate(c.bps)
    && match strategy
       case PerLine => CalculateTaxAmount(Base(cells, m, c), c.bps, c.inclusive).value.taxAmountMinor == amount
       case InvoiceTotal =>
         && ValidShares(GroupShares(cells, m, c))
         && exists r :: (&& IsInvoiceAllocation(GroupShares(cells, m, c), c.bps, c.inclusive, r)
                         && Share(r, c.lineId) == amount)
  }

  ghost predicate CellHolds(cells: seq<Cell>, strategy: Strategy, m: map<Cell, int>, c: Cell) {
    CellTaxed(cells, strategy, m, c, Amount(m, c))
  }

  ghost predicate CascadeBelow(cells: seq<Cell>, strategy: Strategy, m: map<Cell, int>, priority: int) {
    forall c {:trigger CellHolds(cells, strategy, m, c)} :: c in cells && c.priority < priority ==>
      CellHolds(cells, strategy, m, c)
  }

  /** The whole definition: every cell holds, and only cells have amounts. */
  ghost predicate IsCascade(cells: seq<Cell>, strategy: Strategy, m: map<Cell, int>) {
    && (forall c {:trigger CellHolds(cells, strategy, m, c)} :: c in cells ==> CellHolds(cells, strategy, m, c))
    && m.Keys == set c | c in cells
  }

  // The definition has at most one solution

  ghost predicate AgreeBelow(cells: seq<Cell>, m: map<Cell, int>, n: map<Cell, int>, priority: int) {
    forall c :: c in cells && c.priority < priority ==> Amount(m, c) == Amount(n, c)
  }

  lemma BaseAgrees(cells: seq<Cell>, m: map<Cell, int>, n: map<Cell, int>, c: Cell)
    requires AgreeBelow(cells, m, n, c.priority)
    ensures Base(cells, m, c) == Base(cells, n, c)
  {
    SumByEqual(cells, (d: Cell) => Cascading(m, c.lineId, c.priority, d),
               (d: Cell) => Cascading(n, c.lineId, c.priority, d));
  }

  lemma GroupMembers(cells: seq<Cell>, c: Cell)
    ensures forall d :: d in Group(cells, c) <==> d in cells && SameGroup(c, d)
  {
    SelectMembers((d: Cell) => SameGroup(c, d), cells);
  }

  lemma GroupSharesAgree(cells: seq<Cell>, m: map<Cell, int>, n: map<Cell, int>, c: Cell)
    requires AgreeBelow(cells, m, n, c.priority)
    ensures GroupShares(cells, m, c) == GroupShares(cells, n, c)
  {
    GroupMembers(cells, c);
    forall i | 0 <= i < |Group(cells, c)| ensures GroupShares(cells, m, c)[i] == GroupShares(cells, n, c)[i] {
      assert Group(cells, c)[i] in Group(cells, c);
      BaseAgrees(cells, m, n, Group(cells, c)[i]);
    }
  }

  lemma CellTaxedAgrees(cells: seq<Cell>, strategy: Strategy, m: map<Cell, int>, n: map<Cell, int>, c: Cell,
                        amount: int)
    requires AgreeBelow(cells, m, n, c.priority) && CellTaxed(cells, strategy, m, c, amount)
    ensures CellTaxed(cells, strategy, n, c, amount)
  {
    BaseAgrees(cells, m, n, c);
    GroupSharesAgree(cells, m, n, c);
  }

  lemma CellTaxedUnique(cells: seq<Cell>, strategy: Strategy, m: map<Cell, int>, c: Cell, x: int, y: int)
    requires CellTaxed(cells, strategy, m, c, x) && CellTaxed(cells, strategy, m, c, y)
    ensures x == y
  {
    if strategy.InvoiceTotal? {
      var shares := GroupShares(cells, m, c);
      var r :| IsInvoiceAllocation(shares, c.bps, c.inclusive, r) && Share(r, c.lineId) == x;
      var s :| IsInvoiceAllocation(shares, c.bps, c.inclusive, s) && Share(s, c.lineId) == y;
      InvoiceAllocationOrder(shares, shares, c.bps, c.inclusive, r, s);
    }
  }

  lemma {:induction false} CascadesAgree(cells: seq<Cell>, strategy: Strategy, m: map<Cell, int>, n: map<Cell, int>,
                                         low: int, priority: int)
    requires forall c :: c in cells ==> low <= c.priority
    requires CascadeBelow(cells, strategy, m, priority) && CascadeBelow(cells, strategy, n, priority)
    ensures AgreeBelow(cells, m, n, priority)
    decreases priority - low
  {
    if priority > low {
      CascadesAgree(cells, strategy, m, n, low, priority - 1);
      forall c | c in cells && c.priority == priority - 1 ensures Amount(m, c) == Amount(n, c) {
        assert CellHolds(cells, strategy, m, c) && CellHolds(cells, strategy, n, c);
        CellTaxedAgrees(cells, strategy, n, m, c, Amount(n, c));
        CellTaxedUnique(cells, strategy, m, c, Amount(m, c), Amount(n, c));
      }
    }
  }

  lemma {:induction false} PriorityRange(cells: seq<Cell>) returns (low: int, high: int)
    ensures forall c :: c in cells ==> low <= c.priority < high
  {
    if cells == [] {
      low, high := 0, 0;
    } else {
      low, high := PriorityRange(cells[1..]);
      if cells[0].priority < low { low := cells[0].priority; }
      if cells[0].priority >= high { high := cells[0].priority + 1; }
    }
  }

  /** The cascade is determined by its cells, whatever their order. */
  lemma CascadeUnique(cells: seq<Cell>, others: seq<Cell>, strategy: Strategy, m: map<Cell, int>, n: map<Cell, int>)
    requires multiset(cells) == multiset(others)
    requires IsCascade(cells, strategy, m) && IsCascade(others, strategy, n)
    ensures m == n
  {
    CascadePermutes(others, cells, strategy, n);
    var low, high := PriorityRange(cells);
    CascadesAgree(cells, strategy, m, n, low, high);
    forall c | c in m ensures m[c] == n[c] {
      assert c in cells;
    }
  }

  lemma BasePermutes(cells: seq<Cell>, others: seq<Cell>, m: map<Cell, int>, c: Cell)
    requires multiset(cells) == multiset(others)
    ensures Base(cells, m, c) == Base(others, m, c)
  {
    SumByPermutation(cells, others, (d: Cell) => Cascading(m, c.lineId, c.priority, d));
  }

  lemma GroupSharesPermute(cells: seq<Cell>, others: seq<Cell>, m: map<Cell, int>, c: Cell)
    requires multiset(cells) == multiset(others)
    ensures multiset(GroupShares(cells, m, c)) == multiset(GroupShares(others, m, c))
  {
    SelectPermutation((d: Cell) => SameGroup(c, d), cells, others);
    var f := (d: Cell) => TaxShare(d.lineId, Base(cells, m, d));
    ApplyPermutation(f, Group(cells, c), Group(others, c));
    forall i | 0 <= i < |Group(others, c)| ensures Apply(f, Group(others, c))[i] == GroupShares(others, m, c)[i] {
      BasePermutes(cells, others, m, Group(others, c)[i]);
    }
    assert Apply(f, Group(others, c)) == GroupShares(others, m, c);
  }

  lemma CellPermutes(cells: seq<Cell>, others: seq<Cell>, strategy: Strategy, m: map<Cell, int>, c: Cell)
    requires multiset(cells) == multiset(others) && CellHolds(cells, strategy, m, c)
    ensures CellHolds(others, strategy, m, c)
  {
    BasePermutes(cells, others, m, c);
    if strategy.InvoiceTotal? {
      GroupSharesPermute(cells, others, m, c);
      var shares, shares' := GroupShares(cells, m, c), GroupShares(others, m, c);
      var r :| IsInvoiceAllocation(shares, c.bps, c.inclusive, r) && Share(r, c.lineId) == Amount(m, c);
      InvoiceAllocationPermutes(shares, shares', c.bps, c.inclusive, r);
      ValidSharesPermute(shares, shares');
    }
  }

  lemma CascadePermutes(cells: seq<Cell>, others: seq<Cell>, strategy: Strategy, m: map<Cell, int>)
    requires multiset(cells) == multiset(others) && IsCascade(cells, strategy, m)
    ensures IsCascade(others, strategy, m)
  {
    SameMembers(cells, others);
    forall c | c in others ensures CellHolds(others, strategy, m, c) {
      CellPermutes(cells, others, strategy, m, c);
    }
  }

  // The sweep

  datatype GroupKey = GroupKey(rateId: string, bps: int, inclusive: bool, currency: string)

  function KeyOf(c: Cell): GroupKey {
    GroupKey(c.rateId, c.bps, c.inclusive, c.currency)
  }

  /** The running exclusive total of each line. */
  function BaseFrom(lower: map<string, int>, c: Cell): int {
    c.lineAmount + Share(lower, c.lineId)
  }

  ghost predicate LowerTotals(cells: seq<Cell>, m: map<Cell, int>, priority: int, lower: map<string, int>) {
    forall c :: c in cells ==> Share(lower, c.lineId) == ExclusiveBelow(cells, m, c.lineId, priority)
  }

  lemma GroupSnoc(cells: seq<Cell>, c: Cell, d: Cell)
    ensures Group(cells + [d], c) == Group(cells, c) + (if SameGroup(c, d) then [d] else [])
  {
    SelectAppend((e: Cell) => SameGroup(c, e), cells, [d]);
    assert [d][1..] == [];
  }

  /** The groups met so far at one priority, in order of first appearance. */
  ghost predicate Grouped(cells: seq<Cell>, priority: int, keys: seq<GroupKey>, groups: map<GroupKey, seq<Cell>>) {
    && groups.Keys == (set k | k in keys)
    && (forall c :: c in cells && c.priority == priority ==> KeyOf(c) in groups)
    && (forall k :: k in groups ==> groups[k] != [] && forall c: Cell :: c.priority == priority && KeyOf(c) == k ==>
        groups[k] == Group(cells, c))
  }

  lemma GroupOneMore(cells: seq<Cell>, priority: int, keys: seq<GroupKey>, groups: map<GroupKey, seq<Cell>>, d: Cell)
    requires Grouped(cells, priority, keys, groups)
    ensures d.priority != priority ==> Grouped(cells + [d], priority, keys, groups)
    ensures d.priority == priority && KeyOf(d) in groups ==>
              Grouped(cells + [d], priority, keys, groups[KeyOf(d) := groups[KeyOf(d)] + [d]])
    ensures d.priority == priority && KeyOf(d) !in groups ==>
              Grouped(cells + [d], priority, keys + [KeyOf(d)], groups[KeyOf(d) := [d]])
  {
    forall c: Cell ensures Group(cells + [d], c) == Group(cells, c) + (if SameGroup(c, d) then [d] else []) {
      GroupSnoc(cells, c, d);
    }
    if d.priority == priority && KeyOf(d) !in groups {
      forall c: Cell | c.priority == priority && KeyOf(c) == KeyOf(d) ensures Group(cells, c) == [] {
        SelectNone((e: Cell) => SameGroup(c, e), cells);
      }
    }
  }

  method GroupAtPriority(cells: seq<Cell>, priority: int)
    returns (keys: seq<GroupKey>, groups: map<GroupKey, seq<Cell>>)
    ensures Grouped(cells, priority, keys, groups)
  {
    keys, groups := [], map[];
    for j := 0 to |cells|
      invariant Grouped(cells[..j], priority, keys, groups)
    {
      var d := cells[j];
      GroupOneMore(cells[..j], priority, keys, groups, d);
      PrefixSnoc(cells, j);
      if d.priority == priority {
        if KeyOf(d) in groups {
          groups := groups[KeyOf(d) := groups[KeyOf(d)] + [d]];
        } else {
          keys := keys + [KeyOf(d)];
          groups := groups[KeyOf(d) := [d]];
        }
      }
    }
    assert cells[..|cells|] == cells;
  }

  function SharesFrom(lower: map<string, int>, group: seq<Cell>): seq<TaxShare> {
    Apply((d: Cell) => TaxShare(d.lineId, BaseFrom(lower, d)), group)
  }

  /** `amounts` taxes every member of the group on its own base. */
  ghost predicate TaxedEach(group: seq<Cell>, lower: map<string, int>, amounts: map<Cell, int>) {
    && amounts.Keys == (set c | c in group)
    && forall c :: c in group ==> LineTax(lower, c) == Ok(amounts[c])
  }

  function LineTax(lower: map<string, int>, c: Cell): Result<int> {
    match CalculateTaxAmount(BaseFrom(lower, c), c.bps, c.inclusive)
    case Ok(computed) => Ok(computed.taxAmountMinor)
    case Err(e) => Err(e)
  }

  lemma TaxOneMore(group: seq<Cell>, lower: map<string, int>, amounts: map<Cell, int>, c: Cell, tax: int)
    requires TaxedEach(group, lower, amounts) && LineTax(lower, c) == Ok(tax)
    ensures TaxedEach(group + [c], lower, amounts[c := tax])
  {
  }

  /** Each member on its own; fails exactly when the rate or a base is invalid. */
  method TaxEachLine(group: seq<Cell>, lower: map<string, int>) returns (r: Result<map<Cell, int>>)
    ensures r.Ok? <==> forall c :: c in group ==> LineTax(lower, c).Ok?
    ensures r.Ok? ==> TaxedEach(group, lower, r.value)
  {
    var amounts: map<Cell, int> := map[];
    for j := 0 to |group|
      invariant TaxedEach(group[..j], lower, amounts)
    {
      var tax := LineTax(lower, group[j]);
      if tax.Err? {
        assert group[j] in group;
        return Err(tax.error);
      }
      TaxOneMore(group[..j], lower, amounts, group[j], tax.value);
      PrefixSnoc(group, j);
      amounts := amounts[group[j] := tax.value];
    }
    assert group[..|group|] == group;
    return Ok(amounts);
  }

  ghost predicate Copied(group: seq<Cell>, allocation: map<string, int>, amounts: map<Cell, int>) {
    && amounts.Keys == (set c | c in group)
    && forall c :: c in group ==> amounts[c] == Share(allocation, c.lineId)
  }

  /** Each member gets the share of its line. */
  method TakeShares(group: seq<Cell>, allocation: map<string, int>) returns (amounts: map<Cell, int>)
    ensures Copied(group, allocation, amounts)
  {
    amounts := map[];
    for j := 0 to |group|
      invariant Copied(group[..j], allocation, amounts)
    {
      PrefixSnoc(group, j);
      amounts := amounts[group[j] := Share(allocation, group[j].lineId)];
    }
    assert group[..|group|] == group;
  }

  lemma SharesValidBases(group: seq<Cell>, lower: map<string, int>)
    requires ValidShares(SharesFrom(lower, group))
    ensures forall c :: c in group ==> ValidTaxAmount(BaseFrom(lower, c))
  {
    forall c | c in group ensures ValidTaxAmount(BaseFrom(lower, c)) {
      var i :| 0 <= i < |group| && group[i] == c;
      assert SharesFrom(lower, group)[i] in SharesFrom(lower, group);
    }
  }

  /** The tax of every member of one group; fails exactly when the rate, a base or the line list is invalid. */
  method TaxGroup(group: seq<Cell>, strategy: Strategy, lower: map<string, int>) returns (r: Result<map<Cell, int>>)
    requires group != []
    requires forall c :: c in group ==> c.bps == group[0].bps && c.inclusive == group[0].inclusive
    ensures r.Ok? <==>
              && ValidTaxRate(group[0].bps)
              && (forall c :: c in group ==> ValidTaxAmount(BaseFrom(lower, c)))
              && (strategy.InvoiceTotal? ==> ValidShares(SharesFrom(lower, group)))
    ensures r.Ok? ==> r.value.Keys == set c | c in group
    ensures r.Ok? && strategy.PerLine? ==> forall c :: c in group ==> LineTax(lower, c) == Ok(r.value[c])
    ensures r.Ok? && strategy.InvoiceTotal? ==>
              exists s :: IsInvoiceAllocation(SharesFrom(lower, group), group[0].bps, group[0].inclusive, s)
                          && forall c :: c in group ==> Share(s, c.lineId) == r.value[c]
  {
    assert group[0] in group;
    if strategy.PerLine? {
      r := TaxEachLine(group, lower);
    } else {
      var allocation := AllocateInvoiceTax(SharesFrom(lower, group), group[0].bps, group[0].inclusive);
      if allocation.Err? {
        return Err(allocation.error);
      }
      SharesValidBases(group, lower);
      var amounts := TakeShares(group, allocation.value);
      return Ok(amounts);
    }
  }

  // One priority: what must hold before and after, and why a failure means that no cascade exists

  ghost predicate SweptBelow(cells: seq<Cell>, strategy: Strategy, m: map<Cell, int>, priority: int) {
    && CascadeBelow(cells, strategy, m, priority)
    && m.Keys == set c | c in cells && c.priority < priority
  }

  ghost predicate GroupsDone(cells: seq<Cell>, strategy: Strategy, m: map<Cell, int>, priority: int,
                             done: seq<GroupKey>, n: map<Cell, int>) {
    && n.Keys == m.Keys + (set c | c in cells && c.priority == priority && KeyOf(c) in done)
    && (forall c :: c in m ==> n[c] == m[c])
    && (forall c :: c in cells && c.priority == priority && KeyOf(c) in done ==> CellTaxed(cells, strategy, m, c, n[c]))
  }

  lemma BaseFromIsBase(cells: seq<Cell>, m: map<Cell, int>, priority: int, lower: map<string, int>, c: Cell)
    requires LowerTotals(cells, m, priority, lower) && c in cells && c.priority == priority
    ensures BaseFrom(lower, c) == Base(cells, m, c)
    ensures SharesFrom(lower, Group(cells, c)) == GroupShares(cells, m, c)
  {
    GroupMembers(cells, c);
    SharesFromAgree(cells, m, lower, Group(cells, c));
  }

  lemma SharesFromAgree(cells: seq<Cell>, m: map<Cell, int>, lower: map<string, int>, group: seq<Cell>)
    requires forall d :: d in group ==> BaseFrom(lower, d) == Base(cells, m, d)
    ensures SharesFrom(lower, group) == Apply((d: Cell) => TaxShare(d.lineId, Base(cells, m, d)), group)
  {
  }

  lemma GroupIsTaxed(cells: seq<Cell>, strategy: Strategy, m: map<Cell, int>, priority: int, lower: map<string, int>,
                     group: seq<Cell>, amounts: map<Cell, int>, c: Cell)
    requires LowerTotals(cells, m, priority, lower)
    requires c in cells && c.priority == priority && group == Group(cells, c) && group != []
    requires ValidTaxRate(group[0].bps) && ValidTaxAmount(BaseFrom(lower, c))
    requires amounts.Keys == set d | d in group
    requires strategy.PerLine? ==> LineTax(lower, c) == Ok(Amount(amounts, c))
    requires strategy.InvoiceTotal? ==>
               ValidShares(SharesFrom(lower, group)) &&
               exists s :: IsInvoiceAllocation(SharesFrom(lower, group), group[0].bps, group[0].inclusive, s)
                           && forall d :: d in group ==> Share(s, d.lineId) == amounts[d]
    ensures c in amounts && CellTaxed(cells, strategy, m, c, amounts[c])
  {
    BaseFromIsBase(cells, m, priority, lower, c);
    GroupMembers(cells, c);
    assert group[0] in group;
  }

  lemma GroupCannotFail(cells: seq<Cell>, strategy: Strategy, m: map<Cell, int>, priority: int, lower: map<string, int>,
                        c: Cell, n: map<Cell, int>)
    requires LowerTotals(cells, m, priority, lower) && SweptBelow(cells, strategy, m, priority)
    requires c in cells && c.priority == priority
    requires IsCascade(cells, strategy, n)
    ensures ValidTaxRate(c.bps)
    ensures forall d :: d in Group(cells, c) ==> ValidTaxAmount(BaseFrom(lower, d))
    ensures strategy.InvoiceTotal? ==> ValidShares(SharesFrom(lower, Group(cells, c)))
  {
    var low, high := PriorityRange(cells);
    CascadesAgree(cells, strategy, m, n, low, priority);
    GroupMembers(cells, c);
    assert CellHolds(cells, strategy, n, c);
    CellTaxedAgrees(cells, strategy, n, m, c, Amount(n, c));
    BaseFromIsBase(cells, m, priority, lower, c);
    forall d | d in Group(cells, c) ensures ValidTaxAmount(BaseFrom(lower, d)) {
      assert CellHolds(cells, strategy, n, d);
      CellTaxedAgrees(cells, strategy, n, m, d, Amount(n, d));
      BaseFromIsBase(cells, m, priority, lower, d);
    }
  }

  lemma GroupAdded(cells: seq<Cell>, strategy: Strategy, m: map<Cell, int>, priority: int, done: seq<GroupKey>,
                   n: map<Cell, int>, key: GroupKey, c: Cell, amounts: map<Cell, int>)
    requires SweptBelow(cells, strategy, m, priority) && GroupsDone(cells, strategy, m, priority, done, n)
    requires c.priority == priority && KeyOf(c) == key
    requires amounts.Keys == set d | d in Group(cells, c)
    requires forall d :: d in amounts ==> CellTaxed(cells, strategy, m, d, amounts[d])
    ensures GroupsDone(cells, strategy, m, priority, done + [key], n + amounts)
  {
    GroupAddedKeys(cells, priority, done, m.Keys, n.Keys, key, c, amounts.Keys);
    HoldsAdded(cells, priority, done, n, key, amounts, (d: Cell, x: int) => CellTaxed(cells, strategy, m, d, x));
    KeepsLower(cells, priority, m, n, c, amounts);
  }

  lemma HoldsAdded(cells: seq<Cell>, priority: int, done: seq<GroupKey>, n: map<Cell, int>, key: GroupKey,
                   amounts: map<Cell, int>, holds: (Cell, int) -> bool)
    requires forall d :: d in amounts ==> holds(d, amounts[d])
    requires forall d :: d in cells && d.priority == priority && KeyOf(d) in done ==> d in n && holds(d, n[d])
    requires forall d :: d in cells && d.priority == priority && KeyOf(d) == key ==> d in amounts
    ensures forall d :: d in cells && d.priority == priority && KeyOf(d) in done + [key] ==>
              d in n + amounts && holds(d, (n + amounts)[d])
  {
  }

  lemma KeepsLower(cells: seq<Cell>, priority: int, m: map<Cell, int>, n: map<Cell, int>, c: Cell,
                   amounts: map<Cell, int>)
    requires forall d :: d in m ==> d.priority < priority && d in n && n[d] == m[d]
    requires c.priority == priority && amounts.Keys == set d | d in Group(cells, c)
    ensures forall d :: d in m ==> (n + amounts)[d] == m[d]
  {
    GroupMembers(cells, c);
  }

  lemma GroupAddedKeys(cells: seq<Cell>, priority: int, done: seq<GroupKey>, m: set<Cell>, n: set<Cell>, key: GroupKey,
                       c: Cell, group: set<Cell>)
    requires c.priority == priority && KeyOf(c) == key
    requires n == m + (set d | d in cells && d.priority == priority && KeyOf(d) in done)
    requires group == set d | d in Group(cells, c)
    ensures n + group == m + (set d | d in cells && d.priority == priority && KeyOf(d) in done + [key])
    ensures forall d :: d in cells && d.priority == priority && KeyOf(d) == key ==> d in group
  {
    GroupMembers(cells, c);
    forall d
      ensures d in n + group <==> d in m + (set d | d in cells && d.priority == priority && KeyOf(d) in done + [key])
    {
      assert d in cells && d.priority == priority ==> (KeyOf(d) == key <==> SameGroup(c, d));
    }
  }

  /** After all groups of a priority, the cascade holds one priority further. */
  lemma PrioritySwept(cells: seq<Cell>, strategy: Strategy, m: map<Cell, int>, priority: int, keys: seq<GroupKey>,
                      n: map<Cell, int>)
    requires SweptBelow(cells, strategy, m, priority) && GroupsDone(cells, strategy, m, priority, keys, n)
    requires forall c :: c in cells && c.priority == priority ==> KeyOf(c) in keys
    ensures SweptBelow(cells, strategy, n, priority + 1)
    ensures forall c :: c in m ==> c in n && n[c] == m[c]
  {
    forall c | c in cells && c.priority < priority + 1 ensures CellHolds(cells, strategy, n, c) {
      SweptCell(cells, strategy, m, priority, keys, n, c);
    }
    SweptKeys(cells, priority, keys, m.Keys, n.Keys);
  }

  lemma SweptCell(cells: seq<Cell>, strategy: Strategy, m: map<Cell, int>, priority: int, keys: seq<GroupKey>,
                  n: map<Cell, int>, c: Cell)
    requires SweptBelow(cells, strategy, m, priority) && GroupsDone(cells, strategy, m, priority, keys, n)
    requires c in cells && (c.priority < priority || (c.priority == priority && KeyOf(c) in keys))
    ensures CellHolds(cells, strategy, n, c)
  {
    assert AgreeBelow(cells, m, n, c.priority);
    if c.priority < priority {
      assert CellHolds(cells, strategy, m, c);
    }
    CellTaxedAgrees(cells, strategy, m, n, c, Amount(n, c));
  }

  lemma SweptKeys(cells: seq<Cell>, priority: int, keys: seq<GroupKey>, m: set<Cell>, n: set<Cell>)
    requires m == set c | c in cells && c.priority < priority
    requires n == m + (set c | c in cells && c.priority == priority && KeyOf(c) in keys)
    requires forall c :: c in cells && c.priority == priority ==> KeyOf(c) in keys
    ensures n == set c | c in cells && c.priority < priority + 1
  {
  }

  method SweepPriority(cells: seq<Cell>, strategy: Strategy, m: map<Cell, int>, lower: map<string, int>, priority: int)
    returns (r: Result<map<Cell, int>>)
    requires SweptBelow(cells, strategy, m, priority) && LowerTotals(cells, m, priority, lower)
    ensures r.Ok? ==> SweptBelow(cells, strategy, r.value, priority + 1)
    ensures r.Ok? ==> forall c :: c in m ==> c in r.value && r.value[c] == m[c]
    ensures r.Err? ==> forall n :: !IsCascade(cells, strategy, n)
  {
    var keys, groups := GroupAtPriority(cells, priority);
    var n := m;
    for g := 0 to |keys|
      invariant GroupsDone(cells, strategy, m, priority, keys[..g], n)
    {
      var group := groups[keys[g]];
      ghost var c := SomeMember(cells, priority, keys, groups, keys[g]);
      var taxed := TaxGroup(group, strategy, lower);
      if taxed.Err? {
        forall n ensures !IsCascade(cells, strategy, n) {
          if IsCascade(cells, strategy, n) {
            GroupCannotFail(cells, strategy, m, priority, lower, c, n);
          }
        }
        return Err(taxed.error);
      }
      forall d | d in taxed.value ensures CellTaxed(cells, strategy, m, d, taxed.value[d]) {
        SameGroupSame(cells, c, d);
        GroupIsTaxed(cells, strategy, m, priority, lower, group, taxed.value, d);
      }
      GroupAdded(cells, strategy, m, priority, keys[..g], n, keys[g], c, taxed.value);
      PrefixSnoc(keys, g);
      n := n + taxed.value;
    }
    assert keys[..|keys|] == keys;
    PrioritySwept(cells, strategy, m, priority, keys, n);
    return Ok(n);
  }

  lemma SomeMember(cells: seq<Cell>, priority: int, keys: seq<GroupKey>, groups: map<GroupKey, seq<Cell>>,
                   key: GroupKey) returns (c: Cell)
    requires Grouped(cells, priority, keys, groups) && key in groups
    ensures c in cells && c.priority == priority && KeyOf(c) == key
    ensures groups[key] == Group(cells, c) && c == groups[key][0]
    ensures forall d :: d in groups[key] ==> SameGroup(c, d)
  {
    var seed := Cell("", 0, key.currency, priority, key.rateId, key.bps, key.inclusive);
    assert KeyOf(seed) == key;
    GroupMembers(cells, seed);
    c := groups[key][0];
    GroupMembers(cells, c);
  }

  lemma SameGroupSame(cells: seq<Cell>, c: Cell, d: Cell)
    requires d in Group(cells, c)
    ensures Group(cells, d) == Group(cells, c) && d in cells && SameGroup(c, d)
  {
    GroupMembers(cells, c);
    SelectEqual((e: Cell) => SameGroup(d, e), (e: Cell) => SameGroup(c, e), cells);
  }

  // The whole computation

  function OrderedPlan(plan: Plan): Plan {
    plan.(taxes := Ordered(plan.taxes))
  }

  function OrderedPlans(plans: seq<Plan>): seq<Plan> {
    Apply(OrderedPlan, plans)
  }

  /** The cells in the order of the sweep. */
  function Sheet(plans: seq<Plan>): seq<Cell> {
    Cells(OrderedPlans(plans))
  }

  /** The bases that the sweep checks: every line at every priority. */
  ghost predicate InRange(plans: seq<Plan>, cells: seq<Cell>, m: map<Cell, int>) {
    forall plan, c :: plan in plans && c in cells ==>
      ValidTaxAmount(plan.amount + ExclusiveBelow(cells, m, plan.lineId, c.priority))
  }

  function RowAt(plan: Plan, k: nat, cells: seq<Cell>, m: map<Cell, int>): Row
    requires k < |plan.taxes|
  {
    var t := plan.taxes[k];
    var c := CellOf(plan, t);
    var tax := Amount(m, c);
    Row(t.rate.id, t.category.family, k + 1, t.rate.bps, t.rate.inclusive,
        if t.rate.inclusive then Base(cells, m, c) - tax else Base(cells, m, c), tax)
  }

  function LineRows(plan: Plan, cells: seq<Cell>, m: map<Cell, int>): seq<Row> {
    seq(|plan.taxes|, k requires 0 <= k < |plan.taxes| => RowAt(plan, k, cells, m))
  }

  /** The rows of every line are those of the cascade `m`. */
  ghost predicate IsResult(plans: seq<Plan>, strategy: Strategy, m: map<Cell, int>, result: map<string, seq<Row>>) {
    && IsCascade(Sheet(plans), strategy, m)
    && InRange(plans, Sheet(plans), m)
    && result.Keys == (set p | p in plans :: p.lineId)
    && (forall p :: p in plans ==> p.lineId in result && result[p.lineId] == LineRows(OrderedPlan(p), Sheet(plans), m))
  }

  method PreparePlans(plans: seq<Plan>) returns (r: Result<seq<Plan>>)
    ensures r.Ok? <==> ValidPlans(plans)
    ensures r.Ok? ==> r.value == OrderedPlans(plans)
  {
    var lines: seq<Plan> := [];
    var ids: set<string> := {};
    for i := 0 to |plans|
      invariant ValidPlans(plans[..i])
      invariant lines == OrderedPlans(plans[..i])
      invariant ids == set p | p in plans[..i] :: p.lineId
    {
      var plan := plans[i];
      assert plan in plans;
      if !ValidTaxAmount(plan.amount) {
        return Err(Validation);
      }
      if plan.lineId in ids {
        var q :| q in plans[..i] && q.lineId == plan.lineId;
        return Err(TaxConfiguration);
      }
      if !ValidPlan(plan) {
        return Err(TaxConfiguration);
      }
      PrefixSnoc(plans, i);
      lines := lines + [OrderedPlan(plan)];
      ids := ids + {plan.lineId};
    }
    assert plans[..|plans|] == plans;
    return Ok(lines);
  }

  /** Exactly the priorities of the cells, in increasing order. */
  ghost predicate PriorityList(cells: seq<Cell>, priorities: seq<int>) {
    && (forall c :: c in cells ==> c.priority in priorities)
    && (forall q :: q in priorities ==> exists c :: c in cells && c.priority == q)
    && (forall j, k :: 0 <= j < k < |priorities| ==> priorities[j] < priorities[k])
  }

  method SortedPriorities(cells: seq<Cell>) returns (ps: seq<int>)
    ensures PriorityList(cells, ps)
  {
    var distinct: seq<int> := [];
    for j := 0 to |cells|
      invariant forall c :: c in cells[..j] ==> c.priority in distinct
      invariant forall p :: p in distinct ==> exists c :: c in cells && c.priority == p
      invariant forall i, k :: 0 <= i < k < |distinct| ==> distinct[i] != distinct[k]
    {
      PrefixSnoc(cells, j);
      assert cells[j] in cells;
      if cells[j].priority !in distinct {
        distinct := distinct + [cells[j].priority];
      }
    }
    assert cells[..|cells|] == cells;
    var le := (a: int, b: int) => a <= b;
    SortByIsSorted(distinct, le);
    ps := SortBy(distinct, le);
    SameMembers(ps, distinct);
    SortedDistinct(distinct, ps);
  }

  lemma SortedDistinct(s: seq<int>, t: seq<int>)
    requires multiset(s) == multiset(t)
    requires forall i, k :: 0 <= i < k < |s| ==> s[i] != s[k]
    requires forall i, k :: 0 <= i < k < |t| ==> t[i] <= t[k]
    ensures forall i, k :: 0 <= i < k < |t| ==> t[i] < t[k]
  {
    forall i, k | 0 <= i < k < |t| ensures t[i] != t[k] {
      if t[i] == t[k] {
        assert t == t[..i] + [t[i]] + t[i + 1..k] + [t[k]] + t[k + 1..];
        assert multiset(t)[t[i]] >= 2;
        OnceInSequence(s, t[i]);
      }
    }
  }

  lemma {:induction false} OnceInSequence(s: seq<int>, x: int)
    requires forall i, k :: 0 <= i < k < |s| ==> s[i] != s[k]
    ensures multiset(s)[x] <= 1
  {
    if s != [] {
      assert s == [s[0]] + s[1..];
      OnceInSequence(s[1..], x);
      if x == s[0] {
        assert x !in multiset(s[1..]);
      }
    }
  }

  // Running totals

  function AtPriority(m: map<Cell, int>, lineId: string, priority: int, c: Cell): int {
    if c.lineId == lineId && c.priority == priority && !c.inclusive then Amount(m, c) else 0
  }

  /** Exclusive tax of a line at one priority. */
  function PriorityTotal(cells: seq<Cell>, m: map<Cell, int>, lineId: string, priority: int): int {
    SumBy(cells, (c: Cell) => AtPriority(m, lineId, priority, c))
  }

  lemma PriorityTotalSnoc(cells: seq<Cell>, m: map<Cell, int>, lineId: string, priority: int, c: Cell)
    ensures PriorityTotal(cells + [c], m, lineId, priority)
            == PriorityTotal(cells, m, lineId, priority) + AtPriority(m, lineId, priority, c)
  {
    SumBySnoc(cells, c, (c: Cell) => AtPriority(m, lineId, priority, c));
  }

  lemma TotalsAdvance(cells: seq<Cell>, m: map<Cell, int>, n: map<Cell, int>, lineId: string, priority: int)
    requires AgreeBelow(cells, m, n, priority)
    ensures ExclusiveBelow(cells, n, lineId, priority + 1)
            == ExclusiveBelow(cells, m, lineId, priority) + PriorityTotal(cells, n, lineId, priority)
  {
    SumByLinear(cells, (c: Cell) => Cascading(n, lineId, priority + 1, c),
                (c: Cell) => Cascading(m, lineId, priority, c), 1, (c: Cell) => AtPriority(n, lineId, priority, c));
  }

  /** Totals advance only after the whole priority is done. */
  method AdvanceTotals(cells: seq<Cell>, ghost m: map<Cell, int>, n: map<Cell, int>, lower: map<string, int>,
                       priority: int)
    returns (next: map<string, int>)
    requires AgreeBelow(cells, m, n, priority) && LowerTotals(cells, m, priority, lower)
    ensures LowerTotals(cells, n, priority + 1, next)
  {
    var atThisPriority: map<string, int> := map[];
    for j := 0 to |cells|
      invariant forall l :: Share(atThisPriority, l) == PriorityTotal(cells[..j], n, l, priority)
    {
      var c := cells[j];
      PrefixSnoc(cells, j);
      forall l: string
        ensures PriorityTotal(cells[..j + 1], n, l, priority)
                == PriorityTotal(cells[..j], n, l, priority) + AtPriority(n, l, priority, c)
      {
        PriorityTotalSnoc(cells[..j], n, l, priority, c);
      }
      ghost var before := atThisPriority;
      if c.priority == priority && !c.inclusive {
        atThisPriority := atThisPriority[c.lineId := Share(atThisPriority, c.lineId) + Amount(n, c)];
      }
      assert forall l :: Share(atThisPriority, l) == Share(before, l) + AtPriority(n, l, priority, c);
    }
    assert cells[..|cells|] == cells;
    next := map l | l in lower.Keys + atThisPriority.Keys :: Share(lower, l) + Share(atThisPriority, l);
    forall c | c in cells ensures Share(next, c.lineId) == ExclusiveBelow(cells, n, c.lineId, priority + 1) {
      TotalsAdvance(cells, m, n, c.lineId, priority);
    }
  }

  lemma ThresholdMoves(cells: seq<Cell>, m: map<Cell, int>, lineId: string, p: int, q: int)
    requires forall c :: c in cells ==> (c.priority < p <==> c.priority < q)
    ensures ExclusiveBelow(cells, m, lineId, p) == ExclusiveBelow(cells, m, lineId, q)
  {
    SumByEqual(cells, (c: Cell) => Cascading(m, lineId, p, c), (c: Cell) => Cascading(m, lineId, q, c));
  }

  lemma TotalsBelowAgree(cells: seq<Cell>, m: map<Cell, int>, n: map<Cell, int>, lineId: string, priority: int)
    requires AgreeBelow(cells, m, n, priority)
    ensures ExclusiveBelow(cells, m, lineId, priority) == ExclusiveBelow(cells, n, lineId, priority)
  {
    SumByEqual(cells, (c: Cell) => Cascading(m, lineId, priority, c), (c: Cell) => Cascading(n, lineId, priority, c));
  }

  // The sweep over all priorities

  lemma NextThreshold(cells: seq<Cell>, strategy: Strategy, m: map<Cell, int>, lower: map<string, int>, p: int, q: int)
    requires SweptBelow(cells, strategy, m, p) && LowerTotals(cells, m, p, lower)
    requires forall c :: c in cells ==> (c.priority < p <==> c.priority < q)
    ensures SweptBelow(cells, strategy, m, q) && LowerTotals(cells, m, q, lower)
  {
    forall c | c in cells ensures Share(lower, c.lineId) == ExclusiveBelow(cells, m, c.lineId, q) {
      ThresholdMoves(cells, m, c.lineId, p, q);
    }
  }

  lemma {:induction false} EveryLineHasCells(plans: seq<Plan>, plan: Plan)
    requires plan in plans && plan.taxes != []
    ensures CellOf(plan, plan.taxes[0]) in Cells(plans)
  {
    if plans[0] == plan {
      assert LineCells(plan)[0] == CellOf(plan, plan.taxes[0]);
    } else {
      EveryLineHasCells(plans[1..], plan);
    }
  }

  ghost predicate CheckedBelow(lines: seq<Plan>, cells: seq<Cell>, m: map<Cell, int>, priority: int) {
    forall plan, c :: plan in lines && c in cells && c.priority < priority ==>
      ValidTaxAmount(plan.amount + ExclusiveBelow(cells, m, plan.lineId, c.priority))
  }

  lemma StillChecked(lines: seq<Plan>, cells: seq<Cell>, m: map<Cell, int>, n: map<Cell, int>, p: int)
    requires CheckedBelow(lines, cells, m, p) && AgreeBelow(cells, m, n, p)
    requires forall plan :: plan in lines ==> ValidTaxAmount(plan.amount + ExclusiveBelow(cells, m, plan.lineId, p))
    ensures CheckedBelow(lines, cells, n, p + 1)
  {
    forall plan, c | plan in lines && c in cells && c.priority < p + 1
      ensures ValidTaxAmount(plan.amount + ExclusiveBelow(cells, n, plan.lineId, c.priority))
    {
      TotalsBelowAgree(cells, m, n, plan.lineId, c.priority);
    }
  }

  ghost predicate EveryLineTaxed(lines: seq<Plan>, cells: seq<Cell>) {
    forall p :: p in lines ==> exists c :: c in cells && c.lineId == p.lineId
  }

  /** Every line's base at this priority must be a valid amount. */
  method CheckBases(lines: seq<Plan>, cells: seq<Cell>, ghost m: map<Cell, int>, lower: map<string, int>, priority: int)
    returns (ok: bool)
    requires EveryLineTaxed(lines, cells)
    requires LowerTotals(cells, m, priority, lower)
    ensures ok <==> forall p :: p in lines ==> ValidTaxAmount(p.amount + ExclusiveBelow(cells, m, p.lineId, priority))
  {
    for j := 0 to |lines|
      invariant forall p :: p in lines[..j] ==> ValidTaxAmount(p.amount + ExclusiveBelow(cells, m, p.lineId, priority))
    {
      PrefixSnoc(lines, j);
      assert lines[j] in lines;
      if !ValidTaxAmount(lines[j].amount + Share(lower, lines[j].lineId)) {
        return false;
      }
    }
    assert lines[..|lines|] == lines;
    return true;
  }

  lemma OutOfRange(lines: seq<Plan>, cells: seq<Cell>, strategy: Strategy, m: map<Cell, int>, n: map<Cell, int>,
                   c: Cell, plan: Plan)
    requires SweptBelow(cells, strategy, m, c.priority) && c in cells && plan in lines
    requires !ValidTaxAmount(plan.amount + ExclusiveBelow(cells, m, plan.lineId, c.priority))
    requires IsCascade(cells, strategy, n)
    ensures !InRange(lines, cells, n)
  {
    var low, high := PriorityRange(cells);
    CascadesAgree(cells, strategy, m, n, low, c.priority);
    TotalsBelowAgree(cells, m, n, plan.lineId, c.priority);
  }

  ghost predicate SweepState(lines: seq<Plan>, cells: seq<Cell>, strategy: Strategy, m: map<Cell, int>,
                             lower: map<string, int>, p: int) {
    SweptBelow(cells, strategy, m, p) && LowerTotals(cells, m, p, lower) && CheckedBelow(lines, cells, m, p)
  }

  /** One priority: check every base, tax every group, then advance the totals. */
  method SweepStep(lines: seq<Plan>, cells: seq<Cell>, strategy: Strategy, m: map<Cell, int>, lower: map<string, int>,
                   priority: int, ghost c: Cell)
    returns (r: Result<(map<Cell, int>, map<string, int>)>)
    requires EveryLineTaxed(lines, cells) && c in cells && c.priority == priority
    requires SweepState(lines, cells, strategy, m, lower, priority)
    ensures r.Ok? ==> SweepState(lines, cells, strategy, r.value.0, r.value.1, priority + 1)
    ensures r.Err? ==> forall n :: !(IsCascade(cells, strategy, n) && InRange(lines, cells, n))
  {
    var ok := CheckBases(lines, cells, m, lower, priority);
    if !ok {
      ghost var plan :| plan in lines && !ValidTaxAmount(plan.amount + ExclusiveBelow(cells, m, plan.lineId, priority));
      forall n | IsCascade(cells, strategy, n) ensures !InRange(lines, cells, n) {
        OutOfRange(lines, cells, strategy, m, n, c, plan);
      }
      return Err(Validation);
    }
    var swept := SweepPriority(cells, strategy, m, lower, priority);
    if swept.Err? {
      return Err(swept.error);
    }
    assert AgreeBelow(cells, m, swept.value, priority);
    StillChecked(lines, cells, m, swept.value, priority);
    var next := AdvanceTotals(cells, m, swept.value, lower, priority);
    return Ok((swept.value, next));
  }

  /** Finds the cascade of the cells, or fails because there is none in range. */
  method Sweep(lines: seq<Plan>, cells: seq<Cell>, strategy: Strategy) returns (r: Result<map<Cell, int>>)
    requires EveryLineTaxed(lines, cells)
    ensures r.Ok? ==> IsCascade(cells, strategy, r.value) && InRange(lines, cells, r.value)
    ensures r.Err? ==> forall n :: !(IsCascade(cells, strategy, n) && InRange(lines, cells, n))
  {
    var priorities := SortedPriorities(cells);
    var m: map<Cell, int> := map[];
    var lower: map<string, int> := map[];
    ghost var p := NothingSwept(lines, cells, strategy, priorities);
    for i := 0 to |priorities|
      invariant SweepState(lines, cells, strategy, m, lower, p)
      invariant Threshold(cells, priorities, i, p)
    {
      ghost var c := EnterPriority(lines, cells, strategy, m, lower, priorities, i, p);
      var step := SweepStep(lines, cells, strategy, m, lower, priorities[i], c);
      if step.Err? {
        return Err(step.error);
      }
      m, lower := step.value.0, step.value.1;
      p := priorities[i] + 1;
    }
    SweptIsCascade(lines, cells, strategy, m, lower, priorities, p);
    return Ok(m);
  }

  /** The first `i` priorities are exactly those below `p`. */
  ghost predicate Threshold(cells: seq<Cell>, priorities: seq<int>, i: nat, p: int) {
    && i <= |priorities|
    && PriorityList(cells, priorities)
    && (forall c :: c in cells ==> (c.priority < p <==> c.priority in priorities[..i]))
  }

  lemma NothingSwept(lines: seq<Plan>, cells: seq<Cell>, strategy: Strategy, priorities: seq<int>) returns (low: int)
    requires PriorityList(cells, priorities)
    ensures SweepState(lines, cells, strategy, map[], map[], low)
    ensures Threshold(cells, priorities, 0, low)
  {
    var high;
    low, high := PriorityRange(cells);
    NothingBelow(cells, low);
  }

  lemma EnterPriority(lines: seq<Plan>, cells: seq<Cell>, strategy: Strategy, m: map<Cell, int>,
                      lower: map<string, int>, priorities: seq<int>, i: nat, p: int) returns (c: Cell)
    requires SweepState(lines, cells, strategy, m, lower, p) && Threshold(cells, priorities, i, p) && i < |priorities|
    ensures SweepState(lines, cells, strategy, m, lower, priorities[i])
    ensures Threshold(cells, priorities, i + 1, priorities[i] + 1)
    ensures c in cells && c.priority == priorities[i]
  {
    ThresholdAt(cells, priorities, i, p);
    NextThreshold(cells, strategy, m, lower, p, priorities[i]);
    assert priorities[i] in priorities;
    c :| c in cells && c.priority == priorities[i];
  }

  lemma SweptIsCascade(lines: seq<Plan>, cells: seq<Cell>, strategy: Strategy, m: map<Cell, int>,
                       lower: map<string, int>, priorities: seq<int>, p: int)
    requires SweepState(lines, cells, strategy, m, lower, p) && Threshold(cells, priorities, |priorities|, p)
    ensures IsCascade(cells, strategy, m) && InRange(lines, cells, m)
  {
    assert priorities[..|priorities|] == priorities;
  }

  lemma NothingBelow(cells: seq<Cell>, low: int)
    requires forall c :: c in cells ==> low <= c.priority
    ensures LowerTotals(cells, map[], low, map[])
  {
    forall c | c in cells ensures ExclusiveBelow(cells, map[], c.lineId, low) == 0 {
      SumByEqual(cells, (d: Cell) => Cascading(map[], c.lineId, low, d), (d: Cell) => 0);
      SumOfZeros(cells);
    }
  }

  lemma {:induction false} SumOfZeros(cells: seq<Cell>)
    ensures SumBy(cells, (d: Cell) => 0) == 0
  {
    if cells != [] {
      SumOfZeros(cells[1..]);
    }
  }

  lemma ThresholdAt(cells: seq<Cell>, priorities: seq<int>, i: nat, p: int)
    requires i < |priorities| && forall i, j :: 0 <= i < j < |priorities| ==> priorities[i] < priorities[j]
    requires forall c :: c in cells ==> c.priority in priorities
    requires forall c :: c in cells ==> (c.priority < p <==> c.priority in priorities[..i])
    ensures forall c :: c in cells ==> (c.priority < p <==> c.priority < priorities[i])
    ensures forall c :: c in cells ==> (c.priority < priorities[i] + 1 <==> c.priority in priorities[..i + 1])
  {
    PrefixSnoc(priorities, i);
    forall c | c in cells ensures c.priority in priorities[..i] <==> c.priority < priorities[i] {
      var k :| 0 <= k < |priorities| && priorities[k] == c.priority;
      assert k < i ==> priorities[..i][k] == c.priority;
    }
  }

  method CollectRows(lines: seq<Plan>, cells: seq<Cell>, m: map<Cell, int>) returns (result: map<string, seq<Row>>)
    requires forall i, j :: 0 <= i < j < |lines| ==> lines[i].lineId != lines[j].lineId
    ensures result.Keys == set p | p in lines :: p.lineId
    ensures forall p :: p in lines ==> p.lineId in result && result[p.lineId] == LineRows(p, cells, m)
  {
    result := map[];
    for j := 0 to |lines|
      invariant result.Keys == set p | p in lines[..j] :: p.lineId
      invariant forall p :: p in lines[..j] ==> p.lineId in result && result[p.lineId] == LineRows(p, cells, m)
    {
      PrefixSnoc(lines, j);
      result := result[lines[j].lineId := LineRows(lines[j], cells, m)];
    }
    assert lines[..|lines|] == lines;
  }

  /**
   * The cascading engine. It succeeds exactly when the plans are valid and a cascade with all checked
   * bases in range exists, and then returns the rows of that cascade.
   */
  method CalculateCascadingTaxes(plans: seq<Plan>, strategy: Strategy) returns (r: Result<map<string, seq<Row>>>)
    ensures r.Ok? ==> ValidPlans(plans) && exists m :: IsResult(plans, strategy, m, r.value)
    ensures r.Err? ==>
            !ValidPlans(plans) || forall m :: !(IsCascade(Sheet(plans), strategy, m) && InRange(plans, Sheet(plans), m))
  {
    var prepared := PreparePlans(plans);
    if prepared.Err? {
      return Err(prepared.error);
    }
    var lines := prepared.value;
    var cells := Cells(lines);
    OrderedPlansProperties(plans);
    var swept := Sweep(lines, cells, strategy);
    if swept.Err? {
      forall m ensures !(IsCascade(cells, strategy, m) && InRange(plans, cells, m)) {
        RangeOfOrdered(plans, cells, m);
      }
      return Err(swept.error);
    }
    var result := CollectRows(lines, cells, swept.value);
    RangeOfOrdered(plans, cells, swept.value);
    ResultOfOrdered(plans, cells, swept.value, result);
    assert IsResult(plans, strategy, swept.value, result);
    return Ok(result);
  }

  lemma OrderedPlansProperties(plans: seq<Plan>)
    requires ValidPlans(plans)
    ensures forall i, j :: 0 <= i < j < |OrderedPlans(plans)| ==>
            OrderedPlans(plans)[i].lineId != OrderedPlans(plans)[j].lineId
    ensures EveryLineTaxed(OrderedPlans(plans), Sheet(plans))
  {
    var lines := OrderedPlans(plans);
    forall p | p in lines ensures exists c :: c in Sheet(plans) && c.lineId == p.lineId {
      var i :| 0 <= i < |lines| && lines[i] == p;
      assert plans[i] in plans;
      TaxLeIsPreorder();
      SortByIsSorted(plans[i].taxes, TaxLe);
      EveryLineHasCells(lines, p);
    }
  }

  lemma RangeOfOrdered(plans: seq<Plan>, cells: seq<Cell>, m: map<Cell, int>)
    ensures InRange(OrderedPlans(plans), cells, m) <==> InRange(plans, cells, m)
  {
    var lines := OrderedPlans(plans);
    if InRange(lines, cells, m) {
      forall p, c | p in plans && c in cells
        ensures ValidTaxAmount(p.amount + ExclusiveBelow(cells, m, p.lineId, c.priority))
      {
        var i :| 0 <= i < |plans| && plans[i] == p;
        assert lines[i] in lines;
      }
    }
    if InRange(plans, cells, m) {
      forall q, c | q in lines && c in cells
        ensures ValidTaxAmount(q.amount + ExclusiveBelow(cells, m, q.lineId, c.priority))
      {
        var i :| 0 <= i < |lines| && lines[i] == q;
        assert plans[i] in plans;
      }
    }
  }

  lemma ResultOfOrdered(plans: seq<Plan>, cells: seq<Cell>, m: map<Cell, int>, result: map<string, seq<Row>>)
    requires result.Keys == set p | p in OrderedPlans(plans) :: p.lineId
    requires forall p :: p in OrderedPlans(plans) ==> p.lineId in result && result[p.lineId] == LineRows(p, cells, m)
    ensures result.Keys == set p | p in plans :: p.lineId
    ensures forall p :: p in plans ==> p.lineId in result && result[p.lineId] == LineRows(OrderedPlan(p), cells, m)
  {
    var lines := OrderedPlans(plans);
    forall p | p in plans ensures p.lineId in result && result[p.lineId] == LineRows(OrderedPlan(p), cells, m) {
      var i :| 0 <= i < |plans| && plans[i] == p;
      assert lines[i] in lines;
    }
    forall x | x in result.Keys ensures x in (set p | p in plans :: p.lineId) {
      var q :| q in lines && q.lineId == x;
      var i :| 0 <= i < |lines| && lines[i] == q;
      assert plans[i] in plans;
    }
  }

  // What the rows promise

  /** One row per tax, numbered 1..k in (priority, category) order, each on the line amount plus lower exclusive tax. */
  lemma RowsInOrder(plans: seq<Plan>, strategy: Strategy, m: map<Cell, int>, result: map<string, seq<Row>>, plan: Plan)
    requires ValidPlans(plans) && IsResult(plans, strategy, m, result) && plan in plans
    ensures var rows, taxes := result[plan.lineId], Ordered(plan.taxes);
            && |rows| == |taxes| == |plan.taxes| && multiset(taxes) == multiset(plan.taxes)
            && (forall j, k :: 0 <= j < k < |taxes| ==>
                  || taxes[j].category.priority < taxes[k].category.priority
                  || (taxes[j].category.priority == taxes[k].category.priority
                      && Less(taxes[j].category.id, taxes[k].category.id)))
            && (forall k :: 0 <= k < |rows| ==>
                  && rows[k].sequence == k + 1 && rows[k].rateId == taxes[k].rate.id
                  && rows[k].family == taxes[k].category.family
                  && rows[k].taxable + (if rows[k].inclusive then rows[k].tax else 0)
                     == plan.amount + ExclusiveBelow(Sheet(plans), m, plan.lineId, taxes[k].category.priority))
  {
    assert ValidPlan(plan);
    TaxLeIsPreorder();
    SortByIsSorted(plan.taxes, TaxLe);
    OrderedStrictly(plan.taxes);
    RowsOfLine(OrderedPlan(plan), Sheet(plans), m);
  }

  lemma RowsOfLine(plan: Plan, cells: seq<Cell>, m: map<Cell, int>)
    ensures |LineRows(plan, cells, m)| == |plan.taxes|
    ensures forall k :: 0 <= k < |plan.taxes| ==>
                          var row, tax := LineRows(plan, cells, m)[k], plan.taxes[k];
                          && row.sequence == k + 1 && row.rateId == tax.rate.id && row.family == tax.category.family
                          && row.taxable + (if row.inclusive then row.tax else 0)
                             == plan.amount + ExclusiveBelow(cells, m, plan.lineId, tax.category.priority)
  {
  }

  /** What the rows before carry over: the exclusive taxes of strictly lower priority. */
  function LowerExclusive(taxes: seq<Tax>, rows: seq<Row>, priority: int): int {
    if taxes == [] || rows == [] then 0
    else
      (if taxes[0].category.priority < priority && !taxes[0].rate.inclusive then rows[0].tax else 0)
      + LowerExclusive(taxes[1..], rows[1..], priority)
  }

  lemma {:induction false} LowerRows(plan: Plan, m: map<Cell, int>, taxes: seq<Tax>, rows: seq<Row>, priority: int)
    requires |taxes| == |rows| && forall k :: 0 <= k < |rows| ==> rows[k].tax == Amount(m, CellOf(plan, taxes[k]))
    ensures LowerExclusive(taxes, rows, priority)
            == ExclusiveBelow(Apply((t: Tax) => CellOf(plan, t), taxes), m, plan.lineId, priority)
    decreases |taxes|
  {
    if taxes != [] {
      LowerRows(plan, m, taxes[1..], rows[1..], priority);
      var cells := Apply((t: Tax) => CellOf(plan, t), taxes);
      assert cells[1..] == Apply((t: Tax) => CellOf(plan, t), taxes[1..]);
    }
  }

  lemma RowsBelow(plans: seq<Plan>, plan: Plan, m: map<Cell, int>, rows: seq<Row>, priority: int)
    requires ValidPlans(plans) && plan in plans && rows == LineRows(OrderedPlan(plan), Sheet(plans), m)
    ensures |rows| == |Ordered(plan.taxes)|
    ensures ExclusiveBelow(Sheet(plans), m, plan.lineId, priority)
            == LowerExclusive(Ordered(plan.taxes), rows, priority)
  {
    var line := OrderedPlan(plan);
    OrderedMember(plans, plan);
    OrderedPlansProperties(plans);
    OwnCellsOnly(OrderedPlans(plans), m, line, priority);
    LowerRows(line, m, line.taxes, rows, priority);
  }

  /** What rounding a cell on its own says of its amount. */
  lemma CellIsNearest(cells: seq<Cell>, m: map<Cell, int>, c: Cell)
    requires CellHolds(cells, PerLine, m, c)
    ensures IsNearestUp(Base(cells, m, c) * c.bps, if c.inclusive then 10_000 + c.bps else 10_000, Amount(m, c))
  {
    TaxAmountIsNearest(Base(cells, m, c), c.bps, c.inclusive);
  }

  /** What rounding its group once says of it. */
  lemma CellIsShared(cells: seq<Cell>, m: map<Cell, int>, c: Cell)
    requires CellHolds(cells, InvoiceTotal, m, c)
    ensures exists shares, r :: && IsGroup(cells, m, c, shares) && IsInvoiceAllocation(shares, c.bps, c.inclusive, r)
                                && Share(r, c.lineId) == Amount(m, c)
  {
    GroupIsGroup(cells, m, c);
  }

  /** The base of a cell that is rounded together with `c`. */
  ghost predicate GroupBase(cells: seq<Cell>, m: map<Cell, int>, c: Cell, d: Cell, x: TaxShare) {
    && d in cells && d.priority == c.priority && d.rateId == c.rateId && d.bps == c.bps
    && d.inclusive == c.inclusive && d.currency == c.currency
    && x == TaxShare(d.lineId, d.lineAmount + ExclusiveBelow(cells, m, d.lineId, d.priority))
  }

  /** The group: every line's base for the same rate at the same priority in the same currency, each once. */
  ghost predicate IsGroup(cells: seq<Cell>, m: map<Cell, int>, c: Cell, shares: seq<TaxShare>) {
    ValidShares(shares) && forall x :: x in shares <==> exists d :: GroupBase(cells, m, c, d, x)
  }

  lemma ShareFromGroup(cells: seq<Cell>, m: map<Cell, int>, c: Cell, x: TaxShare)
    requires x in GroupShares(cells, m, c)
    ensures exists d :: GroupBase(cells, m, c, d, x)
  {
    var group, shares := Group(cells, c), GroupShares(cells, m, c);
    GroupMembers(cells, c);
    var i :| 0 <= i < |shares| && shares[i] == x;
    assert group[i] in group;
    assert GroupBase(cells, m, c, group[i], x);
  }

  lemma ShareInGroup(cells: seq<Cell>, m: map<Cell, int>, c: Cell, d: Cell, x: TaxShare)
    requires GroupBase(cells, m, c, d, x)
    ensures x in GroupShares(cells, m, c)
  {
    var group, shares := Group(cells, c), GroupShares(cells, m, c);
    GroupMembers(cells, c);
    var i :| 0 <= i < |group| && group[i] == d;
    assert shares[i] == x;
  }

  lemma GroupIsGroup(cells: seq<Cell>, m: map<Cell, int>, c: Cell)
    requires ValidShares(GroupShares(cells, m, c))
    ensures IsGroup(cells, m, c, GroupShares(cells, m, c))
  {
    var shares := GroupShares(cells, m, c);
    forall x ensures x in shares <==> exists d :: GroupBase(cells, m, c, d, x) {
      if x in shares {
        ShareFromGroup(cells, m, c, x);
      }
      if d :| GroupBase(cells, m, c, d, x) {
        ShareInGroup(cells, m, c, d, x);
      }
    }
  }

  /** The cells are the taxes of the lines. */
  lemma {:induction false} CellsMembers(plans: seq<Plan>, c: Cell)
    ensures c in Cells(plans) <==> exists q, t :: q in plans && t in q.taxes && c == CellOf(q, t)
    decreases |plans|
  {
    if plans != [] {
      CellsMembers(plans[1..], c);
      var q := plans[0];
      if c in LineCells(q) {
        var k :| 0 <= k < |q.taxes| && LineCells(q)[k] == c;
        assert q.taxes[k] in q.taxes;
      }
      forall t | t in q.taxes ensures CellOf(q, t) in LineCells(q) {
        var k :| 0 <= k < |q.taxes| && q.taxes[k] == t;
        assert LineCells(q)[k] == CellOf(q, t);
      }
    }
  }

  lemma SheetMembers(plans: seq<Plan>, c: Cell)
    ensures c in Sheet(plans) <==> exists q, t :: q in plans && t in q.taxes && c == CellOf(q, t)
  {
    var lines := OrderedPlans(plans);
    CellsMembers(lines, c);
    forall i | 0 <= i < |plans|
      ensures lines[i] in lines && plans[i] in plans && lines[i] == OrderedPlan(plans[i])
      ensures forall t :: t in lines[i].taxes <==> t in plans[i].taxes
    {
      OrderedTaxes(plans[i].taxes);
    }
    if q, t :| q in lines && t in q.taxes && c == CellOf(q, t) {
      var i :| 0 <= i < |lines| && lines[i] == q;
      assert c == CellOf(plans[i], t);
    }
    if q, t :| q in plans && t in q.taxes && c == CellOf(q, t) {
      var i :| 0 <= i < |plans| && plans[i] == q;
      assert c == CellOf(lines[i], t);
    }
  }

  lemma OrderedTaxes(taxes: seq<Tax>)
    ensures |Ordered(taxes)| == |taxes| && forall t :: t in Ordered(taxes) <==> t in taxes
  {
    TaxLeIsPreorder();
    SortByIsSorted(taxes, TaxLe);
    SameMembers(Ordered(taxes), taxes);
    SameLength(Ordered(taxes), taxes);
  }

  /** A line's base for a rate: its amount plus its exclusive rows of lower priority. */
  ghost predicate LineBase(result: map<string, seq<Row>>, priority: int, rate: Rate, currency: string, q: Plan, t: Tax,
                           x: TaxShare)
  {
    && t in q.taxes && q.currency == currency && t.category.priority == priority
    && t.rate.id == rate.id && t.rate.bps == rate.bps && t.rate.inclusive == rate.inclusive
    && q.lineId in result && |result[q.lineId]| == |Ordered(q.taxes)|
    && x == TaxShare(q.lineId, q.amount + LowerExclusive(Ordered(q.taxes), result[q.lineId], priority))
  }

  ghost predicate LineShare(plans: seq<Plan>, result: map<string, seq<Row>>, priority: int, rate: Rate,
                            currency: string, x: TaxShare)
  {
    exists q, t :: q in plans && LineBase(result, priority, rate, currency, q, t, x)
  }

  /** The bases of all lines with a rate, each line once, and the allocation of the tax on their sum. */
  ghost predicate SharedOut(plans: seq<Plan>, result: map<string, seq<Row>>, tax: Tax, currency: string,
                            shares: seq<TaxShare>, r: map<string, int>)
  {
    && ValidShares(shares) && IsInvoiceAllocation(shares, tax.rate.bps, tax.rate.inclusive, r)
    && forall x :: x in shares <==> LineShare(plans, result, tax.category.priority, tax.rate, currency, x)
  }

  lemma BaseOfLine(plans: seq<Plan>, strategy: Strategy, m: map<Cell, int>, result: map<string, seq<Row>>, q: Plan,
                   t: Tax)
    requires ValidPlans(plans) && IsResult(plans, strategy, m, result) && q in plans && t in q.taxes
    ensures CellOf(q, t) in Sheet(plans) && |result[q.lineId]| == |Ordered(q.taxes)|
    ensures Base(Sheet(plans), m, CellOf(q, t))
            == q.amount + LowerExclusive(Ordered(q.taxes), result[q.lineId], t.category.priority)
  {
    SheetMembers(plans, CellOf(q, t));
    RowsBelow(plans, q, m, result[q.lineId], t.category.priority);
  }

  lemma SameBase(plans: seq<Plan>, strategy: Strategy, m: map<Cell, int>, result: map<string, seq<Row>>, c: Cell,
                 rate: Rate, q: Plan, t: Tax, x: TaxShare)
    requires ValidPlans(plans) && IsResult(plans, strategy, m, result) && q in plans && t in q.taxes
    requires c.rateId == rate.id && c.bps == rate.bps && c.inclusive == rate.inclusive
    ensures GroupBase(Sheet(plans), m, c, CellOf(q, t), x) <==> LineBase(result, c.priority, rate, c.currency, q, t, x)
  {
    BaseOfLine(plans, strategy, m, result, q, t);
  }

  lemma GroupBaseOfLine(plans: seq<Plan>, strategy: Strategy, m: map<Cell, int>, result: map<string, seq<Row>>, c: Cell,
                        rate: Rate, x: TaxShare)
    requires ValidPlans(plans) && IsResult(plans, strategy, m, result)
    requires c.rateId == rate.id && c.bps == rate.bps && c.inclusive == rate.inclusive
    ensures (exists d :: GroupBase(Sheet(plans), m, c, d, x)) <==>
            LineShare(plans, result, c.priority, rate, c.currency, x)
  {
    if d :| GroupBase(Sheet(plans), m, c, d, x) {
      SheetMembers(plans, d);
      var q, t :| q in plans && t in q.taxes && d == CellOf(q, t);
      SameBase(plans, strategy, m, result, c, rate, q, t, x);
    }
    if q, t :| q in plans && LineBase(result, c.priority, rate, c.currency, q, t, x) {
      SameBase(plans, strategy, m, result, c, rate, q, t, x);
    }
  }

  lemma GroupOfLines(plans: seq<Plan>, strategy: Strategy, m: map<Cell, int>, result: map<string, seq<Row>>, plan: Plan,
                     tax: Tax, shares: seq<TaxShare>, r: map<string, int>)
    requires ValidPlans(plans) && IsResult(plans, strategy, m, result)
    requires IsGroup(Sheet(plans), m, CellOf(plan, tax), shares)
    requires IsInvoiceAllocation(shares, tax.rate.bps, tax.rate.inclusive, r)
    ensures SharedOut(plans, result, tax, plan.currency, shares, r)
  {
    forall x ensures x in shares <==>
                     LineShare(plans, result, tax.category.priority, tax.rate, plan.currency, x)
    {
      GroupBaseOfLine(plans, strategy, m, result, CellOf(plan, tax), tax.rate, x);
    }
  }

  lemma RowIs(plans: seq<Plan>, strategy: Strategy, m: map<Cell, int>, result: map<string, seq<Row>>, plan: Plan,
              k: nat)
    requires ValidPlans(plans) && IsResult(plans, strategy, m, result) && plan in plans && k < |plan.taxes|
    ensures |result[plan.lineId]| == |Ordered(plan.taxes)| == |plan.taxes| && Ordered(plan.taxes)[k] in plan.taxes
    ensures var row, tax := result[plan.lineId][k], Ordered(plan.taxes)[k];
            var base := Base(Sheet(plans), m, CellOf(plan, tax));
            && row.rateId == tax.rate.id && row.bps == tax.rate.bps && row.inclusive == tax.rate.inclusive
            && row.tax == Amount(m, CellOf(plan, tax))
            && row.taxable == if tax.rate.inclusive then base - row.tax else base
  {
    OrderedTaxes(plan.taxes);
    assert Ordered(plan.taxes)[k] in Ordered(plan.taxes);
    assert result[plan.lineId][k] == RowAt(OrderedPlan(plan), k, Sheet(plans), m);
    assert CellOf(OrderedPlan(plan), Ordered(plan.taxes)[k]) == CellOf(plan, Ordered(plan.taxes)[k]);
  }

  lemma TaxedAlone(plans: seq<Plan>, m: map<Cell, int>, plan: Plan, tax: Tax, base: int, amount: int)
    requires IsCascade(Sheet(plans), PerLine, m) && CellOf(plan, tax) in Sheet(plans)
    requires base == Base(Sheet(plans), m, CellOf(plan, tax)) && amount == Amount(m, CellOf(plan, tax))
    ensures IsRateOf(base, tax.rate, amount)
  {
    assert CellHolds(Sheet(plans), PerLine, m, CellOf(plan, tax));
    CellIsNearest(Sheet(plans), m, CellOf(plan, tax));
  }

  lemma SharedInBatch(plans: seq<Plan>, m: map<Cell, int>, result: map<string, seq<Row>>, plan: Plan, tax: Tax)
    requires ValidPlans(plans) && IsResult(plans, InvoiceTotal, m, result) && CellOf(plan, tax) in Sheet(plans)
    ensures IsItsShare(plans, result, plan, tax, Amount(m, CellOf(plan, tax)))
  {
    assert CellHolds(Sheet(plans), InvoiceTotal, m, CellOf(plan, tax));
    CellIsShared(Sheet(plans), m, CellOf(plan, tax));
    var shares, r :| && IsGroup(Sheet(plans), m, CellOf(plan, tax), shares)
                     && IsInvoiceAllocation(shares, tax.rate.bps, tax.rate.inclusive, r)
                     && Share(r, plan.lineId) == Amount(m, CellOf(plan, tax));
    GroupOfLines(plans, InvoiceTotal, m, result, plan, tax, shares, r);
  }

  /**
   * The row of a tax on a base: rounded half-up on its own, or its share of one rounding over all lines
   * with its rate.
   */
  ghost predicate RowTaxed(plans: seq<Plan>, strategy: Strategy, result: map<string, seq<Row>>, plan: Plan, tax: Tax,
                           base: int, row: Row)
  {
    && row.rateId == tax.rate.id && row.bps == tax.rate.bps && row.inclusive == tax.rate.inclusive
    && row.taxable == (if tax.rate.inclusive then base - row.tax else base)
    && match strategy
       case PerLine => IsRateOf(base, tax.rate, row.tax)
       case InvoiceTotal => IsItsShare(plans, result, plan, tax, row.tax)
  }

  ghost predicate IsRateOf(base: int, rate: Rate, tax: int) {
    IsNearestUp(base * rate.bps, if rate.inclusive then 10_000 + rate.bps else 10_000, tax)
  }

  ghost predicate IsItsShare(plans: seq<Plan>, result: map<string, seq<Row>>, plan: Plan, tax: Tax, amount: int) {
    exists shares, r :: SharedOut(plans, result, tax, plan.currency, shares, r) && Share(r, plan.lineId) == amount
  }

  lemma RowIsTaxed(plans: seq<Plan>, strategy: Strategy, m: map<Cell, int>, result: map<string, seq<Row>>, plan: Plan,
                   tax: Tax, base: int, row: Row)
    requires ValidPlans(plans) && IsResult(plans, strategy, m, result) && CellOf(plan, tax) in Sheet(plans)
    requires base == Base(Sheet(plans), m, CellOf(plan, tax)) && row.tax == Amount(m, CellOf(plan, tax))
    requires row.rateId == tax.rate.id && row.bps == tax.rate.bps && row.inclusive == tax.rate.inclusive
    requires row.taxable == if tax.rate.inclusive then base - row.tax else base
    ensures RowTaxed(plans, strategy, result, plan, tax, base, row)
  {
    if strategy.PerLine? {
      TaxedAlone(plans, m, plan, tax, base, row.tax);
    } else {
      SharedInBatch(plans, m, result, plan, tax);
    }
  }

  /** Each row is the tax of its own rate on the line amount plus the exclusive rows of lower priority. */
  lemma RowsAreTaxed(plans: seq<Plan>, strategy: Strategy, m: map<Cell, int>, result: map<string, seq<Row>>, plan: Plan,
                     rows: seq<Row>, taxes: seq<Tax>, k: nat, base: int)
    requires ValidPlans(plans) && IsResult(plans, strategy, m, result) && plan in plans
    requires rows == result[plan.lineId] && taxes == Ordered(plan.taxes) && k < |plan.taxes| == |taxes|
    requires base == plan.amount + LowerExclusive(taxes, rows, taxes[k].category.priority)
    ensures |rows| == |taxes| && RowTaxed(plans, strategy, result, plan, taxes[k], base, rows[k])
  {
    RowIs(plans, strategy, m, result, plan, k);
    BaseOfLine(plans, strategy, m, result, plan, taxes[k]);
    RowIsTaxed(plans, strategy, m, result, plan, taxes[k], base, rows[k]);
  }

  lemma OrderedStrictly(taxes: seq<Tax>)
    requires DistinctCategories(taxes)
    ensures var s := Ordered(taxes);
            forall j, k :: 0 <= j < k < |s| ==>
              || s[j].category.priority < s[k].category.priority
              || (s[j].category.priority == s[k].category.priority && Less(s[j].category.id, s[k].category.id))
  {
    var s := Ordered(taxes);
    TaxLeIsPreorder();
    SortByIsSorted(taxes, TaxLe);
    var f := (t: Tax) => Portion(t.category.id, 0);
    ApplyPermutation(f, taxes, s);
    MultisetDistinct(Apply(f, taxes), Apply(f, s));
    forall j, k | 0 <= j < k < |s| && s[j].category.priority == s[k].category.priority
      ensures Less(s[j].category.id, s[k].category.id)
    {
      assert TaxLe(s[j], s[k]);
      assert Apply(f, s)[j].id != Apply(f, s)[k].id;
      LessConnected(s[j].category.id, s[k].category.id);
    }
  }

  // Lines taxed line by line do not influence each other

  lemma {:induction false} CellsOfOtherLines(plans: seq<Plan>, c: Cell)
    requires c in Cells(plans)
    ensures exists p :: p in plans && p.lineId == c.lineId
  {
    if c in LineCells(plans[0]) {
      var i :| 0 <= i < |LineCells(plans[0])| && LineCells(plans[0])[i] == c;
      assert plans[0].lineId == c.lineId;
    } else {
      CellsOfOtherLines(plans[1..], c);
    }
  }

  lemma {:induction false} OwnCellsOnly(plans: seq<Plan>, m: map<Cell, int>, plan: Plan, priority: int)
    requires plan in plans
    requires forall i, j :: 0 <= i < j < |plans| ==> plans[i].lineId != plans[j].lineId
    ensures ExclusiveBelow(Cells(plans), m, plan.lineId, priority)
            == ExclusiveBelow(LineCells(plan), m, plan.lineId, priority)
    ensures forall c :: c in LineCells(plan) ==> c in Cells(plans)
  {
    var f := (c: Cell) => Cascading(m, plan.lineId, priority, c);
    SumByAppend(LineCells(plans[0]), Cells(plans[1..]), f);
    if plans[0] == plan {
      forall c | c in Cells(plans[1..]) ensures f(c) == 0 {
        CellsOfOtherLines(plans[1..], c);
      }
      SumByEqual(Cells(plans[1..]), f, (c: Cell) => 0);
      SumOfZeros(Cells(plans[1..]));
    } else {
      OwnCellsOnly(plans[1..], m, plan, priority);
      forall c | c in LineCells(plans[0]) ensures f(c) == 0 {
        var i :| 0 <= i < |LineCells(plans[0])| && LineCells(plans[0])[i] == c;
      }
      SumByEqual(LineCells(plans[0]), f, (c: Cell) => 0);
      SumOfZeros(LineCells(plans[0]));
    }
  }

  lemma SingleSheet(plan: Plan)
    ensures Sheet([plan]) == LineCells(OrderedPlan(plan))
  {
    assert OrderedPlans([plan]) == [OrderedPlan(plan)];
    assert [OrderedPlan(plan)][1..] == [];
    assert Cells([OrderedPlan(plan)]) == LineCells(OrderedPlan(plan)) + [];
  }

  /** Under per-line rounding a cell depends on its own line only. */
  lemma LineCascade(plans: seq<Plan>, m: map<Cell, int>, plan: Plan, c: Cell)
    requires ValidPlans(plans) && plan in plans && IsCascade(Sheet(plans), PerLine, m)
    requires c in Sheet([plan])
    ensures c in m && CellHolds(Sheet([plan]), PerLine, m, c)
    ensures Base(Sheet([plan]), m, c) == Base(Sheet(plans), m, c)
  {
    var lines, line := OrderedPlans(plans), OrderedPlan(plan);
    OrderedMember(plans, plan);
    SingleSheet(plan);
    OwnCellsOnly(lines, m, line, c.priority);
    LineOfCell(line, c);
    assert CellHolds(Sheet(plans), PerLine, m, c);
    PerLineHolds(Sheet(plans), Sheet([plan]), m, c);
  }

  lemma OrderedMember(plans: seq<Plan>, plan: Plan)
    requires plan in plans
    ensures OrderedPlan(plan) in OrderedPlans(plans)
  {
    var i :| 0 <= i < |plans| && plans[i] == plan;
    assert OrderedPlans(plans)[i] == OrderedPlan(plan);
  }

  lemma LineOfCell(plan: Plan, c: Cell)
    requires c in LineCells(plan)
    ensures c.lineId == plan.lineId
  {
    var k :| 0 <= k < |LineCells(plan)| && LineCells(plan)[k] == c;
  }

  lemma PerLineHolds(cells: seq<Cell>, others: seq<Cell>, m: map<Cell, int>, c: Cell)
    requires CellHolds(cells, PerLine, m, c) && Base(cells, m, c) == Base(others, m, c)
    ensures CellHolds(others, PerLine, m, c)
  {
  }

  /** Whenever a per-line batch succeeds, each line's rows are those of the line computed alone. */
  lemma PerLineIsolation(plans: seq<Plan>, m: map<Cell, int>, result: map<string, seq<Row>>, plan: Plan,
                         alone: map<Cell, int>, isolated: map<string, seq<Row>>)
    requires ValidPlans(plans) && plan in plans && IsResult(plans, PerLine, m, result)
    requires IsResult([plan], PerLine, alone, isolated)
    ensures result[plan.lineId] == isolated[plan.lineId]
  {
    var cells, whole := Sheet([plan]), Sheet(plans);
    forall c | c in cells ensures CellHolds(cells, PerLine, m, c) && Base(cells, m, c) == Base(whole, m, c) {
      LineCascade(plans, m, plan, c);
    }
    var low, high := PriorityRange(cells);
    CascadesAgree(cells, PerLine, m, alone, low, high);
    assert plan in [plan];
    SingleSheet(plan);
    forall c | c in cells ensures Base(whole, m, c) == Base(cells, alone, c) && Amount(m, c) == Amount(alone, c) {
      assert AgreeBelow(cells, m, alone, c.priority);
      BaseAgrees(cells, m, alone, c);
    }
    RowsAgree(OrderedPlan(plan), whole, m, cells, alone);
  }

  lemma RowsAgree(line: Plan, cells: seq<Cell>, m: map<Cell, int>, others: seq<Cell>, n: map<Cell, int>)
    requires forall c :: c in LineCells(line) ==>
             Base(cells, m, c) == Base(others, n, c) && Amount(m, c) == Amount(n, c)
    ensures LineRows(line, cells, m) == LineRows(line, others, n)
  {
    forall k | 0 <= k < |line.taxes| ensures RowAt(line, k, cells, m) == RowAt(line, k, others, n) {
      assert LineCells(line)[k] == CellOf(line, line.taxes[k]);
    }
  }

  /** A line of a successful per-line batch also succeeds alone. */
  lemma IsolatedSucceeds(plans: seq<Plan>, m: map<Cell, int>, plan: Plan)
    requires ValidPlans(plans) && plan in plans && IsCascade(Sheet(plans), PerLine, m)
             && InRange(plans, Sheet(plans), m)
    ensures ValidPlans([plan])
    ensures exists n :: IsCascade(Sheet([plan]), PerLine, n) && InRange([plan], Sheet([plan]), n)
  {
    var cells := Sheet([plan]);
    var n := map c | c in cells :: Amount(m, c);
    forall c | c in cells
      ensures CellHolds(cells, PerLine, n, c)
              && ValidTaxAmount(plan.amount + ExclusiveBelow(cells, n, plan.lineId, c.priority))
    {
      LineCascade(plans, m, plan, c);
      assert AgreeBelow(cells, m, n, c.priority);
      CellTaxedAgrees(cells, PerLine, m, n, c, Amount(m, c));
      SingleSheet(plan);
      var k :| 0 <= k < |LineCells(OrderedPlan(plan))| && LineCells(OrderedPlan(plan))[k] == c;
    }
    assert IsCascade(cells, PerLine, n);
  }
}
