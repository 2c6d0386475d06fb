/** Statutory tax arithmetic: half-up, per line or once per invoice group. */
module TaxMath {
  import opened Outcome
  import opened Sums
  import opened TextOrder
  import opened Rounding
  import opened Allocation

  const MAX_TAX_MINOR_UNITS := 9_223_372_036_854_775_807
  const BASIS_POINT_DENOMINATOR := 10_000

  predicate ValidTaxAmount(amount: int) { 0 <= amount <= MAX_TAX_MINOR_UNITS }

  predicate ValidTaxRate(rateBps: int) { 0 <= rateBps <= 10_000 }

  function Denominator(rateBps: int, inclusive: bool): int {
    BASIS_POINT_DENOMINATOR + (if inclusive then rateBps else 0)
  }

  datatype ComputedTaxAmount = ComputedTaxAmount(taxableAmountMinor: int, taxAmountMinor: int)

  function CalculateTaxAmount(amount: int, rateBps: int, inclusive: bool): Result<ComputedTaxAmount> {
    if !ValidTaxAmount(amount) || !ValidTaxRate(rateBps) then Err(Validation)
    else
      assert amount * rateBps >= 0;
      var tax := HalfUp(amount * rateBps, Denominator(rateBps, inclusive));
      Ok(ComputedTaxAmount(if inclusive then amount - tax else amount, tax))
  }

  /**
   * Computed exactly for amounts up to the limit and rates up to 100%. An exclusive tax is the rate of the
   * amount, an inclusive one the rate's part of the gross amount, each rounded half-up; what is left of
   * a gross amount, with the rate added to it again, is the gross amount up to that rounding.
   */
  lemma TaxAmountIsNearest(amount: int, rateBps: int, inclusive: bool)
    ensures var c := CalculateTaxAmount(amount, rateBps, inclusive);
            && (c.Ok? <==> 0 <= amount <= 9_223_372_036_854_775_807 && 0 <= rateBps <= 10_000)
            && (c.Ok? ==>
                  var taxable, tax := c.value.taxableAmountMinor, c.value.taxAmountMinor;
                  && 0 <= tax <= amount
                  && (!inclusive ==> taxable == amount && IsNearestUp(amount * rateBps, 10_000, tax))
                  && (inclusive ==>
                        && taxable + tax == amount && IsNearestUp(amount * rateBps, 10_000 + rateBps, tax)
                        && 2 * Abs(taxable * (10_000 + rateBps) - amount * 10_000) <= 10_000 + rateBps))
  {
    if ValidTaxAmount(amount) && ValidTaxRate(rateBps) {
      var d := 10_000 + if inclusive then rateBps else 0;
      assert amount * rateBps >= 0;
      HalfUpIsNearest(amount * rateBps, d);
      TaxBelowAmount(amount, rateBps, d);
      if inclusive {
        GrossAgain(amount, rateBps, HalfUp(amount * rateBps, d));
      }
    }
  }

  lemma GrossAgain(amount: int, rateBps: int, tax: int)
    ensures (amount - tax) * (10_000 + rateBps) - amount * 10_000 == amount * rateBps - tax * (10_000 + rateBps)
  {
  }

  lemma TaxBelowAmount(amount: nat, rateBps: nat, d: int)
    requires rateBps <= d && d > 0
    ensures amount * rateBps >= 0
    ensures 0 <= HalfUp(amount * rateBps, d) <= amount
  {
    assert amount * rateBps >= 0;
    assert amount * rateBps <= amount * d by { assert amount * (d - rateBps) >= 0; }
    HalfUpMonotone(amount * rateBps, amount * d, d);
    HalfUpShift(amount, 0, d);
    HalfUpNonNegative(amount * rateBps, d);
  }

  lemma HalfUpNonNegative(n: nat, d: int)
    requires d > 0
    ensures HalfUp(n, d) >= 0
  {
    HalfUpMonotone(0, n, d);
  }

  datatype TaxShare = TaxShare(id: string, amountMinor: int)

  function Portions(shares: seq<TaxShare>, rateBps: int): (ps: seq<Portion>)
    ensures |ps| == |shares|
    ensures forall i :: 0 <= i < |ps| ==> ps[i] == Portion(shares[i].id, shares[i].amountMinor * rateBps)
  {
    Apply((s: TaxShare) => Portion(s.id, s.amountMinor * rateBps), shares)
  }

  ghost predicate ValidShares(shares: seq<TaxShare>) {
    && (forall s :: s in shares ==> ValidTaxAmount(s.amountMinor))
    && (forall i, j :: 0 <= i < j < |shares| ==> shares[i].id != shares[j].id)
  }

  /** The group's exact sum, rounded once. */
  function GroupTax(shares: seq<TaxShare>, rateBps: int, inclusive: bool): int
    requires ValidTaxRate(rateBps)
  {
    var n := TotalNumerator(Portions(shares, rateBps));
    if n < 0 then 0 else HalfUp(n, Denominator(rateBps, inclusive))
  }

  /** What an invoice allocation must be. */
  ghost predicate IsInvoiceAllocation(shares: seq<TaxShare>, rateBps: int, inclusive: bool, r: map<string, int>) {
    && ValidTaxRate(rateBps)
    && IsLargestRemainder(Portions(shares, rateBps), Denominator(rateBps, inclusive),
                          GroupTax(shares, rateBps, inclusive), r)
  }

  lemma {:induction false} TotalNumeratorNonNegative(ps: seq<Portion>)
    requires forall p :: p in ps ==> p.numerator >= 0
    ensures TotalNumerator(ps) >= 0
  {
    if ps != [] {
      TotalNumeratorNonNegative(ps[1..]);
    }
  }

  lemma PortionsNonNegative(shares: seq<TaxShare>, rateBps: int)
    requires ValidShares(shares) && ValidTaxRate(rateBps)
    ensures forall p :: p in Portions(shares, rateBps) ==> p.numerator >= 0
    ensures DistinctIds(Portions(shares, rateBps))
    ensures TotalNumerator(Portions(shares, rateBps)) >= 0
  {
    var ps := Portions(shares, rateBps);
    forall i | 0 <= i < |ps| ensures ps[i].numerator >= 0 {
      assert shares[i] in shares;
      assert shares[i].amountMinor * rateBps >= 0;
    }
    TotalNumeratorNonNegative(ps);
  }

  /** The remainder to hand out is non-negative and fits the shares with a positive remainder. */
  lemma InvoiceLeftover(ps: seq<Portion>, d: int)
    requires d > 0 && TotalNumerator(ps) >= 0
    requires forall p :: p in ps ==> p.numerator >= 0
    ensures var k := HalfUp(TotalNumerator(ps), d) - TotalFloor(ps, d);
            && 0 <= k <= |ps| == |Ranked(ps, d)|
            && forall i :: 0 <= i < k ==> Remainder(Ranked(ps, d)[i], d) > 0
  {
    var left := SumBy(ps, (p: Portion) => Remainder(p, d));
    NumeratorSplit(ps, d);
    LeftoverBound(ps, d, |ps|);
    FloorsNonNegative(ps, d);
    assert d * TotalFloor(ps, d) == TotalFloor(ps, d) * d;
    HalfUpShift(TotalFloor(ps, d), left, d);
    HalfUpNonNegative(left, d);
    HalfUpIsNearest(left, d);
    LeftoverFits(ps, d, HalfUp(left, d));
  }

  lemma {:induction false} FloorsNonNegative(ps: seq<Portion>, d: int)
    requires d > 0
    requires forall p :: p in ps ==> p.numerator >= 0
    ensures TotalFloor(ps, d) >= 0
  {
    if ps != [] {
      assert ps[0] in ps && ps[0].numerator / d >= 0;
      FloorsNonNegative(ps[1..], d);
    }
  }

  /**
   * Rounds the group's exact sum once, then allocates by largest remainder. Fails exactly on an
   * invalid rate, an invalid amount or a repeated identifier.
   */
  method AllocateInvoiceTax(shares: seq<TaxShare>, rateBps: int, inclusive: bool) returns (r: Result<map<string, int>>)
    ensures r.Ok? <==> ValidTaxRate(rateBps) && ValidShares(shares)
    ensures r.Ok? ==> IsInvoiceAllocation(shares, rateBps, inclusive, r.value)
  {
    if !ValidTaxRate(rateBps) {
      return Err(Validation);
    }
    var denominator := Denominator(rateBps, inclusive);
    var totalNumerator, floors := 0, 0;
    var amounts: map<string, int> := map[];
    var portions: seq<Portion> := [];
    for i := 0 to |shares|
      invariant Collected(shares[..i], rateBps, denominator, portions, totalNumerator, floors, amounts)
    {
      var share := shares[i];
      if !ValidTaxAmount(share.amountMinor) || share.id in amounts {
        InvalidShare(shares, i, amounts, portions, rateBps);
        return Err(Validation);
      }
      var numerator := share.amountMinor * rateBps;
      var floor := numerator / denominator;
      CollectShare(shares[..i], share, rateBps, denominator, portions, totalNumerator, floors, amounts,
                   Portion(share.id, numerator));
      PrefixSnoc(shares, i);
      amounts := amounts[share.id := floor];
      floors := floors + floor;
      totalNumerator := totalNumerator + numerator;
      portions := portions + [Portion(share.id, numerator)];
    }
    assert shares[..|shares|] == shares;
    PortionsNonNegative(shares, rateBps);
    var raised := RaiseToTotal(portions, denominator, amounts, totalNumerator, floors);
    return Ok(raised);
  }

  /** Hands out what one rounding of the sum adds to the floors. */
  method RaiseToTotal(portions: seq<Portion>, d: int, amounts: map<string, int>, totalNumerator: int, floors: int)
    returns (r: map<string, int>)
    requires d > 0 && DistinctIds(portions) && (forall p :: p in portions ==> p.numerator >= 0)
    requires totalNumerator == TotalNumerator(portions) >= 0 && floors == TotalFloor(portions, d)
    requires amounts.Keys == Ids(portions) && forall p :: p in portions ==> Share(amounts, p.id) == Floor(p, d)
    ensures IsLargestRemainder(portions, d, HalfUp(totalNumerator, d), r)
  {
    InvoiceLeftover(portions, d);
    r := RaiseAlong(portions, d, amounts, HalfUp(totalNumerator, d) - floors);
  }

  lemma InvalidShare(shares: seq<TaxShare>, i: nat, amounts: map<string, int>, portions: seq<Portion>, rateBps: int)
    requires i < |shares| && portions == Portions(shares[..i], rateBps) && amounts.Keys == Ids(portions)
    requires !ValidTaxAmount(shares[i].amountMinor) || shares[i].id in amounts
    ensures !ValidShares(shares)
  {
    assert shares[i] in shares;
    if shares[i].id in amounts {
      var p :| p in portions && p.id == shares[i].id;
      var j :| 0 <= j < |portions| && portions[j] == p;
      assert shares[j].id == shares[i].id;
    }
  }

  /** What the first pass has accumulated for the shares it has seen. */
  ghost predicate Collected(shares: seq<TaxShare>, rateBps: int, d: int, portions: seq<Portion>,
                            totalNumerator: int, floors: int, amounts: map<string, int>) {
    && d > 0
    && ValidShares(shares)
    && portions == Portions(shares, rateBps)
    && totalNumerator == TotalNumerator(portions)
    && floors == TotalFloor(portions, d)
    && amounts.Keys == Ids(portions)
    && (forall p :: p in portions ==> Share(amounts, p.id) == Floor(p, d))
  }

  lemma CollectShare(shares: seq<TaxShare>, share: TaxShare, rateBps: int, d: int, portions: seq<Portion>,
                     totalNumerator: int, floors: int, amounts: map<string, int>, p: Portion)
    requires Collected(shares, rateBps, d, portions, totalNumerator, floors, amounts)
    requires ValidTaxAmount(share.amountMinor) && share.id !in amounts
             && p == Portion(share.id, share.amountMinor * rateBps)
    ensures Collected(shares + [share], rateBps, d, portions + [p],
                      totalNumerator + p.numerator, floors + Floor(p, d), amounts[share.id := Floor(p, d)])
  {
    PortionsSnoc(shares, share, rateBps);
    SumBySnoc(portions, p, (p: Portion) => p.numerator);
    SumBySnoc(portions, p, (p: Portion) => Floor(p, d));
    AddPortion(portions, p);
    AddShare(shares, share, rateBps);
    ShareAdded(portions, p, d, amounts, Floor(p, d));
  }

  lemma AddShare(shares: seq<TaxShare>, share: TaxShare, rateBps: int)
    requires ValidShares(shares) && ValidTaxAmount(share.amountMinor) && share.id !in Ids(Portions(shares, rateBps))
    ensures ValidShares(shares + [share])
  {
    var portions := Portions(shares, rateBps);
    forall j | 0 <= j < |shares| ensures shares[j].id != share.id {
      assert portions[j] in portions;
    }
  }

  lemma ShareAdded(portions: seq<Portion>, p: Portion, d: int, amounts: map<string, int>, floor: int)
    requires d > 0 && floor == Floor(p, d) && forall q :: q in portions ==>
             q.id != p.id && Share(amounts, q.id) == Floor(q, d)
    ensures forall q :: q in portions + [p] ==> Share(amounts[p.id := floor], q.id) == Floor(q, d)
  {
  }

  lemma PortionsSnoc(shares: seq<TaxShare>, share: TaxShare, rateBps: int)
    ensures Portions(shares + [share], rateBps)
            == Portions(shares, rateBps) + [Portion(share.id, share.amountMinor * rateBps)]
  {
  }

  lemma AddPortion(ps: seq<Portion>, p: Portion)
    requires p.id !in Ids(ps)
    ensures forall q :: q in ps ==> q.id != p.id
    ensures Ids(ps + [p]) == Ids(ps) + {p.id}
  {
    forall q | q in ps ensures q.id != p.id {
      assert q.id in Ids(ps);
    }
    assert forall q :: q in ps + [p] <==> q in ps || q == p;
  }

  // What the allocation promises

  lemma InvoiceAllocationPermutes(shares: seq<TaxShare>, others: seq<TaxShare>, rateBps: int, inclusive: bool,
                                  r: map<string, int>)
    requires multiset(shares) == multiset(others)
    requires IsInvoiceAllocation(shares, rateBps, inclusive, r)
    ensures IsInvoiceAllocation(others, rateBps, inclusive, r)
  {
    var ps, qs := Portions(shares, rateBps), Portions(others, rateBps);
    ApplyPermutation((s: TaxShare) => Portion(s.id, s.amountMinor * rateBps), shares, others);
    SumByPermutation(ps, qs, (p: Portion) => p.numerator);
    LargestRemainderPermutes(ps, qs, Denominator(rateBps, inclusive), GroupTax(shares, rateBps, inclusive), r);
  }

  /** Any order of the shares gives the same allocation. */
  lemma InvoiceAllocationOrder(shares: seq<TaxShare>, others: seq<TaxShare>, rateBps: int, inclusive: bool,
                               r: map<string, int>, s: map<string, int>)
    requires multiset(shares) == multiset(others)
    requires IsInvoiceAllocation(shares, rateBps, inclusive, r) && IsInvoiceAllocation(others, rateBps, inclusive, s)
    ensures r == s
  {
    InvoiceAllocationPermutes(others, shares, rateBps, inclusive, s);
    var ps := Portions(shares, rateBps);
    LargestRemainderUnique(ps, ps, Denominator(rateBps, inclusive), GroupTax(shares, rateBps, inclusive), r, s);
  }

  function TotalAmount(shares: seq<TaxShare>): int {
    SumBy(shares, (s: TaxShare) => s.amountMinor)
  }

  function TotalTax(shares: seq<TaxShare>, r: map<string, int>): int {
    SumBy(shares, (s: TaxShare) => Share(r, s.id))
  }

  lemma {:induction false} PortionTotals(shares: seq<TaxShare>, rateBps: int, r: map<string, int>)
    ensures TotalNumerator(Portions(shares, rateBps)) == TotalAmount(shares) * rateBps
    ensures TotalShare(Portions(shares, rateBps), r) == TotalTax(shares, r)
  {
    if shares != [] {
      PortionTotals(shares[1..], rateBps, r);
      assert Portions(shares, rateBps)[1..] == Portions(shares[1..], rateBps);
      assert TotalAmount(shares) * rateBps == shares[0].amountMinor * rateBps + TotalAmount(shares[1..]) * rateBps;
    }
  }

  /** The shares of a group add up to the tax on the sum of its amounts, rounded once. */
  lemma InvoiceTotalIsNearest(shares: seq<TaxShare>, rateBps: int, inclusive: bool, r: map<string, int>)
    requires ValidShares(shares) && IsInvoiceAllocation(shares, rateBps, inclusive, r)
    ensures !inclusive ==> IsNearestUp(TotalAmount(shares) * rateBps, 10_000, TotalTax(shares, r))
    ensures inclusive ==> IsNearestUp(TotalAmount(shares) * rateBps, 10_000 + rateBps, TotalTax(shares, r))
  {
    PortionsNonNegative(shares, rateBps);
    PortionTotals(shares, rateBps, r);
    NearestOf(TotalAmount(shares) * rateBps, rateBps, inclusive, TotalTax(shares, r));
  }

  lemma NearestOf(n: nat, rateBps: int, inclusive: bool, tax: int)
    requires ValidTaxRate(rateBps) && tax == HalfUp(n, Denominator(rateBps, inclusive))
    ensures !inclusive ==> IsNearestUp(n, 10_000, tax)
    ensures inclusive ==> IsNearestUp(n, 10_000 + rateBps, tax)
  {
    HalfUpIsNearest(n, Denominator(rateBps, inclusive));
  }

  lemma RaisedBefore(ps: seq<Portion>, d: int, target: int, r: map<string, int>, p: Portion, q: Portion)
    requires IsLargestRemainder(ps, d, target, r) && p in ps && q in ps
    ensures Share(r, p.id) == Floor(p, d) || (Share(r, p.id) == Floor(p, d) + 1 && Remainder(p, d) > 0)
    ensures Share(r, p.id) > Floor(p, d) && Share(r, q.id) == Floor(q, d) ==>
            Remainder(p, d) > Remainder(q, d) || (Remainder(p, d) == Remainder(q, d) && Less(p.id, q.id))
  {
    assert Raised(p, d, r) && !Raised(q, d, r) ==> Before(p, q, d);
  }

  /** Each share is its exact tax cut off, or one more; the larger cut-off parts go first, then the smaller ids. */
  lemma InvoiceSharesAreNear(shares: seq<TaxShare>, rateBps: int, inclusive: bool, r: map<string, int>, a: TaxShare,
                             b: TaxShare)
    requires IsInvoiceAllocation(shares, rateBps, inclusive, r) && a in shares && b in shares
    ensures var d := if inclusive then 10_000 + rateBps else 10_000;
            var exactA, exactB := a.amountMinor * rateBps, b.amountMinor * rateBps;
            && (Share(r, a.id) == exactA / d || (Share(r, a.id) == exactA / d + 1 && exactA % d > 0))
            && (Share(r, a.id) > exactA / d && Share(r, b.id) == exactB / d ==>
                  exactA % d > exactB % d || (exactA % d == exactB % d && Less(a.id, b.id)))
  {
    var ps := Portions(shares, rateBps);
    var i :| 0 <= i < |shares| && shares[i] == a;
    var j :| 0 <= j < |shares| && shares[j] == b;
    assert ps[i] in ps && ps[j] in ps;
    RaisedBefore(ps, Denominator(rateBps, inclusive), GroupTax(shares, rateBps, inclusive), r, ps[i], ps[j]);
  }

  lemma ValidSharesPermute(shares: seq<TaxShare>, others: seq<TaxShare>)
    requires multiset(shares) == multiset(others) && ValidShares(shares)
    ensures ValidShares(others)
  {
    SameMembers(shares, others);
    var f := (s: TaxShare) => Portion(s.id, s.amountMinor);
    ApplyPermutation(f, shares, others);
    MultisetDistinct(Apply(f, shares), Apply(f, others));
    assert forall i :: 0 <= i < |others| ==> others[i].id == Apply(f, others)[i].id;
  }

  /** A group of one line gets exactly the tax computed for that line alone. */
  lemma SingleShareAgrees(share: TaxShare, rateBps: int, inclusive: bool, r: map<string, int>)
    requires ValidTaxAmount(share.amountMinor)
    requires IsInvoiceAllocation([share], rateBps, inclusive, r)
    ensures CalculateTaxAmount(share.amountMinor, rateBps, inclusive).Ok?
    ensures r == map[share.id := CalculateTaxAmount(share.amountMinor, rateBps, inclusive).value.taxAmountMinor]
  {
    var ps := Portions([share], rateBps);
    assert ps == [Portion(share.id, share.amountMinor * rateBps)];
    SumByOne(ps[0], (p: Portion) => p.numerator);
    SumByOne(ps[0], (p: Portion) => Share(r, p.id));
    assert share.amountMinor * rateBps >= 0;
    assert r.Keys == {share.id};
  }

  /** Every share of an allocation is non-negative and at most its amount. */
  lemma InvoiceShareBounds(shares: seq<TaxShare>, rateBps: int, inclusive: bool, r: map<string, int>, share: TaxShare)
    requires ValidShares(shares) && IsInvoiceAllocation(shares, rateBps, inclusive, r)
    requires share in shares
    ensures 0 <= Share(r, share.id) <= share.amountMinor
  {
    var d := Denominator(rateBps, inclusive);
    var i :| 0 <= i < |shares| && shares[i] == share;
    var n := share.amountMinor * rateBps;
    var p := Portion(share.id, n);
    assert Portions(shares, rateBps)[i] == p;
    ExactBelow(share.amountMinor, rateBps, d);
    FloorBelow(n, d, share.amountMinor);
  }

  lemma ExactBelow(amount: nat, rateBps: nat, d: int)
    requires rateBps <= d
    ensures 0 <= amount * rateBps <= amount * d
  {
    assert amount * d - amount * rateBps == amount * (d - rateBps);
  }
}
