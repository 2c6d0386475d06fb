/** Proportional allocation of a discount over the lines of an order. */
module ProportionalShares {
  import opened Sums
  import opened TextOrder
  import opened Sorting
  import opened Rounding
  import opened Allocation

  datatype Weight = Weight(id: string, weight: int)

  /** BigInt division by either sign: toward zero. */
  function Quotient(n: int, d: int): int
    requires d != 0
  {
    if d > 0 then TruncDiv(n, d) else TruncDiv(-n, -d)
  }

  /** What it leaves, with the sign of the dividend. */
  function Rest(n: int, d: int): int
    requires d != 0
  {
    n - d * Quotient(n, d)
  }

  function WeightPortions(total: int, weights: seq<Weight>): (ps: seq<Portion>)
    ensures |ps| == |weights|
    ensures forall i :: 0 <= i < |ps| ==> ps[i] == Portion(weights[i].id, total * weights[i].weight)
  {
    Apply((w: Weight) => Portion(w.id, total * w.weight), weights)
  }

  function TotalWeight(weights: seq<Weight>): int {
    SumBy(weights, (w: Weight) => w.weight)
  }

  // The computation, for every total and all weights

  predicate RestLe(p: Portion, q: Portion, d: int)
    requires d != 0
  {
    !(Rest(q.numerator, d) > Rest(p.numerator, d)
      || (Rest(q.numerator, d) == Rest(p.numerator, d) && Less(q.id, p.id)))
  }

  function ByRest(ps: seq<Portion>, d: int): seq<Portion>
    requires d != 0
  {
    SortBy(ps, (p, q) => RestLe(p, q, d))
  }

  /** The truncated shares; a repeated identifier overwrites. */
  function Shares(ps: seq<Portion>, d: int): map<string, int>
    requires d != 0
  {
    if ps == [] then map[]
    else Shares(ps[..|ps| - 1], d)[ps[|ps| - 1].id := Quotient(ps[|ps| - 1].numerator, d)]
  }

  function Distributed(ps: seq<Portion>, d: int): int
    requires d != 0
  {
    SumBy(ps, (p: Portion) => Quotient(p.numerator, d))
  }

  /** One unit each along the list until nothing is left, or the list ends. */
  function Raise(ps: seq<Portion>, left: int, r: map<string, int>): map<string, int> {
    if ps == [] || left == 0 then r
    else Raise(ps[1..], left - 1, r[ps[0].id := Share(r, ps[0].id) + 1])
  }

  function Proportional(total: int, weights: seq<Weight>): map<string, int> {
    var ps, d := WeightPortions(total, weights), TotalWeight(weights);
    if total == 0 || d == 0 then map w | w in weights :: w.id := 0
    else Raise(ByRest(ps, d), total - Distributed(ps, d), Shares(ps, d))
  }

  /** Any total over any weights; by largest remainder where that rule is defined. */
  method AllocateProportionally(total: int, weights: seq<Weight>) returns (r: map<string, int>)
    ensures r == Proportional(total, weights)
    ensures total >= 0 && ValidWeights(weights) ==> IsProportional(total, weights, r)
  {
    if total >= 0 && ValidWeights(weights) {
      ProportionalIsLargestRemainder(total, weights);
    }
    var totalWeight := TotalWeight(weights);
    if total == 0 || totalWeight == 0 {
      return map w | w in weights :: w.id := 0;
    }
    ghost var ps := WeightPortions(total, weights);
    var portions: seq<Portion> := [];
    var distributed := 0;
    var allocation: map<string, int> := map[];
    for i := 0 to |weights|
      invariant portions == ps[..i]
      invariant distributed == Distributed(portions, totalWeight) && allocation == Shares(portions, totalWeight)
    {
      var n := total * weights[i].weight;
      var base := Quotient(n, totalWeight);
      PrefixSnoc(ps, i);
      SharesSnoc(portions, Portion(weights[i].id, n), totalWeight);
      portions := portions + [Portion(weights[i].id, n)];
      distributed := distributed + base;
      allocation := allocation[weights[i].id := base];
    }
    assert portions == ps;
    r := RaiseInOrder(ByRest(portions, totalWeight), total - distributed, allocation);
  }

  method RaiseInOrder(ranked: seq<Portion>, units: int, floors: map<string, int>) returns (r: map<string, int>)
    ensures r == Raise(ranked, units, floors)
  {
    r := floors;
    var left := units;
    var k := 0;
    while k < |ranked| && left != 0
      invariant 0 <= k <= |ranked|
      invariant Raise(ranked[k..], left, r) == Raise(ranked, units, floors)
    {
      assert ranked[k..][1..] == ranked[k + 1..];
      r := r[ranked[k].id := Share(r, ranked[k].id) + 1];
      left := left - 1;
      k := k + 1;
    }
  }

  lemma SharesSnoc(ps: seq<Portion>, p: Portion, d: int)
    requires d != 0
    ensures Shares(ps + [p], d) == Shares(ps, d)[p.id := Quotient(p.numerator, d)]
    ensures Distributed(ps + [p], d) == Distributed(ps, d) + Quotient(p.numerator, d)
  {
    assert (ps + [p])[..|ps + [p]| - 1] == ps;
    SumBySnoc(ps, p, (p: Portion) => Quotient(p.numerator, d));
  }

  // The largest-remainder rule for non-negative totals and weights

  ghost predicate ValidWeights(weights: seq<Weight>) {
    && (forall w :: w in weights ==> w.weight >= 0)
    && (forall i, j :: 0 <= i < j < |weights| ==> weights[i].id != weights[j].id)
  }

  /** Zero shares when there is nothing to allocate or nothing to weigh it by, else the largest-remainder rule. */
  ghost predicate IsProportional(total: int, weights: seq<Weight>, r: map<string, int>) {
    if total == 0 || TotalWeight(weights) == 0 then
      r.Keys == (set w | w in weights :: w.id) && forall x :: x in r ==> r[x] == 0
    else IsLargestRemainder(WeightPortions(total, weights), TotalWeight(weights), total, r)
  }

  lemma {:induction false} WeightsNonNegative(weights: seq<Weight>)
    requires forall w :: w in weights ==> w.weight >= 0
    ensures TotalWeight(weights) >= 0
    ensures forall w :: w in weights ==> w.weight <= TotalWeight(weights)
  {
    if weights != [] {
      WeightsNonNegative(weights[1..]);
    }
  }

  lemma {:induction false} WeightedNumerators(total: int, weights: seq<Weight>)
    ensures TotalNumerator(WeightPortions(total, weights)) == total * TotalWeight(weights)
  {
    if weights != [] {
      WeightedNumerators(total, weights[1..]);
      var ps := WeightPortions(total, weights);
      assert ps[1..] == WeightPortions(total, weights[1..]);
      assert total * TotalWeight(weights) == total * weights[0].weight + total * TotalWeight(weights[1..]);
    }
  }

  lemma FactorNonNegative(k: int, d: int)
    requires d > 0 && k * d >= 0
    ensures k >= 0
  {
  }

  lemma ProportionalLeftover(total: nat, weights: seq<Weight>)
    requires ValidWeights(weights) && TotalWeight(weights) > 0
    ensures var ps, d := WeightPortions(total, weights), TotalWeight(weights);
            var k := total - TotalFloor(ps, d);
            && DistinctIds(ps)
            && 0 <= k <= |ps| == |Ranked(ps, d)|
            && forall i :: 0 <= i < k ==> Remainder(Ranked(ps, d)[i], d) > 0
  {
    var ps, d := WeightPortions(total, weights), TotalWeight(weights);
    var left := SumBy(ps, (p: Portion) => Remainder(p, d));
    WeightedNumerators(total, weights);
    NumeratorSplit(ps, d);
    LeftoverBound(ps, d, |ps|);
    var k := total - TotalFloor(ps, d);
    assert k * d == left by { assert d * TotalFloor(ps, d) == TotalFloor(ps, d) * d; }
    FactorNonNegative(k, d);
    LeftoverFits(ps, d, k);
  }

  lemma {:induction false} InsertAgrees(p: Portion, s: seq<Portion>, f: (Portion, Portion) -> bool,
                                        g: (Portion, Portion) -> bool)
    requires forall x :: x in s ==> f(p, x) == g(p, x)
    ensures Insert(p, s, f) == Insert(p, s, g)
  {
    if s != [] {
      InsertAgrees(p, s[1..], f, g);
    }
  }

  /** Orders that agree on the members sort them alike. */
  lemma {:induction false} SortAgrees(s: seq<Portion>, f: (Portion, Portion) -> bool, g: (Portion, Portion) -> bool)
    requires Preorder(g) && forall x, y :: x in s && y in s ==> f(x, y) == g(x, y)
    ensures SortBy(s, f) == SortBy(s, g)
  {
    if s != [] {
      SortAgrees(s[1..], f, g);
      SortByIsSorted(s[1..], g);
      SameMembers(SortBy(s[1..], g), s[1..]);
      InsertAgrees(s[0], SortBy(s[1..], g), f, g);
    }
  }

  lemma TruncatedIsFloor(n: nat, d: int)
    requires d > 0
    ensures Quotient(n, d) == n / d && Rest(n, d) == n % d
  {
  }

  lemma ByRestIsRanked(ps: seq<Portion>, d: int)
    requires d > 0 && forall p :: p in ps ==> p.numerator >= 0
    ensures ByRest(ps, d) == Ranked(ps, d)
  {
    forall p, q | p in ps && q in ps ensures RestLe(p, q, d) == RankLe(p, q, d) {
      TruncatedIsFloor(p.numerator, d);
      TruncatedIsFloor(q.numerator, d);
    }
    RankIsPreorder(d);
    SortAgrees(ps, (p, q) => RestLe(p, q, d), (p, q) => RankLe(p, q, d));
  }

  lemma {:induction false} SharesAreFloors(ps: seq<Portion>, d: int)
    requires d > 0 && DistinctIds(ps) && forall p :: p in ps ==> p.numerator >= 0
    ensures Shares(ps, d).Keys == Ids(ps) && Distributed(ps, d) == TotalFloor(ps, d)
    ensures forall p :: p in ps ==> Share(Shares(ps, d), p.id) == Floor(p, d)
    decreases |ps|
  {
    if ps != [] {
      var front, p := ps[..|ps| - 1], ps[|ps| - 1];
      assert ps == front + [p];
      SharesAreFloors(front, d);
      SharesSnoc(front, p, d);
      SumBySnoc(front, p, (p: Portion) => Floor(p, d));
      TruncatedIsFloor(p.numerator, d);
    }
  }

  lemma {:induction false} RaiseSpreads(ranked: seq<Portion>, d: int, j: nat, k: nat, r: map<string, int>)
    requires DistinctIds(ranked) && j <= k <= |ranked| && SpreadAlong(ranked, d, j, r)
    ensures SpreadAlong(ranked, d, k, Raise(ranked[j..], k - j, r))
    decreases k - j
  {
    if j < k {
      SpreadOneMore(ranked, d, j, r);
      assert ranked[j..][1..] == ranked[j + 1..];
      RaiseSpreads(ranked, d, j + 1, k, r[ranked[j].id := Share(r, ranked[j].id) + 1]);
    }
  }

  lemma SpreadFromFloors(ps: seq<Portion>, d: int, r: map<string, int>)
    requires d > 0 && DistinctIds(ps) && r.Keys == Ids(ps) && forall p :: p in ps ==> Share(r, p.id) == Floor(p, d)
    ensures DistinctIds(Ranked(ps, d)) && SpreadAlong(Ranked(ps, d), d, 0, r)
  {
    RankedIsSorted(ps, d);
    MultisetDistinct(ps, Ranked(ps, d));
    SameMembers(ps, Ranked(ps, d));
  }

  lemma RaisedFromFloors(ranked: seq<Portion>, d: int, k: nat, floors: map<string, int>)
    requires DistinctIds(ranked) && k <= |ranked| && SpreadAlong(ranked, d, 0, floors)
    ensures SpreadAlong(ranked, d, k, Raise(ranked, k, floors))
  {
    assert ranked[0..] == ranked;
    RaiseSpreads(ranked, d, 0, k, floors);
  }

  lemma RaisedIsLargestRemainder(ps: seq<Portion>, d: int, k: nat, floors: map<string, int>, r: map<string, int>)
    requires d > 0 && DistinctIds(ps) && k <= |ps| == |Ranked(ps, d)|
    requires floors.Keys == Ids(ps) && forall p :: p in ps ==> Share(floors, p.id) == Floor(p, d)
    requires forall i :: 0 <= i < k ==> Remainder(Ranked(ps, d)[i], d) > 0
    requires r == Raise(Ranked(ps, d), k, floors)
    ensures IsLargestRemainder(ps, d, TotalFloor(ps, d) + k, r)
  {
    SpreadFromFloors(ps, d, floors);
    RaisedFromFloors(Ranked(ps, d), d, k, floors);
    SpreadIsLargestRemainder(ps, d, k, r);
  }

  lemma ComputedIsLargestRemainder(ps: seq<Portion>, d: int, total: int)
    requires d > 0 && DistinctIds(ps) && (forall p :: p in ps ==> p.numerator >= 0)
    requires 0 <= total - TotalFloor(ps, d) <= |ps| == |Ranked(ps, d)|
    requires forall i :: 0 <= i < total - TotalFloor(ps, d) ==> Remainder(Ranked(ps, d)[i], d) > 0
    ensures IsLargestRemainder(ps, d, total, Raise(ByRest(ps, d), total - Distributed(ps, d), Shares(ps, d)))
  {
    SharesAreFloors(ps, d);
    ByRestIsRanked(ps, d);
    RaisedIsLargestRemainder(ps, d, total - TotalFloor(ps, d), Shares(ps, d),
                             Raise(ByRest(ps, d), total - Distributed(ps, d), Shares(ps, d)));
  }

  lemma ProportionalIs(total: int, weights: seq<Weight>, ps: seq<Portion>, d: int)
    requires total != 0 && d != 0 && ps == WeightPortions(total, weights) && d == TotalWeight(weights)
    ensures Proportional(total, weights) == Raise(ByRest(ps, d), total - Distributed(ps, d), Shares(ps, d))
  {
  }

  lemma PositiveIsLargestRemainder(total: int, weights: seq<Weight>, ps: seq<Portion>, d: int)
    requires ValidWeights(weights) && total > 0 && d > 0 && ps == WeightPortions(total, weights)
             && d == TotalWeight(weights)
    ensures IsLargestRemainder(ps, d, total, Raise(ByRest(ps, d), total - Distributed(ps, d), Shares(ps, d)))
  {
    ProportionalLeftover(total, weights);
    NumeratorSigns(total, weights);
    var k := total - TotalFloor(ps, d);
    assert DistinctIds(ps) && 0 <= k <= |ps| == |Ranked(ps, d)|;
    assert forall i :: 0 <= i < k ==> Remainder(Ranked(ps, d)[i], d) > 0;
    ComputedIsLargestRemainder(ps, d, total);
  }

  lemma NothingToSpread(total: int, weights: seq<Weight>)
    requires total == 0 || TotalWeight(weights) == 0
    ensures IsProportional(total, weights, Proportional(total, weights))
  {
  }

  lemma RuleIsProportional(total: int, weights: seq<Weight>, ps: seq<Portion>, d: int, r: map<string, int>)
    requires total > 0 && d > 0 && ps == WeightPortions(total, weights) && d == TotalWeight(weights)
    requires IsLargestRemainder(ps, d, total, r)
    ensures IsProportional(total, weights, r)
  {
  }

  /** The truncating computation obeys the rule. */
  lemma ProportionalIsLargestRemainder(total: nat, weights: seq<Weight>)
    requires ValidWeights(weights)
    ensures IsProportional(total, weights, Proportional(total, weights))
  {
    var ps, d, r := WeightPortions(total, weights), TotalWeight(weights), Proportional(total, weights);
    if total == 0 || d == 0 {
      NothingToSpread(total, weights);
    } else {
      assert d > 0 by { WeightsNonNegative(weights); }
      ProportionalIs(total, weights, ps, d);
      PositiveIsLargestRemainder(total, weights, ps, d);
      RuleIsProportional(total, weights, ps, d, r);
    }
  }

  function WeightShares(weights: seq<Weight>, r: map<string, int>): int {
    SumBy(weights, (w: Weight) => Share(r, w.id))
  }

  lemma {:induction false} PortionShares(total: int, weights: seq<Weight>, r: map<string, int>)
    ensures TotalShare(WeightPortions(total, weights), r) == WeightShares(weights, r)
  {
    if weights != [] {
      PortionShares(total, weights[1..], r);
      assert WeightPortions(total, weights)[1..] == WeightPortions(total, weights[1..]);
    }
  }

  lemma {:induction false} ZeroShares(weights: seq<Weight>, r: map<string, int>)
    requires forall x :: x in r ==> r[x] == 0
    ensures WeightShares(weights, r) == 0
  {
    if weights != [] {
      ZeroShares(weights[1..], r);
    }
  }

  /** The shares add up exactly; no line gets more than its amount, and a zero line gets nothing. */
  lemma ProportionalExact(total: nat, weights: seq<Weight>, r: map<string, int>)
    requires ValidWeights(weights) && total <= TotalWeight(weights) && IsProportional(total, weights, r)
    ensures WeightShares(weights, r) == total
    ensures forall w :: w in weights ==> 0 <= Share(r, w.id) <= w.weight
  {
    var d := TotalWeight(weights);
    if total == 0 || d == 0 {
      ZeroShares(weights, r);
    } else {
      PortionShares(total, weights, r);
      WeightsNonNegative(weights);
      forall i | 0 <= i < |weights| ensures 0 <= Share(r, weights[i].id) <= weights[i].weight {
        assert weights[i] in weights;
        var p := WeightPortions(total, weights)[i];
        assert p in WeightPortions(total, weights);
        ScaledBelow(total, weights[i].weight, d);
        FloorBelow(p.numerator, d, weights[i].weight);
      }
    }
  }

  lemma ScaledBelow(total: nat, w: nat, d: nat)
    requires total <= d
    ensures 0 <= total * w <= w * d
  {
    assert w * d - total * w == w * (d - total);
  }

  // When the shares add up to the total

  /** The sum of the values of a map. */
  ghost function MapTotal(r: map<string, int>): int
    decreases |r|
  {
    if r == map[] then 0
    else
      var x :| x in r;
      r[x] + MapTotal(r - {x})
  }

  lemma {:induction false} MapTotalWithout(r: map<string, int>, x: string)
    requires x in r
    ensures MapTotal(r) == r[x] + MapTotal(r - {x})
    decreases |r|
  {
    var y :| y in r && MapTotal(r) == r[y] + MapTotal(r - {y});
    if y != x {
      MapTotalWithout(r - {y}, x);
      MapTotalWithout(r - {x}, y);
      assert r - {y} - {x} == r - {x} - {y};
    }
  }

  lemma MapTotalSet(r: map<string, int>, x: string, v: int)
    ensures MapTotal(r[x := v]) == MapTotal(r) - Share(r, x) + v
  {
    MapTotalWithout(r[x := v], x);
    assert r[x := v] - {x} == r - {x};
    if x in r {
      MapTotalWithout(r, x);
    } else {
      assert r - {x} == r;
    }
  }

  /** What the shares of repeated identifiers lose when a later one takes their place. */
  function Overwritten(ps: seq<Portion>, d: int): int
    requires d != 0
  {
    if ps == [] then 0
    else Overwritten(ps[..|ps| - 1], d) + Share(Shares(ps[..|ps| - 1], d), ps[|ps| - 1].id)
  }

  lemma {:induction false} SharesTotal(ps: seq<Portion>, d: int)
    requires d != 0
    ensures MapTotal(Shares(ps, d)) == Distributed(ps, d) - Overwritten(ps, d)
    decreases |ps|
  {
    if ps != [] {
      var front, p := ps[..|ps| - 1], ps[|ps| - 1];
      assert ps == front + [p];
      SharesTotal(front, d);
      SharesSnoc(front, p, d);
      MapTotalSet(Shares(front, d), p.id, Quotient(p.numerator, d));
    }
  }

  lemma {:induction false} RaiseTotal(ps: seq<Portion>, left: int, r: map<string, int>)
    ensures MapTotal(Raise(ps, left, r)) == MapTotal(r) + if 0 <= left <= |ps| then left else |ps|
    decreases |ps|
  {
    if ps != [] && left != 0 {
      var next := r[ps[0].id := Share(r, ps[0].id) + 1];
      MapTotalSet(r, ps[0].id, Share(r, ps[0].id) + 1);
      RaiseTotal(ps[1..], left - 1, next);
    }
  }

  lemma TruncatedRest(n: int, d: int)
    requires d > 0
    ensures n - d * TruncDiv(n, d) == if n >= 0 then n % d else -((-n) % d)
  {
    if n < 0 {
      assert -n == d * ((-n) / d) + (-n) % d;
      MulNegate((-n) / d, d);
    }
  }

  /** The rest by either sign of the divisor. */
  lemma RestIs(n: int, d: int)
    requires d != 0
    ensures Rest(n, d) == if n >= 0 then n % Abs(d) else -((-n) % Abs(d))
  {
    if d > 0 {
      TruncatedRest(n, d);
    } else {
      TruncatedRest(-n, -d);
      MulNegate(TruncDiv(-n, -d), d);
    }
  }

  lemma RestBound(n: int, d: int)
    requires d != 0
    ensures Abs(Rest(n, d)) < Abs(d)
    ensures (n >= 0 ==> Rest(n, d) >= 0) && (n <= 0 ==> Rest(n, d) <= 0)
  {
    RestIs(n, d);
  }

  function TotalRest(ps: seq<Portion>, d: int): int
    requires d != 0
  {
    SumBy(ps, (p: Portion) => Rest(p.numerator, d))
  }

  lemma {:induction false} TotalRestBound(ps: seq<Portion>, d: int)
    requires d != 0
    ensures Abs(TotalRest(ps, d)) <= |ps| * Abs(d)
  {
    if ps != [] {
      RestBound(ps[0].numerator, d);
      TotalRestBound(ps[1..], d);
      assert |ps| * Abs(d) == |ps[1..]| * Abs(d) + Abs(d);
    }
  }

  lemma RestSplit(ps: seq<Portion>, d: int)
    requires d != 0
    ensures TotalNumerator(ps) == d * Distributed(ps, d) + TotalRest(ps, d)
  {
    SumByLinear(ps, (p: Portion) => p.numerator, (p: Portion) => Quotient(p.numerator, d), d,
                (p: Portion) => Rest(p.numerator, d));
  }

  lemma FactorBound(left: int, d: int, n: nat)
    requires d != 0 && Abs(d * left) <= n * Abs(d)
    ensures Abs(left) <= n
  {
    AbsProduct(left, d);
    if Abs(left) > n {
      MulGap(n, Abs(left), Abs(d));
    }
  }

  lemma AbsProduct(x: int, d: int)
    ensures Abs(x) * Abs(d) == Abs(d * x)
  {
    MulNegate(x, d);
    MulNegate(d, x);
    assert -x * -d == x * d;
    if d * x > 0 {
      assert x > 0 <==> d > 0;
    }
  }

  /** The units left over, and that they never outnumber the weights. */
  lemma LeftoverIsRest(total: int, weights: seq<Weight>)
    requires TotalWeight(weights) != 0
    ensures var ps, d := WeightPortions(total, weights), TotalWeight(weights);
            && d * (total - Distributed(ps, d)) == TotalRest(ps, d)
            && Abs(total - Distributed(ps, d)) <= |weights|
  {
    var ps, d := WeightPortions(total, weights), TotalWeight(weights);
    WeightedNumerators(total, weights);
    RestSplit(ps, d);
    TotalRestBound(ps, d);
    assert d * (total - Distributed(ps, d)) == total * d - d * Distributed(ps, d);
    FactorBound(total - Distributed(ps, d), d, |ps|);
  }

  lemma SortedLength(ps: seq<Portion>, d: int)
    requires d != 0
    ensures |ByRest(ps, d)| == |ps|
  {
    SortLength(ps, (p, q) => RestLe(p, q, d));
  }

  lemma {:induction false} SortLength(ps: seq<Portion>, le: (Portion, Portion) -> bool)
    ensures |SortBy(ps, le)| == |ps|
  {
    if ps != [] {
      SortLength(ps[1..], le);
      InsertMembers(ps[0], SortBy(ps[1..], le), le);
      assert |Insert(ps[0], SortBy(ps[1..], le), le)| == |multiset(Insert(ps[0], SortBy(ps[1..], le), le))|;
    }
  }

  lemma {:induction false} AllZero(r: map<string, int>)
    requires forall x :: x in r ==> r[x] == 0
    ensures MapTotal(r) == 0
    decreases |r|
  {
    if r != map[] {
      var x :| x in r;
      MapTotalWithout(r, x);
      AllZero(r - {x});
    }
  }

  /**
   * For any total and any weights: the shares add up to the total exactly when no share is overwritten
   * and the truncated shares do not exceed the total, or both defects happen to cancel out.
   */
  lemma AddsUpExactlyWhen(total: int, weights: seq<Weight>)
    ensures MapTotal(Proportional(total, weights)) == total <==>
            if total == 0 || TotalWeight(weights) == 0 then total == 0
            else
              var ps, d := WeightPortions(total, weights), TotalWeight(weights);
              var left := total - Distributed(ps, d);
              Overwritten(ps, d) == if left >= 0 then 0 else |weights| - left
  {
    var ps, d := WeightPortions(total, weights), TotalWeight(weights);
    if total == 0 || d == 0 {
      AllZero(Proportional(total, weights));
    } else {
      LeftoverIsRest(total, weights);
      SharesTotal(ps, d);
      SortedLength(ps, d);
      RaiseTotal(ByRest(ps, d), total - Distributed(ps, d), Shares(ps, d));
    }
  }

  lemma {:induction false} NothingOverwritten(ps: seq<Portion>, d: int)
    requires d != 0 && DistinctIds(ps)
    ensures Overwritten(ps, d) == 0 && Shares(ps, d).Keys == Ids(ps)
    decreases |ps|
  {
    if ps != [] {
      var front, p := ps[..|ps| - 1], ps[|ps| - 1];
      assert ps == front + [p];
      NothingOverwritten(front, d);
    }
  }

  lemma {:induction false} RestSigns(ps: seq<Portion>, d: int)
    requires d != 0
    ensures (forall p :: p in ps ==> p.numerator >= 0) ==> TotalRest(ps, d) >= 0
    ensures (forall p :: p in ps ==> p.numerator <= 0) ==>
              TotalRest(ps, d) <= 0 && (TotalRest(ps, d) == 0 <==> forall p :: p in ps ==> Rest(p.numerator, d) == 0)
  {
    if ps != [] {
      RestBound(ps[0].numerator, d);
      RestSigns(ps[1..], d);
      assert ps[0] in ps && forall p :: p in ps ==> p == ps[0] || p in ps[1..];
    }
  }

  lemma RestZero(n: int, d: int)
    requires d > 0
    ensures Rest(n, d) == 0 <==> n % d == 0
  {
    var q := Quotient(n, d);
    if n < 0 {
      assert -n == d * ((-n) / d) + (-n) % d;
      NegatedRemainder(n, d);
    }
  }

  lemma NegatedRemainder(n: int, d: int)
    requires d > 0
    ensures n % d == 0 <==> (-n) % d == 0
  {
    if n % d == 0 {
      ZeroRemainder(n, d);
    }
    if (-n) % d == 0 {
      ZeroRemainder(-n, d);
    }
  }

  lemma ZeroRemainder(n: int, d: int)
    requires d > 0 && n % d == 0
    ensures (-n) % d == 0
  {
    var q := n / d;
    assert n == d * q && -n == d * -q + 0;
    if (-n) / d < -q {
      MulGap((-n) / d, -q, d);
    } else if (-n) / d > -q {
      MulGap(-q, (-n) / d, d);
    }
  }

  /** Every weighted share comes out whole. */
  ghost predicate DividesExactly(total: int, weights: seq<Weight>)
    requires TotalWeight(weights) > 0
  {
    forall w :: w in weights ==> total * w.weight % TotalWeight(weights) == 0
  }

  lemma WholeRests(total: int, weights: seq<Weight>)
    requires TotalWeight(weights) > 0
    ensures DividesExactly(total, weights) <==>
            forall p :: p in WeightPortions(total, weights) ==> Rest(p.numerator, TotalWeight(weights)) == 0
  {
    var ps, d := WeightPortions(total, weights), TotalWeight(weights);
    forall i | 0 <= i < |ps|
      ensures ps[i] in ps && weights[i] in weights
              && (Rest(ps[i].numerator, d) == 0 <==> total * weights[i].weight % d == 0)
    {
      RestZero(ps[i].numerator, d);
    }
    if DividesExactly(total, weights) {
      forall p | p in ps ensures Rest(p.numerator, d) == 0 {
        var i :| 0 <= i < |ps| && ps[i] == p;
      }
    }
    if forall p :: p in ps ==> Rest(p.numerator, d) == 0 {
      forall w | w in weights ensures total * w.weight % d == 0 {
        var i :| 0 <= i < |weights| && weights[i] == w;
      }
    }
  }

  lemma ProductSign(total: int, w: nat)
    ensures (total >= 0 ==> total * w >= 0) && (total <= 0 ==> total * w <= 0)
  {
  }

  lemma NumeratorSigns(total: int, weights: seq<Weight>)
    requires ValidWeights(weights)
    ensures total >= 0 ==> forall p :: p in WeightPortions(total, weights) ==> p.numerator >= 0
    ensures total <= 0 ==> forall p :: p in WeightPortions(total, weights) ==> p.numerator <= 0
  {
    var ps := WeightPortions(total, weights);
    forall i | 0 <= i < |ps| ensures total >= 0 ==> ps[i].numerator >= 0 ensures total <= 0 ==> ps[i].numerator <= 0 {
      assert weights[i] in weights;
      ProductSign(total, weights[i].weight);
    }
  }

  /**
   * With something to weigh by, the truncated shares stay within a positive total, and within a negative
   * one if whole.
   */
  lemma WithinTotalExactlyWhen(total: int, weights: seq<Weight>)
    requires ValidWeights(weights) && TotalWeight(weights) > 0
    ensures Distributed(WeightPortions(total, weights), TotalWeight(weights)) <= total <==>
            total >= 0 || DividesExactly(total, weights)
  {
    var ps, d := WeightPortions(total, weights), TotalWeight(weights);
    LeftoverIsRest(total, weights);
    NumeratorSigns(total, weights);
    RestSigns(ps, d);
    WholeRests(total, weights);
    SignOfLeftover(total - Distributed(ps, d), d, TotalRest(ps, d));
  }

  /**
   * Over distinct lines of non-negative amounts: a positive total is always handed out in full when
   * anything can be weighed, and a negative one exactly when every share comes out whole.
   */
  lemma LinesAddUpExactlyWhen(total: int, weights: seq<Weight>)
    requires ValidWeights(weights)
    ensures MapTotal(Proportional(total, weights)) == total <==>
            total == 0 || (TotalWeight(weights) > 0 && (total > 0 || DividesExactly(total, weights)))
  {
    WeightsNonNegative(weights);
    AddsUpExactlyWhen(total, weights);
    if total != 0 && TotalWeight(weights) != 0 {
      LeftoverIsRest(total, weights);
      NothingOverwritten(WeightPortions(total, weights), TotalWeight(weights));
      WithinTotalExactlyWhen(total, weights);
    }
  }

  lemma SignOfLeftover(left: int, d: int, rest: int)
    requires d > 0 && d * left == rest
    ensures (left >= 0 <==> rest >= 0) && (left == 0 <==> rest == 0)
  {
    if left > 0 {
      MulAtLeast(left, d);
    } else if left < 0 {
      MulAtLeast(-left, d);
    }
  }

  /** One unit taken back from two equal lines gives one unit to each of them instead. */
  lemma NegativeTotalOvershoots()
    ensures var weights := [Weight("a", 1), Weight("b", 1)];
            ValidWeights(weights) && MapTotal(Proportional(-1, weights)) != -1
  {
    var weights := [Weight("a", 1), Weight("b", 1)];
    assert weights[1..] == [Weight("b", 1)] && weights[1..][1..] == [];
    assert TotalWeight(weights) == 2;
    assert weights[0] in weights && -1 * weights[0].weight % 2 == 1;
    LinesAddUpExactlyWhen(-1, weights);
  }

  /** A line listed twice keeps only its second share. */
  lemma RepeatedLineLosesShare()
    ensures MapTotal(Proportional(2, [Weight("a", 1), Weight("a", 1)])) != 2
  {
    var weights := [Weight("a", 1), Weight("a", 1)];
    assert weights[1..] == [Weight("a", 1)] && weights[1..][1..] == [];
    assert TotalWeight(weights) == 2;
    var p := Portion("a", 2);
    assert WeightPortions(2, weights) == [p, p];
    assert Quotient(2, 2) == 1;
    SharesSnoc([], p, 2);
    SharesSnoc([p], p, 2);
    assert [] + [p] == [p] && [p] + [p] == [p, p] && [p, p][..1] == [p] && [p][..0] == [];
    AddsUpExactlyWhen(2, weights);
  }
}
