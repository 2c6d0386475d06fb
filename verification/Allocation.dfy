/**
 * Largest-remainder allocation. Both allocators of the system (invoice tax and order discounts)
 * split a whole target over portions `numerator / d`: every portion gets its floor, and the units
 * left over go to the largest remainders, ties to the smaller identifier.
 */
module Allocation {
  import opened Sums
  import opened TextOrder
  import opened Sorting
  import opened Rounding

  datatype Portion = Portion(id: string, numerator: int)

  function Floor(p: Portion, d: int): int
    requires d > 0
  {
    p.numerator / d
  }

  function Remainder(p: Portion, d: int): int
    requires d > 0
  {
    p.numerator % d
  }

  ghost predicate DistinctIds(ps: seq<Portion>) {
    forall i, j :: 0 <= i < j < |ps| ==> ps[i].id != ps[j].id
  }

  function Ids(ps: seq<Portion>): set<string> {
    set p | p in ps :: p.id
  }

  function Share(r: map<string, int>, id: string): int {
    if id in r then r[id] else 0
  }

  function TotalShare(ps: seq<Portion>, r: map<string, int>): int {
    SumBy(ps, (p: Portion) => Share(r, p.id))
  }

  function TotalNumerator(ps: seq<Portion>): int {
    SumBy(ps, (p: Portion) => p.numerator)
  }

  function TotalFloor(ps: seq<Portion>, d: int): int
    requires d > 0
  {
    SumBy(ps, (p: Portion) => Floor(p, d))
  }

  /** Rank of a portion: larger remainder first, then smaller identifier. */
  predicate Before(p: Portion, q: Portion, d: int)
    requires d > 0
  {
    Remainder(p, d) > Remainder(q, d) || (Remainder(p, d) == Remainder(q, d) && Less(p.id, q.id))
  }

  predicate Raised(p: Portion, d: int, r: map<string, int>)
    requires d > 0
  {
    Share(r, p.id) == Floor(p, d) + 1
  }

  /**
   * The rule itself, without an algorithm: each share is the floor or one more, a whole portion is
   * never raised, a raised portion ranks before every portion left at its floor, and the shares add
   * up to the target.
   */
  ghost predicate IsLargestRemainder(ps: seq<Portion>, d: int, target: int, r: map<string, int>) {
    && d > 0
    && r.Keys == Ids(ps)
    && (forall p :: p in ps ==> Share(r, p.id) == Floor(p, d) || (Raised(p, d, r) && Remainder(p, d) > 0))
    && (forall p, q :: p in ps && q in ps && Raised(p, d, r) && !Raised(q, d, r) ==> Before(p, q, d))
    && TotalShare(ps, r) == target
  }

  // At most one allocation obeys the rule, whatever the order of the portions

  lemma BeforeAsymmetric(p: Portion, q: Portion, d: int)
    requires d > 0 && Before(p, q, d)
    ensures !Before(q, p, d)
  {
    if Less(p.id, q.id) {
      LessAsymmetric(p.id, q.id);
    }
  }

  lemma SharesAtMost(ps: seq<Portion>, d: int, target: int, r: map<string, int>, s: map<string, int>, p: Portion)
    requires IsLargestRemainder(ps, d, target, r) && IsLargestRemainder(ps, d, target, s)
    requires p in ps
    ensures Share(r, p.id) <= Share(s, p.id)
  {
    if Share(r, p.id) > Share(s, p.id) {
      // another portion must be raised in s but not in r, and then each ranks before the other
      var inR, inS := (q: Portion) => Share(r, q.id), (q: Portion) => Share(s, q.id);
      if forall q :: q in ps ==> inS(q) <= inR(q) {
        SumByStrictlyLess(ps, inS, inR, p);
        assert false;
      }
      var q :| q in ps && inS(q) > inR(q);
      BeforeAsymmetric(p, q, d);
    }
  }

  lemma LargestRemainderPermutes(ps: seq<Portion>, qs: seq<Portion>, d: int, target: int, r: map<string, int>)
    requires multiset(ps) == multiset(qs)
    requires IsLargestRemainder(ps, d, target, r)
    ensures IsLargestRemainder(qs, d, target, r)
  {
    assert forall p :: p in ps <==> p in multiset(ps);
    assert forall p :: p in qs <==> p in multiset(qs);
    SumByPermutation(ps, qs, (p: Portion) => Share(r, p.id));
  }

  /** The allocation does not depend on the order in which the portions are given. */
  lemma LargestRemainderUnique(ps: seq<Portion>, qs: seq<Portion>, d: int, target: int, r: map<string, int>,
                               s: map<string, int>)
    requires multiset(ps) == multiset(qs)
    requires IsLargestRemainder(ps, d, target, r) && IsLargestRemainder(qs, d, target, s)
    ensures r == s
  {
    LargestRemainderPermutes(qs, ps, d, target, s);
    forall x | x in r ensures r[x] == s[x] {
      var p :| p in ps && p.id == x;
      SharesAtMost(ps, d, target, r, s, p);
      SharesAtMost(ps, d, target, s, r, p);
    }
  }

  // The algorithm: floors, then one unit each along the ranking

  predicate RankLe(p: Portion, q: Portion, d: int)
    requires d > 0
  {
    !Before(q, p, d)
  }

  function Ranked(ps: seq<Portion>, d: int): seq<Portion>
    requires d > 0
  {
    SortBy(ps, (p, q) => RankLe(p, q, d))
  }

  lemma RankIsPreorder(d: int)
    requires d > 0
    ensures Preorder((p, q) => RankLe(p, q, d))
  {
    var le := (p, q) => RankLe(p, q, d);
    forall p, q ensures le(p, q) || le(q, p) {
      if Before(q, p, d) {
        BeforeAsymmetric(q, p, d);
      }
    }
    forall p, q, o | le(p, q) && le(q, o) ensures le(p, o) {
      if Before(o, p, d) {
        LessConnected(p.id, q.id);
        LessConnected(q.id, o.id);
        if Less(o.id, p.id) && Less(p.id, q.id) {
          LessTransitive(o.id, p.id, q.id);
        }
      }
    }
  }

  lemma RankedIsSorted(ps: seq<Portion>, d: int)
    requires d > 0
    ensures multiset(Ranked(ps, d)) == multiset(ps) && |Ranked(ps, d)| == |ps|
    ensures forall i, j :: 0 <= i < j < |ps| ==> RankLe(Ranked(ps, d)[i], Ranked(ps, d)[j], d)
  {
    RankIsPreorder(d);
    SortByIsSorted(ps, (p, q) => RankLe(p, q, d));
  }

  lemma MultisetDistinct(ps: seq<Portion>, qs: seq<Portion>)
    requires DistinctIds(ps) && multiset(ps) == multiset(qs)
    ensures DistinctIds(qs)
  {
    forall i, j | 0 <= i < j < |qs| ensures qs[i].id != qs[j].id {
      if qs[i].id == qs[j].id {
        assert qs[i] in multiset(ps) && qs[j] in multiset(ps);
        assert qs[i] == qs[j];
        assert qs == qs[..i] + [qs[i]] + qs[i + 1..j] + [qs[j]] + qs[j + 1..];
        assert multiset(qs)[qs[i]] >= 2;
        OnceInDistinct(ps, qs[i]);
      }
    }
  }

  lemma {:induction false} OnceInDistinct(ps: seq<Portion>, p: Portion)
    requires DistinctIds(ps)
    ensures multiset(ps)[p] <= 1
  {
    if ps != [] {
      assert ps == [ps[0]] + ps[1..];
      assert DistinctIds(ps[1..]);
      OnceInDistinct(ps[1..], p);
      if p == ps[0] {
        assert forall q :: q in ps[1..] ==> q.id != p.id;
        assert p !in multiset(ps[1..]);
      }
    }
  }

  /** The raising loop over the ranking: what both allocators end with. */
  ghost predicate SpreadAlong(ranked: seq<Portion>, d: int, k: int, r: map<string, int>) {
    && d > 0
    && 0 <= k <= |ranked|
    && r.Keys == Ids(ranked)
    && (forall i :: 0 <= i < |ranked| ==> Share(r, ranked[i].id) == Floor(ranked[i], d) + (if i < k then 1 else 0))
  }

  lemma {:induction false} SpreadTotal(ranked: seq<Portion>, d: int, k: int, r: map<string, int>)
    requires d > 0 && 0 <= k <= |ranked|
    requires forall i :: 0 <= i < |ranked| ==> Share(r, ranked[i].id) == Floor(ranked[i], d) + (if i < k then 1 else 0)
    ensures TotalShare(ranked, r) == TotalFloor(ranked, d) + k
  {
    if ranked != [] {
      SpreadTotal(ranked[1..], d, if k == 0 then 0 else k - 1, r);
    }
  }

  lemma RaisedRankFirst(ranked: seq<Portion>, d: int, k: int, r: map<string, int>, i: nat, j: nat)
    requires d > 0 && DistinctIds(ranked) && SpreadAlong(ranked, d, k, r)
    requires forall i, j :: 0 <= i < j < |ranked| ==> RankLe(ranked[i], ranked[j], d)
    requires i < |ranked| && j < |ranked| && Raised(ranked[i], d, r) && !Raised(ranked[j], d, r)
    ensures Before(ranked[i], ranked[j], d)
  {
    LessConnected(ranked[i].id, ranked[j].id);
  }

  /** Floors plus one unit along the ranking obey the largest-remainder rule. */
  lemma SpreadIsLargestRemainder(ps: seq<Portion>, d: int, k: int, r: map<string, int>)
    requires d > 0 && DistinctIds(ps)
    requires SpreadAlong(Ranked(ps, d), d, k, r)
    requires forall i :: 0 <= i < k ==> Remainder(Ranked(ps, d)[i], d) > 0
    ensures IsLargestRemainder(ps, d, TotalFloor(ps, d) + k, r)
  {
    var ranked := Ranked(ps, d);
    RankedIsSorted(ps, d);
    MultisetDistinct(ps, ranked);
    SpreadTotal(ranked, d, k, r);
    forall p, q | p in ranked && q in ranked && Raised(p, d, r) && !Raised(q, d, r)
      ensures Before(p, q, d)
    {
      var i :| 0 <= i < |ranked| && ranked[i] == p;
      var j :| 0 <= j < |ranked| && ranked[j] == q;
      RaisedRankFirst(ranked, d, k, r, i, j);
    }
    assert IsLargestRemainder(ranked, d, TotalFloor(ranked, d) + k, r);
    LargestRemainderPermutes(ranked, ps, d, TotalFloor(ranked, d) + k, r);
    SumByPermutation(ranked, ps, (p: Portion) => Floor(p, d));
  }

  // How much is left over

  lemma {:induction false} LeftoverBound(ps: seq<Portion>, d: int, k: int)
    requires d > 0 && 0 <= k <= |ps|
    requires forall i :: k <= i < |ps| ==> Remainder(ps[i], d) == 0
    ensures 0 <= SumBy(ps, (p: Portion) => Remainder(p, d)) <= k * (d - 1)
  {
    if ps != [] {
      LeftoverBound(ps[1..], d, if k == 0 then 0 else k - 1);
      if k > 0 {
        assert k * (d - 1) == (k - 1) * (d - 1) + (d - 1);
      }
    }
  }

  lemma NumeratorSplit(ps: seq<Portion>, d: int)
    requires d > 0
    ensures TotalNumerator(ps) == d * TotalFloor(ps, d) + SumBy(ps, (p: Portion) => Remainder(p, d))
  {
    SumByLinear(ps, (p: Portion) => p.numerator, (p: Portion) => Floor(p, d), d, (p: Portion) => Remainder(p, d));
  }

  lemma {:induction false} PositivePrefix(ranked: seq<Portion>, d: int) returns (m: nat)
    requires d > 0
    requires forall i, j :: 0 <= i < j < |ranked| ==> RankLe(ranked[i], ranked[j], d)
    ensures m <= |ranked|
    ensures forall i :: 0 <= i < |ranked| ==> (Remainder(ranked[i], d) > 0 <==> i < m)
  {
    if ranked == [] || Remainder(ranked[0], d) == 0 {
      m := 0;
      forall i | 0 <= i < |ranked| ensures Remainder(ranked[i], d) == 0 {
        assert i > 0 ==> RankLe(ranked[0], ranked[i], d);
      }
    } else {
      var rest := PositivePrefix(ranked[1..], d);
      m := rest + 1;
      assert forall i :: 0 < i < |ranked| ==> ranked[i] == ranked[1..][i - 1];
    }
  }

  lemma UnitsWithinPrefix(k: int, d: int, m: int, total: int)
    requires d > 0 && m >= 0 && k * d < total + d && total <= m * (d - 1)
    ensures k <= m
  {
    assert m * (d - 1) == m * d - m;
    if k > m {
      MulGap(m, k, d);
    }
  }

  /** The units left over never outnumber the portions with a positive remainder, so all are handed out. */
  lemma LeftoverFits(ps: seq<Portion>, d: int, k: nat)
    requires d > 0 && k * d < SumBy(ps, (p: Portion) => Remainder(p, d)) + d
    ensures k <= |ps| && |Ranked(ps, d)| == |ps|
    ensures forall i :: 0 <= i < k ==> Remainder(Ranked(ps, d)[i], d) > 0
  {
    var ranked := Ranked(ps, d);
    RankedIsSorted(ps, d);
    SumByPermutation(ranked, ps, (p: Portion) => Remainder(p, d));
    var m := PositivePrefix(ranked, d);
    LeftoverBound(ranked, d, m);
    UnitsWithinPrefix(k, d, m, SumBy(ranked, (p: Portion) => Remainder(p, d)));
  }

  lemma SpreadOneMore(ranked: seq<Portion>, d: int, k: nat, r: map<string, int>)
    requires DistinctIds(ranked) && k < |ranked| && SpreadAlong(ranked, d, k, r)
    ensures SpreadAlong(ranked, d, k + 1, r[ranked[k].id := Share(r, ranked[k].id) + 1])
  {
    assert ranked[k] in ranked;
  }

  /** The raising loop: one unit along the ranking until nothing is left. */
  method RaiseAlong(ps: seq<Portion>, d: int, floors: map<string, int>, units: int) returns (r: map<string, int>)
    requires d > 0 && DistinctIds(ps)
    requires floors.Keys == Ids(ps)
    requires forall p :: p in ps ==> Share(floors, p.id) == Floor(p, d)
    requires 0 <= units <= |ps| == |Ranked(ps, d)|
    requires forall i :: 0 <= i < units ==> Remainder(Ranked(ps, d)[i], d) > 0
    ensures IsLargestRemainder(ps, d, TotalFloor(ps, d) + units, r)
  {
    var ranked := Ranked(ps, d);
    RankedIsSorted(ps, d);
    MultisetDistinct(ps, ranked);
    SameMembers(ps, ranked);
    r := floors;
    var remaining := units;
    var k := 0;
    while k < |ranked| && remaining != 0
      invariant 0 <= k <= |ranked| && remaining == units - k && remaining >= 0
      invariant SpreadAlong(ranked, d, k, r)
    {
      SpreadOneMore(ranked, d, k, r);
      r := r[ranked[k].id := Share(r, ranked[k].id) + 1];
      remaining := remaining - 1;
      k := k + 1;
    }
    SpreadIsLargestRemainder(ps, d, k, r);
  }
}
