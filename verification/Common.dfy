/** Results of operations that may throw. */
module Outcome {
  datatype Error =
    | Validation
    | TaxConfiguration
    | NotFound
    | Conflict

  datatype Result<+T> = Ok(value: T) | Err(error: Error)

  datatype Option<+T> = None | Some(value: T)
}

/** The code-unit order that `<` gives on identifier strings. */
module TextOrder {
  predicate Less(a: string, b: string) {
    b != [] && (a == [] || a[0] < b[0] || (a[0] == b[0] && Less(a[1..], b[1..])))
  }

  lemma {:induction false} LessConnected(a: string, b: string)
    ensures Less(a, b) || a == b || Less(b, a)
  {
    if a != [] && b != [] {
      LessConnected(a[1..], b[1..]);
      if a[0] == b[0] && a[1..] == b[1..] {
        assert a == [a[0]] + a[1..] && b == [b[0]] + b[1..];
      }
    }
  }

  lemma {:induction false} LessAsymmetric(a: string, b: string)
    requires Less(a, b)
    ensures !Less(b, a) && a != b
  {
    if a != [] && a[0] == b[0] {
      LessAsymmetric(a[1..], b[1..]);
    }
  }

  lemma {:induction false} LessTransitive(a: string, b: string, c: string)
    requires Less(a, b) && Less(b, c)
    ensures Less(a, c)
  {
    if a != [] && a[0] == b[0] == c[0] {
      LessTransitive(a[1..], b[1..], c[1..]);
    }
  }
}

/** Sums of a quantity over a sequence. */
module Sums {
  function SumBy<T>(s: seq<T>, f: T -> int): int {
    if s == [] then 0 else f(s[0]) + SumBy(s[1..], f)
  }

  lemma {:induction false} SumByAppend<T>(s: seq<T>, t: seq<T>, f: T -> int)
    ensures SumBy(s + t, f) == SumBy(s, f) + SumBy(t, f)
  {
    if s == [] {
      assert s + t == t;
    } else {
      assert (s + t)[1..] == s[1..] + t;
      SumByAppend(s[1..], t, f);
    }
  }

  lemma SumBySnoc<T>(s: seq<T>, x: T, f: T -> int)
    ensures SumBy(s + [x], f) == SumBy(s, f) + f(x)
  {
    SumByAppend(s, [x], f);
  }

  lemma SameLength<T>(s: seq<T>, t: seq<T>)
    requires multiset(s) == multiset(t)
    ensures |s| == |t|
  {
    assert |multiset(s)| == |multiset(t)|;
  }

  lemma PrefixSnoc<T>(s: seq<T>, i: nat)
    requires i < |s|
    ensures s[..i + 1] == s[..i] + [s[i]]
  {
  }

  lemma SumByOne<T>(x: T, f: T -> int)
    ensures SumBy([x], f) == f(x)
  {
    assert [x][1..] == [];
  }

  lemma RemoveOne<T>(s: seq<T>, i: nat)
    requires i < |s|
    ensures multiset(s[..i] + s[i + 1..]) == multiset(s) - multiset{s[i]}
    ensures multiset(s) == multiset(s[..i] + s[i + 1..]) + multiset{s[i]}
  {
    assert s == s[..i] + [s[i]] + s[i + 1..];
  }

  lemma TailOfRemoved<T>(s: seq<T>, i: nat)
    requires 0 < i < |s|
    ensures (s[..i] + s[i + 1..])[0] == s[0]
    ensures (s[..i] + s[i + 1..])[1..] == s[1..][..i - 1] + s[1..][i..]
  {
  }

  lemma FindIn<T>(x: T, s: seq<T>) returns (i: nat)
    requires x in multiset(s)
    ensures i < |s| && s[i] == x
  {
    i :| 0 <= i < |s| && s[i] == x;
  }

  /** The head of one sequence found in a permutation of it. */
  lemma MatchHead<T>(s: seq<T>, t: seq<T>) returns (i: nat)
    requires multiset(s) == multiset(t) && s != []
    ensures i < |t| && t[i] == s[0]
    ensures multiset(s[1..]) == multiset(t[..i] + t[i + 1..])
  {
    assert s[0] in multiset(s);
    i := FindIn(s[0], t);
    RemoveOne(t, i);
    assert s == [s[0]] + s[1..];
  }

  lemma Around<T>(s: seq<T>, i: nat)
    requires i < |s|
    ensures s == s[..i] + ([s[i]] + s[i + 1..])
    ensures ([s[i]] + s[i + 1..])[1..] == s[i + 1..]
  {
  }

  lemma SumByRemove<T>(s: seq<T>, i: nat, f: T -> int)
    requires i < |s|
    ensures SumBy(s, f) == f(s[i]) + SumBy(s[..i] + s[i + 1..], f)
  {
    Around(s, i);
    SumByAppend(s[..i], [s[i]] + s[i + 1..], f);
    SumByAppend(s[..i], s[i + 1..], f);
  }

  /** A sum does not depend on the order of its terms. */
  lemma {:induction false} SumByPermutation<T>(s: seq<T>, t: seq<T>, f: T -> int)
    requires multiset(s) == multiset(t)
    ensures SumBy(s, f) == SumBy(t, f)
    decreases |s|
  {
    if s == [] {
      SameLength(s, t);
    } else {
      var i := MatchHead(s, t);
      SumByPermutation(s[1..], t[..i] + t[i + 1..], f);
      SumByRemove(t, i, f);
    }
  }

  function Apply<T, U>(f: T -> U, s: seq<T>): (t: seq<U>)
    ensures |t| == |s|
    ensures forall i :: 0 <= i < |s| ==> t[i] == f(s[i])
  {
    if s == [] then [] else [f(s[0])] + Apply(f, s[1..])
  }

  lemma {:induction false} ApplyPermutation<T, U>(f: T -> U, s: seq<T>, t: seq<T>)
    requires multiset(s) == multiset(t)
    ensures multiset(Apply(f, s)) == multiset(Apply(f, t))
    decreases |s|
  {
    if s == [] {
      SameLength(s, t);
    } else {
      var i := MatchHead(s, t);
      ApplyPermutation(f, s[1..], t[..i] + t[i + 1..]);
      ApplyRemove(f, t, i);
    }
  }

  lemma ApplyRemove<T, U>(f: T -> U, s: seq<T>, i: nat)
    requires i < |s|
    ensures multiset(Apply(f, s)) == multiset(Apply(f, s[..i] + s[i + 1..])) + multiset{f(s[i])}
  {
    RemoveOne(Apply(f, s), i);
    ApplyAroundRemoved(f, s, i);
  }

  lemma ApplyAroundRemoved<T, U>(f: T -> U, s: seq<T>, i: nat)
    requires i < |s|
    ensures Apply(f, s)[..i] + Apply(f, s)[i + 1..] == Apply(f, s[..i] + s[i + 1..])
  {
    Around(s, i);
    ApplyAppend(f, s[..i], [s[i]] + s[i + 1..]);
    ApplyAppend(f, [s[i]], s[i + 1..]);
    ApplyAppend(f, s[..i], s[i + 1..]);
    DropMiddle(Apply(f, s[..i]), Apply(f, [s[i]]), Apply(f, s[i + 1..]));
  }

  lemma DropMiddle<T>(a: seq<T>, b: seq<T>, c: seq<T>)
    requires |b| == 1
    ensures (a + (b + c))[..|a|] + (a + (b + c))[|a| + 1..] == a + c
  {
  }

  lemma ApplyAppend<T, U>(f: T -> U, s: seq<T>, t: seq<T>)
    ensures Apply(f, s + t) == Apply(f, s) + Apply(f, t)
  {
  }

  function Select<T>(keep: T -> bool, s: seq<T>): seq<T> {
    if s == [] then [] else (if keep(s[0]) then [s[0]] else []) + Select(keep, s[1..])
  }

  lemma {:induction false} SelectMembers<T(!new)>(keep: T -> bool, s: seq<T>)
    ensures forall x :: x in Select(keep, s) <==> x in s && keep(x)
  {
    if s != [] {
      SelectMembers(keep, s[1..]);
    }
  }

  lemma SelectOne<T>(keep: T -> bool, x: T)
    ensures Select(keep, [x]) == if keep(x) then [x] else []
  {
    assert [x][1..] == [];
    assert Select(keep, [x]) == (if keep(x) then [x] else []) + Select(keep, []);
  }

  lemma {:induction false} SelectAppend<T>(keep: T -> bool, s: seq<T>, t: seq<T>)
    ensures Select(keep, s + t) == Select(keep, s) + Select(keep, t)
  {
    if s == [] {
      assert s + t == t;
    } else {
      assert (s + t)[1..] == s[1..] + t;
      SelectAppend(keep, s[1..], t);
      Associative(if keep(s[0]) then [s[0]] else [], Select(keep, s[1..]), Select(keep, t));
    }
  }

  lemma Associative<T>(a: seq<T>, b: seq<T>, c: seq<T>)
    ensures a + (b + c) == (a + b) + c
  {
  }

  lemma SelectRemove<T>(keep: T -> bool, s: seq<T>, i: nat)
    requires i < |s|
    ensures multiset(Select(keep, s))
            == multiset(Select(keep, s[..i] + s[i + 1..])) + (if keep(s[i]) then multiset{s[i]} else multiset{})
  {
    Around(s, i);
    SelectAppend(keep, s[..i], [s[i]] + s[i + 1..]);
    SelectAppend(keep, s[..i], s[i + 1..]);
  }

  lemma {:induction false} SelectPermutation<T>(keep: T -> bool, s: seq<T>, t: seq<T>)
    requires multiset(s) == multiset(t)
    ensures multiset(Select(keep, s)) == multiset(Select(keep, t))
    decreases |s|
  {
    if s == [] {
      SameLength(s, t);
    } else {
      var i := MatchHead(s, t);
      SelectPermutation(keep, s[1..], t[..i] + t[i + 1..]);
      SelectRemove(keep, t, i);
    }
  }

  lemma {:induction false} SelectNone<T>(keep: T -> bool, s: seq<T>)
    requires forall x :: x in s ==> !keep(x)
    ensures Select(keep, s) == []
  {
    if s != [] {
      SelectNone(keep, s[1..]);
    }
  }

  lemma {:induction false} SelectEqual<T>(keep: T -> bool, other: T -> bool, s: seq<T>)
    requires forall x :: x in s ==> keep(x) == other(x)
    ensures Select(keep, s) == Select(other, s)
  {
    if s != [] {
      SelectEqual(keep, other, s[1..]);
    }
  }

  lemma SameMembers<T(!new)>(s: seq<T>, t: seq<T>)
    requires multiset(s) == multiset(t)
    ensures |s| == |t|
    ensures forall x :: x in s <==> x in t
  {
    assert |multiset(s)| == |multiset(t)|;
    assert forall x :: x in s <==> x in multiset(s);
    assert forall x :: x in t <==> x in multiset(t);
  }

  lemma {:induction false} SumByEqual<T>(s: seq<T>, f: T -> int, g: T -> int)
    requires forall x :: x in s ==> f(x) == g(x)
    ensures SumBy(s, f) == SumBy(s, g)
  {
    if s != [] {
      SumByEqual(s[1..], f, g);
    }
  }

  lemma {:induction false} SumByAtMost<T>(s: seq<T>, f: T -> int, g: T -> int)
    requires forall x :: x in s ==> f(x) <= g(x)
    ensures SumBy(s, f) <= SumBy(s, g)
  {
    if s != [] {
      SumByAtMost(s[1..], f, g);
    }
  }

  /** Smaller everywhere and smaller somewhere is smaller in total. */
  lemma {:induction false} SumByStrictlyLess<T>(s: seq<T>, f: T -> int, g: T -> int, x: T)
    requires forall y :: y in s ==> f(y) <= g(y)
    requires x in s && f(x) < g(x)
    ensures SumBy(s, f) < SumBy(s, g)
  {
    if s[0] == x {
      SumByAtMost(s[1..], f, g);
    } else {
      SumByStrictlyLess(s[1..], f, g, x);
    }
  }

  lemma {:induction false} SumByLinear<T>(s: seq<T>, f: T -> int, g: T -> int, k: int, h: T -> int)
    requires forall x :: x in s ==> f(x) == k * g(x) + h(x)
    ensures SumBy(s, f) == k * SumBy(s, g) + SumBy(s, h)
  {
    if s != [] {
      SumByLinear(s[1..], f, g, k, h);
      assert k * SumBy(s, g) == k * g(s[0]) + k * SumBy(s[1..], g);
    }
  }
}

/** Sorting with a comparison, as the array sort of the platform: a sorted permutation. */
module Sorting {
  ghost predicate Preorder<T(!new)>(le: (T, T) -> bool) {
    && (forall x, y :: le(x, y) || le(y, x))
    && (forall x, y, z :: le(x, y) && le(y, z) ==> le(x, z))
  }

  ghost predicate Sorted<T>(s: seq<T>, le: (T, T) -> bool) {
    forall i, j :: 0 <= i < j < |s| ==> le(s[i], s[j])
  }

  function Insert<T>(x: T, s: seq<T>, le: (T, T) -> bool): seq<T> {
    if s == [] then [x]
    else if le(x, s[0]) then [x] + s
    else [s[0]] + Insert(x, s[1..], le)
  }

  function SortBy<T>(s: seq<T>, le: (T, T) -> bool): seq<T> {
    if s == [] then [] else Insert(s[0], SortBy(s[1..], le), le)
  }

  lemma {:induction false} InsertMembers<T>(x: T, s: seq<T>, le: (T, T) -> bool)
    ensures multiset(Insert(x, s, le)) == multiset(s) + multiset{x}
  {
    if s != [] && !le(x, s[0]) {
      InsertMembers(x, s[1..], le);
      HeadTail(s);
      ConsMembers(s[0], Insert(x, s[1..], le));
    } else {
      ConsMembers(x, s);
    }
  }

  lemma HeadTail<T>(s: seq<T>)
    requires s != []
    ensures multiset(s) == multiset{s[0]} + multiset(s[1..])
  {
    assert s == [s[0]] + s[1..];
  }

  lemma ConsMembers<T>(x: T, s: seq<T>)
    ensures multiset([x] + s) == multiset{x} + multiset(s)
  {
  }

  lemma ConsSorted<T>(x: T, s: seq<T>, le: (T, T) -> bool)
    requires Sorted(s, le) && forall y :: y in s ==> le(x, y)
    ensures Sorted([x] + s, le)
  {
  }

  lemma {:induction false} InsertIsSorted<T(!new)>(x: T, s: seq<T>, le: (T, T) -> bool)
    requires Preorder(le) && Sorted(s, le)
    ensures Sorted(Insert(x, s, le), le)
  {
    if s == [] {
    } else if le(x, s[0]) {
      forall y | y in s ensures le(x, y) {
        assert y == s[0] || le(s[0], y);
      }
      ConsSorted(x, s, le);
    } else {
      var rest := Insert(x, s[1..], le);
      InsertIsSorted(x, s[1..], le);
      InsertMembers(x, s[1..], le);
      forall y | y in rest ensures le(s[0], y) {
        assert y in multiset(rest);
        assert y == x || y in s[1..];
      }
      ConsSorted(s[0], rest, le);
    }
  }

  lemma {:induction false} SortByIsSorted<T(!new)>(s: seq<T>, le: (T, T) -> bool)
    requires Preorder(le)
    ensures Sorted(SortBy(s, le), le)
    ensures multiset(SortBy(s, le)) == multiset(s)
    ensures |SortBy(s, le)| == |s|
  {
    if s != [] {
      SortByIsSorted(s[1..], le);
      InsertIsSorted(s[0], SortBy(s[1..], le), le);
      InsertMembers(s[0], SortBy(s[1..], le), le);
      assert s == [s[0]] + s[1..];
    }
    assert |multiset(SortBy(s, le))| == |multiset(s)|;
  }

  /** On elements that the comparison tells apart, the sorted permutation is unique. */
  lemma {:induction false} SortedUnique<T(!new)>(s: seq<T>, t: seq<T>, le: (T, T) -> bool)
    requires Sorted(s, le) && Sorted(t, le)
    requires multiset(s) == multiset(t)
    requires forall x, y :: x in s && y in s && le(x, y) && le(y, x) ==> x == y
    ensures s == t
    decreases |s|
  {
    assert |multiset(s)| == |multiset(t)|;
    if s != [] {
      assert s[0] in multiset(t) && t[0] in multiset(s);
      assert s[0] == t[0];
      assert s == [s[0]] + s[1..] && t == [t[0]] + t[1..];
      assert multiset(s[1..]) == multiset(s) - multiset{s[0]};
      assert multiset(t[1..]) == multiset(t) - multiset{s[0]};
      SortedUnique(s[1..], t[1..], le);
    }
  }
}
