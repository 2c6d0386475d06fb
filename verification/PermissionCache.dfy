/** The text of a cache key: a JSON array of three strings, a boolean and a string or null. */
module CacheKeys {
  import opened Outcome

  datatype Query = Query(tenantId: string, userId: string, permissionKey: string, hasResource: bool,
                         relevantBranch: Option<string>)

  function HexDigit(n: nat): char
    requires n < 16
  {
    if n < 10 then ('0' as int + n) as char else ('a' as int + n - 10) as char
  }

  /** How a JSON string writes one character. */
  function EscapeChar(c: char): string {
    if c == '\"' then "\\\""
    else if c == '\\' then "\\\\"
    else if c == 8 as char then "\\b"
    else if c == 12 as char then "\\f"
    else if c == 10 as char then "\\n"
    else if c == 13 as char then "\\r"
    else if c == 9 as char then "\\t"
    else if c < ' ' then "\\u00" + [HexDigit(c as int / 16), HexDigit(c as int % 16)]
    else [c]
  }

  function Escape(s: string): string {
    if s == [] then [] else EscapeChar(s[0]) + Escape(s[1..])
  }

  function Quote(s: string): string { "\"" + Escape(s) + "\"" }

  function BoolText(b: bool): string { if b then "true" else "false" }

  function OptionText(o: Option<string>): string {
    match o
    case None => "null"
    case Some(s) => Quote(s)
  }

  function AfterPermission(q: Query): string {
    "," + (BoolText(q.hasResource) + ("," + (OptionText(q.relevantBranch) + "]")))
  }

  function AfterUser(q: Query): string { "," + (Quote(q.permissionKey) + AfterPermission(q)) }

  function AfterTenant(q: Query): string { "," + (Quote(q.userId) + AfterUser(q)) }

  function BuildCacheKey(q: Query): string { "[" + (Quote(q.tenantId) + AfterTenant(q)) }

  predicate Plain(c: char) { c != '\"' && c != '\\' && c >= ' ' }

  /** A character that is not written as itself is known from what follows the backslash. */
  lemma EscapedApart(a: char, b: char, x: string, y: string)
    requires !Plain(a) && !Plain(b) && EscapeChar(a) + x == EscapeChar(b) + y
    ensures a == b
  {
    assert (EscapeChar(a) + x)[1] == EscapeChar(a)[1] && (EscapeChar(b) + y)[1] == EscapeChar(b)[1];
    if EscapeChar(a)[1] == 'u' && EscapeChar(b)[1] == 'u' {
      assert (EscapeChar(a) + x)[4] == EscapeChar(a)[4] && (EscapeChar(a) + x)[5] == EscapeChar(a)[5];
      assert (EscapeChar(b) + y)[4] == EscapeChar(b)[4] && (EscapeChar(b) + y)[5] == EscapeChar(b)[5];
      assert a as int / 16 == b as int / 16 && a as int % 16 == b as int % 16;
    }
  }

  lemma FirstOfEscape(c: char)
    ensures EscapeChar(c) != [] && EscapeChar(c)[0] != '\"'
    ensures Plain(c) ==> EscapeChar(c) == [c]
    ensures !Plain(c) ==> EscapeChar(c)[0] == '\\' && |EscapeChar(c)| >= 2
  {
  }

  lemma SameFirst(a: char, b: char, x: string, y: string)
    requires EscapeChar(a) + x == EscapeChar(b) + y
    ensures a == b && x == y
  {
    FirstOfEscape(a);
    FirstOfEscape(b);
    assert (EscapeChar(a) + x)[0] == EscapeChar(a)[0] && (EscapeChar(b) + y)[0] == EscapeChar(b)[0];
    if !Plain(a) && !Plain(b) {
      EscapedApart(a, b, x, y);
    }
    assert x == (EscapeChar(a) + x)[|EscapeChar(a)|..];
    assert y == (EscapeChar(b) + y)[|EscapeChar(b)|..];
  }

  /** An unescaped quote comes first exactly when the string is over. */
  lemma QuoteOnlyAtEnd(s: string, x: string)
    ensures s == [] <==> (Escape(s) + ("\"" + x))[0] == '\"'
  {
    if s != [] {
      FirstOfEscape(s[0]);
      assert (Escape(s) + ("\"" + x))[0] == EscapeChar(s[0])[0];
    }
  }

  /** A quoted string says itself where it ends. */
  lemma {:induction false} QuotedEnds(s: string, t: string, x: string, y: string)
    requires Escape(s) + ("\"" + x) == Escape(t) + ("\"" + y)
    ensures s == t && x == y
    decreases |s|
  {
    QuoteOnlyAtEnd(s, x);
    QuoteOnlyAtEnd(t, y);
    if s == [] {
      assert [] + ("\"" + x) == "\"" + x && [] + ("\"" + y) == "\"" + y;
      DropPrefix("\"", x, y);
    } else {
      Regroup(EscapeChar(s[0]), Escape(s[1..]), "\"" + x);
      Regroup(EscapeChar(t[0]), Escape(t[1..]), "\"" + y);
      SameFirst(s[0], t[0], Escape(s[1..]) + ("\"" + x), Escape(t[1..]) + ("\"" + y));
      QuotedEnds(s[1..], t[1..], x, y);
      assert s == [s[0]] + s[1..] && t == [t[0]] + t[1..];
    }
  }

  lemma Regroup(a: string, b: string, c: string)
    ensures a + b + c == a + (b + c)
  {
  }

  lemma AfterOpeningQuote(s: string, x: string)
    ensures (Quote(s) + x)[1..] == Escape(s) + ("\"" + x)
  {
  }

  lemma QuoteApart(s: string, t: string, x: string, y: string)
    requires Quote(s) + x == Quote(t) + y
    ensures s == t && x == y
  {
    AfterOpeningQuote(s, x);
    AfterOpeningQuote(t, y);
    QuotedEnds(s, t, x, y);
  }

  lemma DropPrefix(p: string, x: string, y: string)
    requires p + x == p + y
    ensures x == y
  {
    assert (p + x)[|p|..] == x && (p + y)[|p|..] == y;
  }

  lemma BoolApart(a: bool, b: bool, x: string, y: string)
    requires BoolText(a) + x == BoolText(b) + y
    ensures a == b && x == y
  {
    assert (BoolText(a) + x)[0] == BoolText(a)[0] && (BoolText(b) + y)[0] == BoolText(b)[0];
    DropPrefix(BoolText(a), x, y);
  }

  lemma OptionApart(a: Option<string>, b: Option<string>, x: string, y: string)
    requires OptionText(a) + x == OptionText(b) + y
    ensures a == b && x == y
  {
    if a.Some? && b.Some? {
      QuoteApart(a.value, b.value, x, y);
    } else {
      assert (OptionText(a) + x)[0] == OptionText(a)[0] && (OptionText(b) + y)[0] == OptionText(b)[0];
      DropPrefix(OptionText(a), x, y);
    }
  }

  /** Two different queries never share a cache key. */
  lemma KeyIdentifiesQuery(q: Query, r: Query)
    requires BuildCacheKey(q) == BuildCacheKey(r)
    ensures q == r
  {
    DropPrefix("[", Quote(q.tenantId) + AfterTenant(q), Quote(r.tenantId) + AfterTenant(r));
    QuoteApart(q.tenantId, r.tenantId, AfterTenant(q), AfterTenant(r));
    DropPrefix(",", Quote(q.userId) + AfterUser(q), Quote(r.userId) + AfterUser(r));
    QuoteApart(q.userId, r.userId, AfterUser(q), AfterUser(r));
    DropPrefix(",", Quote(q.permissionKey) + AfterPermission(q), Quote(r.permissionKey) + AfterPermission(r));
    QuoteApart(q.permissionKey, r.permissionKey, AfterPermission(q), AfterPermission(r));
    RestApart(q, r);
  }

  lemma RestApart(q: Query, r: Query)
    requires AfterPermission(q) == AfterPermission(r)
    ensures q.hasResource == r.hasResource && q.relevantBranch == r.relevantBranch
  {
    var x, y := "," + (OptionText(q.relevantBranch) + "]"), "," + (OptionText(r.relevantBranch) + "]");
    DropPrefix(",", BoolText(q.hasResource) + x, BoolText(r.hasResource) + y);
    BoolApart(q.hasResource, r.hasResource, x, y);
    DropPrefix(",", OptionText(q.relevantBranch) + "]", OptionText(r.relevantBranch) + "]");
    OptionApart(q.relevantBranch, r.relevantBranch, "]", "]");
  }
}

/** The bounded cache of check outcomes: least recently used goes first, and no entry outlives its time. */
module LruCache {
  import opened Outcome

  datatype Verdict = Verdict(allowed: bool, cap: Option<int>)

  /** Entries in insertion order, the least recently used first. */
  datatype Entry = Entry(key: string, value: Verdict, storedAt: int)

  function Lookup(entries: seq<Entry>, key: string): Option<Entry> {
    if entries == [] then None
    else if entries[0].key == key then Some(entries[0])
    else Lookup(entries[1..], key)
  }

  function Without(entries: seq<Entry>, key: string): seq<Entry> {
    if entries == [] then []
    else (if entries[0].key == key then [] else [entries[0]]) + Without(entries[1..], key)
  }

  function Newest(entries: seq<Entry>, max: nat): seq<Entry> {
    if |entries| > max then entries[|entries| - max..] else entries
  }

  predicate Hit(entries: seq<Entry>, key: string, now: int, ttl: int) {
    Lookup(entries, key).Some? && now - Lookup(entries, key).value.storedAt < ttl
  }

  /** A hit moves to the end, an expired entry goes, a miss changes nothing. */
  function AfterGet(entries: seq<Entry>, key: string, now: int, ttl: int): seq<Entry> {
    match Lookup(entries, key)
    case None => entries
    case Some(e) => if now - e.storedAt >= ttl then Without(entries, key) else Without(entries, key) + [e]
  }

  function AfterSet(entries: seq<Entry>, key: string, value: Verdict, now: int, max: nat): seq<Entry> {
    Newest(Without(entries, key) + [Entry(key, value, now)], max)
  }

  class L1PermissionCache {
    var entries: seq<Entry>
    const maxEntries: nat
    const ttlMs: int

    ghost predicate Valid()
      reads this
    {
      maxEntries > 0 && ttlMs > 0 && |entries| <= maxEntries && DistinctKeys(entries)
    }

    constructor (maxEntries: nat, ttlMs: int)
      requires maxEntries > 0 && ttlMs > 0
      ensures Valid() && entries == [] && this.maxEntries == maxEntries && this.ttlMs == ttlMs
    {
      entries := [];
      this.maxEntries, this.ttlMs := maxEntries, ttlMs;
    }

    method Delete(key: string)
      requires Valid()
      modifies this`entries
      ensures Valid() && entries == Without(old(entries), key)
    {
      WithoutKey(entries, key);
      entries := Without(entries, key);
    }

    method Get(key: string, now: int) returns (r: Option<Verdict>)
      requires Valid()
      modifies this`entries
      ensures Valid() && entries == AfterGet(old(entries), key, now, ttlMs)
      ensures r.Some? <==> Hit(old(entries), key, now, ttlMs)
      ensures r.Some? ==> r.value == Lookup(old(entries), key).value.value
    {
      var node := Lookup(entries, key);
      if node.None? {
        return None;
      }
      LookupFinds(entries, key);
      WithoutKey(entries, key);
      WithoutShrinks(entries, key);
      if now - node.value.storedAt >= ttlMs {
        Delete(key);
        return None;
      }
      Delete(key);
      entries := entries + [node.value];
      return Some(node.value.value);
    }

    method Set(key: string, value: Verdict, now: int)
      requires Valid()
      modifies this`entries
      ensures Valid() && entries == AfterSet(old(entries), key, value, now, maxEntries)
      ensures Lookup(entries, key) == Some(Entry(key, value, now))
    {
      WithoutKey(entries, key);
      Delete(key);
      ghost var kept := entries;
      entries := entries + [Entry(key, value, now)];
      ghost var all := entries;
      ghost var cut: nat := 0;
      while |entries| > maxEntries
        invariant cut <= |all| && entries == all[cut..]
        invariant cut > 0 ==> |entries| >= maxEntries
        decreases |entries|
      {
        entries := entries[1..];
        cut := cut + 1;
      }
      assert entries == Newest(all, maxEntries);
      SuffixDistinct(all, cut);
      LookupLast(all, cut);
    }
  }

  // ---------------------------------------------------------------- structure

  ghost predicate DistinctKeys(entries: seq<Entry>) {
    forall i, j :: 0 <= i < j < |entries| ==> entries[i].key != entries[j].key
  }

  lemma {:induction false} LookupFinds(entries: seq<Entry>, key: string)
    ensures Lookup(entries, key).Some? ==>
            Lookup(entries, key).value in entries && Lookup(entries, key).value.key == key
    ensures Lookup(entries, key).None? ==> forall e :: e in entries ==> e.key != key
  {
    if entries != [] && entries[0].key != key {
      LookupFinds(entries[1..], key);
    }
  }

  /** Deleting a key keeps the others, in their order. */
  lemma {:induction false} WithoutKey(entries: seq<Entry>, key: string)
    requires DistinctKeys(entries)
    ensures |Without(entries, key)| <= |entries| && DistinctKeys(Without(entries, key))
    ensures forall e :: e in Without(entries, key) <==> e in entries && e.key != key
  {
    if entries != [] {
      WithoutKey(entries[1..], key);
      var rest := Without(entries[1..], key);
      forall e | e in rest ensures e.key != entries[0].key {
        assert e in entries[1..];
      }
    }
  }

  lemma {:induction false} WithoutShrinks(entries: seq<Entry>, key: string)
    requires Lookup(entries, key).Some?
    ensures |Without(entries, key)| < |entries|
  {
    if entries[0].key == key {
      WithoutLength(entries[1..], key);
    } else {
      WithoutShrinks(entries[1..], key);
    }
  }

  lemma {:induction false} WithoutLength(entries: seq<Entry>, key: string)
    ensures |Without(entries, key)| <= |entries|
  {
    if entries != [] {
      WithoutLength(entries[1..], key);
    }
  }

  lemma {:induction false} WithoutMissing(entries: seq<Entry>, key: string)
    requires forall e :: e in entries ==> e.key != key
    ensures Without(entries, key) == entries
  {
    if entries != [] {
      WithoutMissing(entries[1..], key);
    }
  }

  lemma SuffixDistinct(entries: seq<Entry>, cut: nat)
    requires DistinctKeys(entries) && cut <= |entries|
    ensures DistinctKeys(entries[cut..])
  {
  }

  lemma {:induction false} LookupLast(entries: seq<Entry>, cut: nat)
    requires DistinctKeys(entries) && cut < |entries|
    ensures Lookup(entries[cut..], entries[|entries| - 1].key) == Some(entries[|entries| - 1])
    decreases |entries| - cut
  {
    if cut < |entries| - 1 {
      assert entries[cut].key != entries[|entries| - 1].key;
      assert entries[cut..][1..] == entries[cut + 1..];
      LookupLast(entries, cut + 1);
    }
  }

  // ------------------------------------------------------- recency, by itself

  datatype Op = Get(key: string, now: int) | Set(key: string, value: Verdict, now: int)

  function After(entries: seq<Entry>, op: Op, max: nat, ttl: int): seq<Entry> {
    match op
    case Get(key, now) => AfterGet(entries, key, now, ttl)
    case Set(key, value, now) => AfterSet(entries, key, value, now, max)
  }

  function Run(ops: seq<Op>, max: nat, ttl: int): seq<Entry> {
    if ops == [] then [] else After(Run(ops[..|ops| - 1], max, ttl), ops[|ops| - 1], max, ttl)
  }

  predicate Uses(entries: seq<Entry>, op: Op, key: string, ttl: int) {
    op.key == key && (op.Set? || Hit(entries, key, op.now, ttl))
  }

  /** The position in the trace of the last operation that stored the key or found it. */
  function LastUse(ops: seq<Op>, max: nat, ttl: int, key: string): int {
    if ops == [] then -1
    else
      var front := ops[..|ops| - 1];
      if Uses(Run(front, max, ttl), ops[|ops| - 1], key, ttl) then |ops| - 1 else LastUse(front, max, ttl, key)
  }

  ghost predicate Ascending(entries: seq<Entry>, rank: string -> int) {
    forall i, j :: 0 <= i < j < |entries| ==> rank(entries[i].key) < rank(entries[j].key)
  }

  lemma {:induction false} LastUseBefore(ops: seq<Op>, max: nat, ttl: int, key: string)
    ensures -1 <= LastUse(ops, max, ttl, key) < |ops|
  {
    if ops != [] {
      LastUseBefore(ops[..|ops| - 1], max, ttl, key);
    }
  }

  lemma AscendingDistinct(entries: seq<Entry>, rank: string -> int)
    requires Ascending(entries, rank)
    ensures DistinctKeys(entries)
  {
  }

  lemma {:induction false} WithoutAscending(entries: seq<Entry>, key: string, rank: string -> int)
    requires Ascending(entries, rank)
    ensures Ascending(Without(entries, key), rank)
  {
    if entries != [] {
      AscendingDistinct(entries, rank);
      WithoutAscending(entries[1..], key, rank);
      WithoutKey(entries[1..], key);
      forall e | e in Without(entries[1..], key) ensures rank(entries[0].key) < rank(e.key) {
        assert e in entries[1..];
      }
    }
  }

  /** The kept entries stay in order and the used one, if any, comes last. */
  lemma MovedLast(kept: seq<Entry>, e: Entry, rank: string -> int, next: string -> int)
    requires Ascending(kept, rank)
    requires forall d :: d in kept ==> next(d.key) == rank(d.key) && next(d.key) < next(e.key)
    ensures Ascending(kept + [e], next)
  {
    forall i, j | 0 <= i < j < |kept + [e]| ensures next((kept + [e])[i].key) < next((kept + [e])[j].key) {
      assert kept[i] in kept;
      if j < |kept| {
        assert kept[j] in kept;
      }
    }
  }

  lemma SameOrder(kept: seq<Entry>, rank: string -> int, next: string -> int)
    requires Ascending(kept, rank) && forall d :: d in kept ==> next(d.key) == rank(d.key)
    ensures Ascending(kept, next)
  {
    assert forall i :: 0 <= i < |kept| ==> kept[i] in kept;
  }

  function Recency(ops: seq<Op>, max: nat, ttl: int): string -> int {
    key => LastUse(ops, max, ttl, key)
  }

  lemma StepOrdered(front: seq<Op>, op: Op, max: nat, ttl: int)
    requires max > 0
    requires Ascending(Run(front, max, ttl), Recency(front, max, ttl)) && |Run(front, max, ttl)| <= max
    ensures Ascending(Run(front + [op], max, ttl), Recency(front + [op], max, ttl))
            && |Run(front + [op], max, ttl)| <= max
  {
    var ops := front + [op];
    assert ops[..|front|] == front;
    var before, rank, next := Run(front, max, ttl), Recency(front, max, ttl), Recency(ops, max, ttl);
    var kept := Without(before, op.key);
    AscendingDistinct(before, rank);
    WithoutAscending(before, op.key, rank);
    WithoutKey(before, op.key);
    forall d | d in before ensures next(d.key) < |front| || d.key == op.key {
      LastUseBefore(front, max, ttl, d.key);
    }
    LookupFinds(before, op.key);
    match op
    case Get(key, now) =>
      if Lookup(before, key).None? {
        SameOrder(before, rank, next);
      } else if now - Lookup(before, key).value.storedAt >= ttl {
        SameOrder(kept, rank, next);
      } else {
        WithoutShrinks(before, key);
        MovedLast(kept, Lookup(before, key).value, rank, next);
      }
    case Set(key, value, now) =>
      MovedLast(kept, Entry(key, value, now), rank, next);
      NewestAscending(kept + [Entry(key, value, now)], max, next);
  }

  lemma NewestAscending(entries: seq<Entry>, max: nat, rank: string -> int)
    requires Ascending(entries, rank)
    ensures Ascending(Newest(entries, max), rank) && |Newest(entries, max)| <= max
  {
  }

  /** The cache is bounded and lists its keys by the last time each was used. */
  lemma {:induction false} OrderIsRecency(ops: seq<Op>, max: nat, ttl: int)
    requires max > 0
    ensures |Run(ops, max, ttl)| <= max
    ensures Ascending(Run(ops, max, ttl), Recency(ops, max, ttl))
  {
    if ops != [] {
      OrderIsRecency(ops[..|ops| - 1], max, ttl);
      StepOrdered(ops[..|ops| - 1], ops[|ops| - 1], max, ttl);
      assert ops[..|ops| - 1] + [ops[|ops| - 1]] == ops;
    }
  }

  predicate Holds(entries: seq<Entry>, key: string) { exists e :: e in entries && e.key == key }

  /** Storing a new key in a full cache drops the least recently used key and no other. */
  lemma EvictsLeastRecentlyUsed(ops: seq<Op>, key: string, value: Verdict, now: int, max: nat, ttl: int)
    requires max > 0 && |Run(ops, max, ttl)| == max && !Holds(Run(ops, max, ttl), key)
    ensures var before, after := Run(ops, max, ttl), Run(ops + [Set(key, value, now)], max, ttl);
            && after == before[1..] + [Entry(key, value, now)]
            && (forall e :: e in before[1..] ==> LastUse(ops, max, ttl, before[0].key) < LastUse(ops, max, ttl, e.key))
            && !Holds(after, before[0].key)
  {
    var before := Run(ops, max, ttl);
    assert (ops + [Set(key, value, now)])[..|ops|] == ops;
    OrderIsRecency(ops, max, ttl);
    WithoutMissing(before, key);
    assert before[0] in before;
    var rank := Recency(ops, max, ttl);
    forall e | e in before[1..] ensures rank(before[0].key) < rank(e.key) {
      var i :| 0 <= i < |before[1..]| && before[1..][i] == e;
      assert before[i + 1] == e;
    }
  }

  /** While there is room, or when the key is already held, nothing but that key changes. */
  lemma RoomKeepsAll(ops: seq<Op>, key: string, value: Verdict, now: int, max: nat, ttl: int)
    requires max > 0 && (|Run(ops, max, ttl)| < max || Holds(Run(ops, max, ttl), key))
    ensures var before, after := Run(ops, max, ttl), Run(ops + [Set(key, value, now)], max, ttl);
            forall e: Entry :: e.key != key ==> (e in before <==> e in after)
  {
    var before := Run(ops, max, ttl);
    assert (ops + [Set(key, value, now)])[..|ops|] == ops;
    OrderIsRecency(ops, max, ttl);
    AscendingDistinct(before, Recency(ops, max, ttl));
    WithoutKey(before, key);
    if Holds(before, key) {
      LookupFinds(before, key);
      WithoutShrinks(before, key);
    }
  }
}

/** Permission checks through the cache, while grants change underneath. */
module Authorization {
  import opened Outcome
  import opened Sums
  import opened CacheKeys
  import opened LruCache

  datatype Grant = Grant(maxAmount: Option<int>)

  ghost predicate IsVerdict(grants: seq<Grant>, v: Verdict) {
    && (v.allowed <==> grants != [])
    && (v.cap.None? <==> grants == [] || exists g :: g in grants && g.maxAmount.None?)
    && (v.cap.Some? ==> Grant(v.cap) in grants && forall g :: g in grants ==> g.maxAmount.value <= v.cap.value)
  }

  function MaxCap(grants: seq<Grant>): Option<int> {
    if grants == [] then None
    else
      var rest := MaxCap(grants[..|grants| - 1]);
      var g := grants[|grants| - 1].maxAmount;
      if g.Some? && (rest.None? || g.value > rest.value) then g else rest
  }

  predicate AnyUncapped(grants: seq<Grant>) { exists g :: g in grants && g.maxAmount.None? }

  function VerdictOf(grants: seq<Grant>): Verdict {
    Verdict(grants != [], if AnyUncapped(grants) then None else MaxCap(grants))
  }

  lemma {:induction false} MaxCapIsMax(grants: seq<Grant>)
    ensures MaxCap(grants).None? <==> forall g :: g in grants ==> g.maxAmount.None?
    ensures MaxCap(grants).Some? ==> Grant(MaxCap(grants)) in grants && forall g :: g in grants && g.maxAmount.Some? ==>
            g.maxAmount.value <= MaxCap(grants).value
  {
    if grants != [] {
      var n := |grants| - 1;
      MaxCapIsMax(grants[..n]);
      assert grants == grants[..n] + [grants[n]];
    }
  }

  /** Denied without grants; otherwise capped by the largest cap, unless some grant has none. */
  lemma VerdictIsExact(grants: seq<Grant>)
    ensures IsVerdict(grants, VerdictOf(grants))
    ensures forall v :: IsVerdict(grants, v) ==> v == VerdictOf(grants)
  {
    MaxCapIsMax(grants);
    if grants != [] {
      assert grants[0] in grants;
    }
  }

  method ComputeOutcome(grants: seq<Grant>) returns (v: Verdict)
    ensures v == VerdictOf(grants)
  {
    if |grants| == 0 {
      return Verdict(false, None);
    }
    var anyUncapped := false;
    var maxCapped: Option<int> := None;
    for i := 0 to |grants|
      invariant anyUncapped <==> AnyUncapped(grants[..i])
      invariant maxCapped == MaxCap(grants[..i])
    {
      PrefixSnoc(grants, i);
      assert grants[..i + 1][..i] == grants[..i];
      if grants[i].maxAmount.None? {
        assert grants[i] in grants[..i + 1];
        anyUncapped := true;
      } else if maxCapped.None? || grants[i].maxAmount.value > maxCapped.value {
        maxCapped := grants[i].maxAmount;
      }
    }
    assert grants[..|grants|] == grants;
    return Verdict(true, if anyUncapped then None else maxCapped);
  }

  // ------------------------------------------------------------------- runs

  /** What the store is asked: whether a resource is named does not matter to it. */
  datatype Scope = Scope(tenantId: string, userId: string, permissionKey: string, branch: Option<string>)

  type Store = map<Scope, seq<Grant>>

  function ScopeOf(q: Query): Scope { Scope(q.tenantId, q.userId, q.permissionKey, q.relevantBranch) }

  function Current(store: Store, q: Query): Verdict {
    VerdictOf(if ScopeOf(q) in store then store[ScopeOf(q)] else [])
  }

  /** The store as it stood at a step. */
  datatype Moment = Moment(at: int, store: Store)

  /** A miss whose grants have been read and whose outcome is not stored yet. */
  datatype Fill = Fill(query: Query, verdict: Verdict, readAt: int)

  datatype Answer = Answer(query: Query, sensitive: bool, verdict: Verdict, step: nat)

  datatype State = State(store: Store, entries: seq<Entry>, pending: seq<Fill>, history: seq<Moment>,
                         answers: seq<Answer>)

  datatype Config = Config(maxEntries: nat, ttlMs: int, maxDelayMs: int)

  predicate ValidConfig(cfg: Config) { cfg.maxEntries > 0 && cfg.ttlMs > 0 && cfg.maxDelayMs >= 0 }

  datatype Action =
    | Change(now: int, scope: Scope, grants: seq<Grant>)
    | Check(now: int, query: Query, sensitive: bool)
    | Finish(now: int, index: nat)

  const Empty := State(map[], [], [], [], [])

  predicate ClockOk(s: State, now: int) {
    s.history == [] || s.history[|s.history| - 1].at <= now
  }

  function Remember(s: State, now: int, store: Store): seq<Moment> { s.history + [Moment(now, store)] }

  function Answered(s: State, q: Query, sensitive: bool, v: Verdict): seq<Answer> {
    s.answers + [Answer(q, sensitive, v, |s.history|)]
  }

  /** A sensitive check always asks the store; another one asks the cache first and fills it after a miss. */
  function StepCheck(s: State, now: int, q: Query, sensitive: bool, cfg: Config): State {
    var key := BuildCacheKey(q);
    var history := Remember(s, now, s.store);
    if sensitive then s.(history := history, answers := Answered(s, q, true, Current(s.store, q)))
    else if Hit(s.entries, key, now, cfg.ttlMs) then
      s.(history := history, entries := AfterGet(s.entries, key, now, cfg.ttlMs),
         answers := Answered(s, q, false, Lookup(s.entries, key).value.value))
    else
      s.(history := history, entries := AfterGet(s.entries, key, now, cfg.ttlMs),
         pending := s.pending + [Fill(q, Current(s.store, q), now)])
  }

  function StepFinish(s: State, now: int, index: nat, cfg: Config): State
    requires index < |s.pending|
  {
    var f := s.pending[index];
    s.(history := Remember(s, now, s.store),
       entries := AfterSet(s.entries, BuildCacheKey(f.query), f.verdict, now, cfg.maxEntries),
       pending := s.pending[..index] + s.pending[index + 1..],
       answers := Answered(s, f.query, false, f.verdict))
  }

  function Step(s: State, a: Action, cfg: Config): Option<State> {
    if !ClockOk(s, a.now) then None
    else match a
      case Change(now, scope, grants) =>
        var store := s.store[scope := grants];
        Some(s.(store := store, history := Remember(s, now, store)))
      case Check(now, q, sensitive) => Some(StepCheck(s, now, q, sensitive, cfg))
      case Finish(now, index) =>
        if index >= |s.pending| || now - s.pending[index].readAt > cfg.maxDelayMs then None
        else Some(StepFinish(s, now, index, cfg))
  }

  function Exec(s: State, actions: seq<Action>, cfg: Config): Option<State>
    decreases |actions|
  {
    if actions == [] then Some(s)
    else match Step(s, actions[0], cfg)
      case None => None
      case Some(next) => Exec(next, actions[1..], cfg)
  }

  /** The verdict was the right one at some step of that time. */
  ghost predicate HeldAt(history: seq<Moment>, q: Query, v: Verdict, at: int) {
    exists m :: m in history && m.at == at && Current(m.store, q) == v
  }

  /** The verdict was right at a time less than `limit` before `now`. */
  ghost predicate HeldWithin(history: seq<Moment>, q: Query, v: Verdict, now: int, limit: int) {
    exists at :: HeldAt(history, q, v, at) && 0 <= now - at < limit
  }

  ghost predicate AnswerOk(history: seq<Moment>, a: Answer, limit: int) {
    && a.step < |history|
    && if a.sensitive then a.verdict == Current(history[a.step].store, a.query)
       else HeldWithin(history, a.query, a.verdict, history[a.step].at, limit)
  }

  /** Every answer: exact if sensitive, and otherwise right less than `limit` ago. */
  ghost predicate FreshWithin(s: State, limit: int) {
    forall a {:trigger AnswerOk(s.history, a, limit)} :: a in s.answers ==> AnswerOk(s.history, a, limit)
  }

  ghost predicate EntryOk(history: seq<Moment>, e: Entry, delay: int) {
    && (exists q, at :: e.key == BuildCacheKey(q) && HeldAt(history, q, e.value, at) && 0 <= e.storedAt - at <= delay)
    && Past(history, e.storedAt)
  }

  ghost predicate FillOk(history: seq<Moment>, f: Fill) {
    HeldAt(history, f.query, f.verdict, f.readAt) && Past(history, f.readAt)
  }

  ghost predicate Past(history: seq<Moment>, at: int) {
    history != [] && at <= history[|history| - 1].at
  }

  /** What is cached was right at most `delay` before it was stored, so what is answered is `delay` late at most. */
  ghost predicate SoundWithin(s: State, cfg: Config, delay: int) {
    && (forall e {:trigger EntryOk(s.history, e, delay)} :: e in s.entries ==> EntryOk(s.history, e, delay))
    && (forall f {:trigger FillOk(s.history, f)} :: f in s.pending ==> FillOk(s.history, f))
    && FreshWithin(s, cfg.ttlMs + delay)
  }

  lemma HeldStill(history: seq<Moment>, m: Moment, q: Query, v: Verdict, at: int)
    requires HeldAt(history, q, v, at)
    ensures HeldAt(history + [m], q, v, at)
  {
    var x :| x in history && x.at == at && Current(x.store, q) == v;
    assert x in history + [m];
  }

  lemma EntryStill(history: seq<Moment>, m: Moment, e: Entry, delay: int)
    requires EntryOk(history, e, delay) && history[|history| - 1].at <= m.at
    ensures EntryOk(history + [m], e, delay)
  {
    var q, at :| e.key == BuildCacheKey(q) && HeldAt(history, q, e.value, at) && 0 <= e.storedAt - at <= delay;
    HeldStill(history, m, q, e.value, at);
  }

  lemma FillStill(history: seq<Moment>, m: Moment, f: Fill)
    requires FillOk(history, f) && history[|history| - 1].at <= m.at
    ensures FillOk(history + [m], f)
  {
    HeldStill(history, m, f.query, f.verdict, f.readAt);
  }

  lemma AnswerStill(history: seq<Moment>, m: Moment, a: Answer, limit: int)
    requires AnswerOk(history, a, limit)
    ensures AnswerOk(history + [m], a, limit)
  {
    if !a.sensitive {
      var at :| HeldAt(history, a.query, a.verdict, at) && 0 <= history[a.step].at - at < limit;
      HeldStill(history, m, a.query, a.verdict, at);
    }
  }

  lemma {:induction false} WithoutSubset(entries: seq<Entry>, key: string)
    ensures forall e :: e in Without(entries, key) ==> e in entries
  {
    if entries != [] {
      WithoutSubset(entries[1..], key);
    }
  }

  lemma AfterGetSubset(entries: seq<Entry>, key: string, now: int, ttl: int)
    ensures forall e :: e in AfterGet(entries, key, now, ttl) ==> e in entries
  {
    WithoutSubset(entries, key);
    LookupFinds(entries, key);
  }

  lemma AfterSetSubset(entries: seq<Entry>, key: string, value: Verdict, now: int, max: nat)
    ensures forall e :: e in AfterSet(entries, key, value, now, max) ==> e in entries || e == Entry(key, value, now)
  {
    WithoutSubset(entries, key);
  }

  /** Nothing known is lost when a step appends to the history. */
  lemma Carry(s: State, n: State, m: Moment, e: Entry, f: Fill, a: Answer, cfg: Config, delay: int)
    requires SoundWithin(s, cfg, delay) && n.history == s.history + [m] && ClockOk(s, m.at)
    requires forall x :: x in n.entries ==> x in s.entries || (x == e && EntryOk(n.history, e, delay))
    requires forall x :: x in n.pending ==> x in s.pending || (x == f && FillOk(n.history, f))
    requires forall x :: x in n.answers ==> x in s.answers || (x == a && AnswerOk(n.history, a, cfg.ttlMs + delay))
    ensures SoundWithin(n, cfg, delay)
  {
    forall x | x in n.entries ensures EntryOk(n.history, x, delay) {
      if x in s.entries {
        assert EntryOk(s.history, x, delay);
        EntryStill(s.history, m, x, delay);
      }
    }
    forall x | x in n.pending ensures FillOk(n.history, x) {
      if x in s.pending {
        assert FillOk(s.history, x);
        FillStill(s.history, m, x);
      }
    }
    forall x | x in n.answers ensures AnswerOk(n.history, x, cfg.ttlMs + delay) {
      if x in s.answers {
        assert AnswerOk(s.history, x, cfg.ttlMs + delay);
        AnswerStill(s.history, m, x, cfg.ttlMs + delay);
      }
    }
  }

  const NoEntry := Entry("", Verdict(false, None), 0)
  const NoQuery := Query("", "", "", false, None)
  const NoFill := Fill(NoQuery, Verdict(false, None), 0)
  const NoAnswer := Answer(NoQuery, true, Verdict(false, None), 0)

  /** A hit answers with what the store said when the entry was read: the fill delay and the age add up. */
  lemma HitIsHeld(s: State, now: int, q: Query, cfg: Config, delay: int)
    requires SoundWithin(s, cfg, delay) && ClockOk(s, now) && Hit(s.entries, BuildCacheKey(q), now, cfg.ttlMs)
    ensures HeldWithin(s.history, q, Lookup(s.entries, BuildCacheKey(q)).value.value, now, cfg.ttlMs + delay)
  {
    var key := BuildCacheKey(q);
    LookupFinds(s.entries, key);
    var e := Lookup(s.entries, key).value;
    assert EntryOk(s.history, e, delay);
    var r, at :| e.key == BuildCacheKey(r) && HeldAt(s.history, r, e.value, at) && 0 <= e.storedAt - at <= delay;
    KeyIdentifiesQuery(r, q);
  }

  lemma HitKeeps(s: State, now: int, q: Query, cfg: Config, delay: int)
    requires SoundWithin(s, cfg, delay) && ClockOk(s, now) && Hit(s.entries, BuildCacheKey(q), now, cfg.ttlMs)
    ensures SoundWithin(StepCheck(s, now, q, false, cfg), cfg, delay)
  {
    var n := StepCheck(s, now, q, false, cfg);
    var v := Lookup(s.entries, BuildCacheKey(q)).value.value;
    HitIsHeld(s, now, q, cfg, delay);
    var at :| HeldAt(s.history, q, v, at) && 0 <= now - at < cfg.ttlMs + delay;
    HeldStill(s.history, Moment(now, s.store), q, v, at);
    AfterGetSubset(s.entries, BuildCacheKey(q), now, cfg.ttlMs);
    Carry(s, n, Moment(now, s.store), NoEntry, NoFill, Answer(q, false, v, |s.history|), cfg, delay);
  }

  lemma HeldNow(s: State, now: int, q: Query)
    ensures HeldAt(s.history + [Moment(now, s.store)], q, Current(s.store, q), now)
  {
    assert Moment(now, s.store) in s.history + [Moment(now, s.store)];
  }

  lemma MissKeeps(s: State, now: int, q: Query, cfg: Config, delay: int)
    requires SoundWithin(s, cfg, delay) && ClockOk(s, now) && !Hit(s.entries, BuildCacheKey(q), now, cfg.ttlMs)
    ensures SoundWithin(StepCheck(s, now, q, false, cfg), cfg, delay)
  {
    HeldNow(s, now, q);
    AfterGetSubset(s.entries, BuildCacheKey(q), now, cfg.ttlMs);
    var fill := Fill(q, Current(s.store, q), now);
    Carry(s, StepCheck(s, now, q, false, cfg), Moment(now, s.store), NoEntry, fill, NoAnswer, cfg, delay);
  }

  /** What is being stored was right at most `delay` before. */
  ghost predicate HeldRecently(history: seq<Moment>, f: Fill, now: int, delay: int) {
    exists at :: HeldAt(history, f.query, f.verdict, at) && 0 <= now - at <= delay
  }

  lemma FinishKeeps(s: State, now: int, index: nat, cfg: Config, delay: int)
    requires ValidConfig(cfg) && SoundWithin(s, cfg, delay) && ClockOk(s, now) && index < |s.pending|
    requires HeldRecently(Remember(s, now, s.store), s.pending[index], now, delay)
    ensures SoundWithin(StepFinish(s, now, index, cfg), cfg, delay)
  {
    var f := s.pending[index];
    FinishOk(s.history, Moment(now, s.store), f, cfg, delay);
    RemovedSubset(s.pending, index);
    FilledKeeps(s, StepFinish(s, now, index, cfg), now, f, BuildCacheKey(f.query), cfg, delay);
  }

  lemma FilledKeeps(s: State, n: State, now: int, f: Fill, key: string, cfg: Config, delay: int)
    requires SoundWithin(s, cfg, delay) && ClockOk(s, now) && n.history == s.history + [Moment(now, s.store)]
    requires n.entries == AfterSet(s.entries, key, f.verdict, now, cfg.maxEntries)
    requires n.answers == s.answers + [Answer(f.query, false, f.verdict, |s.history|)]
    requires forall x :: x in n.pending ==> x in s.pending
    requires EntryOk(n.history, Entry(key, f.verdict, now), delay)
    requires AnswerOk(n.history, Answer(f.query, false, f.verdict, |s.history|), cfg.ttlMs + delay)
    ensures SoundWithin(n, cfg, delay)
  {
    AfterSetSubset(s.entries, key, f.verdict, now, cfg.maxEntries);
    var answer := Answer(f.query, false, f.verdict, |s.history|);
    Carry(s, n, Moment(now, s.store), Entry(key, f.verdict, now), NoFill, answer, cfg, delay);
  }

  lemma RemovedSubset(fills: seq<Fill>, index: nat)
    requires index < |fills|
    ensures forall f :: f in fills[..index] + fills[index + 1..] ==> f in fills
  {
  }

  lemma FinishOk(history: seq<Moment>, m: Moment, f: Fill, cfg: Config, delay: int)
    requires ValidConfig(cfg) && HeldRecently(history + [m], f, m.at, delay)
    ensures EntryOk(history + [m], Entry(BuildCacheKey(f.query), f.verdict, m.at), delay)
    ensures AnswerOk(history + [m], Answer(f.query, false, f.verdict, |history|), cfg.ttlMs + delay)
  {
  }

  /** Every step keeps the bound, if what a finished fill stores is recent enough. */
  lemma StepKeeps(s: State, a: Action, n: State, cfg: Config, delay: int)
    requires ValidConfig(cfg) && SoundWithin(s, cfg, delay) && Step(s, a, cfg) == Some(n)
    requires a.Finish? ==> HeldRecently(Remember(s, a.now, s.store), s.pending[a.index], a.now, delay)
    ensures SoundWithin(n, cfg, delay)
  {
    match a
    case Change(now, scope, grants) => Carry(s, n, Moment(now, n.store), NoEntry, NoFill, NoAnswer, cfg, delay);
    case Check(now, q, sensitive) =>
      if sensitive {
        Carry(s, n, Moment(now, s.store), NoEntry, NoFill, Answer(q, true, Current(s.store, q), |s.history|), cfg,
              delay);
      } else if Hit(s.entries, BuildCacheKey(q), now, cfg.ttlMs) {
        HitKeeps(s, now, q, cfg, delay);
      } else {
        MissKeeps(s, now, q, cfg, delay);
      }
    case Finish(now, index) => FinishKeeps(s, now, index, cfg, delay);
  }

  /** A fill that waited at most `delay` stores what was right when it was read. */
  lemma FillIsRecent(s: State, now: int, f: Fill, delay: int)
    requires FillOk(s.history, f) && ClockOk(s, now) && now - f.readAt <= delay
    ensures HeldRecently(Remember(s, now, s.store), f, now, delay)
  {
    HeldStill(s.history, Moment(now, s.store), f.query, f.verdict, f.readAt);
  }

  lemma {:induction false} ExecKeeps(s: State, actions: seq<Action>, cfg: Config)
    requires ValidConfig(cfg) && SoundWithin(s, cfg, cfg.maxDelayMs) && Exec(s, actions, cfg).Some?
    ensures SoundWithin(Exec(s, actions, cfg).value, cfg, cfg.maxDelayMs)
    decreases |actions|
  {
    if actions != [] {
      var a := actions[0];
      if a.Finish? {
        assert s.pending[a.index] in s.pending && FillOk(s.history, s.pending[a.index]);
        FillIsRecent(s, a.now, s.pending[a.index], cfg.maxDelayMs);
      }
      StepKeeps(s, a, Step(s, a, cfg).value, cfg, cfg.maxDelayMs);
      ExecKeeps(Step(s, a, cfg).value, actions[1..], cfg);
    }
  }

  /** Over every run, sensitive answers are exact and all others were right within TTL plus the longest fill. */
  lemma AnswersAreFresh(actions: seq<Action>, cfg: Config)
    requires ValidConfig(cfg) && Exec(Empty, actions, cfg).Some?
    ensures FreshWithin(Exec(Empty, actions, cfg).value, cfg.ttlMs + cfg.maxDelayMs)
  {
    ExecKeeps(Empty, actions, cfg);
  }

  // ------------------------------------------- the same, from the changes alone

  /** The grants of a scope after some actions: those of its last change. */
  function GrantsAfter(actions: seq<Action>, tenantId: string, userId: string, permissionKey: string,
                       branch: Option<string>): seq<Grant>
  {
    if actions == [] then []
    else
      var last := actions[|actions| - 1];
      if last.Change? && last.scope == Scope(tenantId, userId, permissionKey, branch) then last.grants
      else GrantsAfter(actions[..|actions| - 1], tenantId, userId, permissionKey, branch)
  }

  /** The one outcome of the grants that a user has in a branch after some actions. */
  ghost predicate IsOutcome(actions: seq<Action>, q: Query, v: Verdict) {
    IsVerdict(GrantsAfter(actions, q.tenantId, q.userId, q.permissionKey, q.relevantBranch), v)
  }

  /** The history holds one moment per action: its time, and the grants after it. */
  ghost predicate Chronicles(s: State, actions: seq<Action>) {
    && |s.history| == |actions|
    && (forall i :: 0 <= i < |actions| ==> s.history[i].at == actions[i].now)
    && (forall i, q {:trigger Current(s.history[i].store, q)} :: 0 <= i < |actions| ==>
          IsOutcome(actions[..i + 1], q, Current(s.history[i].store, q)))
    && (forall q {:trigger Current(s.store, q)} :: IsOutcome(actions, q, Current(s.store, q)))
  }

  lemma GrantsSnoc(actions: seq<Action>, a: Action, q: Query)
    ensures GrantsAfter(actions + [a], q.tenantId, q.userId, q.permissionKey, q.relevantBranch)
            == if a.Change? && a.scope == Scope(q.tenantId, q.userId, q.permissionKey, q.relevantBranch) then a.grants
               else GrantsAfter(actions, q.tenantId, q.userId, q.permissionKey, q.relevantBranch)
  {
    assert (actions + [a])[..|actions|] == actions;
  }

  lemma OutcomeAfterStep(s: State, actions: seq<Action>, a: Action, n: State, cfg: Config, q: Query)
    requires IsOutcome(actions, q, Current(s.store, q)) && Step(s, a, cfg) == Some(n)
    ensures IsOutcome(actions + [a], q, Current(n.store, q))
  {
    GrantsSnoc(actions, a, q);
    if a.Change? {
      VerdictIsExact(a.grants);
    }
  }

  lemma StepRemembers(s: State, a: Action, n: State, cfg: Config)
    requires Step(s, a, cfg) == Some(n)
    ensures n.history == s.history + [Moment(a.now, n.store)]
  {
  }

  lemma StepChronicles(s: State, actions: seq<Action>, a: Action, n: State, cfg: Config)
    requires Chronicles(s, actions) && Step(s, a, cfg) == Some(n)
    ensures Chronicles(n, actions + [a])
  {
    var more := actions + [a];
    StepRemembers(s, a, n, cfg);
    assert more[..|more|] == more;
    forall q ensures IsOutcome(more, q, Current(n.store, q)) {
      assert IsOutcome(actions, q, Current(s.store, q));
      OutcomeAfterStep(s, actions, a, n, cfg, q);
    }
    forall i, q | 0 <= i < |more| ensures IsOutcome(more[..i + 1], q, Current(n.history[i].store, q)) {
      if i < |actions| {
        assert more[..i + 1] == actions[..i + 1] && n.history[i] == s.history[i];
        assert IsOutcome(actions[..i + 1], q, Current(s.history[i].store, q));
      } else {
        assert more[..i + 1] == more && n.history[i].store == n.store;
        assert IsOutcome(more, q, Current(n.store, q));
      }
    }
  }

  lemma {:induction false} ExecChronicles(s: State, before: seq<Action>, actions: seq<Action>, cfg: Config)
    requires Chronicles(s, before) && Exec(s, actions, cfg).Some?
    ensures Chronicles(Exec(s, actions, cfg).value, before + actions)
    decreases |actions|
  {
    if actions == [] {
      NothingMore(before);
    } else {
      var n := Step(s, actions[0], cfg).value;
      StepChronicles(s, before, actions[0], n, cfg);
      ExecChronicles(n, before + [actions[0]], actions[1..], cfg);
      Regroup(before, actions);
    }
  }

  lemma NothingMore(before: seq<Action>)
    ensures before + [] == before && [] + before == before
  {
  }

  lemma Regroup(before: seq<Action>, actions: seq<Action>)
    requires actions != []
    ensures before + [actions[0]] + actions[1..] == before + actions
  {
  }

  lemma RunChronicles(actions: seq<Action>, cfg: Config)
    requires Exec(Empty, actions, cfg).Some?
    ensures Chronicles(Exec(Empty, actions, cfg).value, actions)
  {
    EmptyChronicles();
    ExecChronicles(Empty, [], actions, cfg);
    NothingMore(actions);
  }

  lemma OutcomeThen(s: State, actions: seq<Action>, q: Query, i: nat)
    requires Chronicles(s, actions) && i < |actions|
    ensures s.history[i].at == actions[i].now && IsOutcome(actions[..i + 1], q, Current(s.history[i].store, q))
  {
  }

  lemma EmptyChronicles()
    ensures Chronicles(Empty, [])
  {
    forall q ensures IsOutcome([], q, Current(Empty.store, q)) {
    }
  }

  /** An answer is the outcome of the grants after action `i`, less than `limit` before the action that answered. */
  ghost predicate AnswersAfter(actions: seq<Action>, a: Answer, i: nat, limit: int) {
    && i < |actions| && a.step < |actions| && IsOutcome(actions[..i + 1], a.query, a.verdict)
    && if a.sensitive then i == a.step else 0 <= actions[a.step].now - actions[i].now < limit
  }

  /**
   * On every run each answer is the outcome of grants that the user really had in that branch: at the
   * very action that answered if the check was sensitive, and else less than TTL plus fill time before.
   */
  lemma AnswersComeFromGrants(actions: seq<Action>, cfg: Config, a: Answer) returns (i: nat)
    requires ValidConfig(cfg) && Exec(Empty, actions, cfg).Some? && a in Exec(Empty, actions, cfg).value.answers
    ensures AnswersAfter(actions, a, i, cfg.ttlMs + cfg.maxDelayMs)
  {
    AnswersAreFresh(actions, cfg);
    RunChronicles(actions, cfg);
    assert AnswerOk(Exec(Empty, actions, cfg).value.history, a, cfg.ttlMs + cfg.maxDelayMs);
    i := AnswerFromHistory(Exec(Empty, actions, cfg).value, actions, a, cfg.ttlMs + cfg.maxDelayMs);
  }

  lemma AnswerFromHistory(s: State, actions: seq<Action>, a: Answer, limit: int) returns (i: nat)
    requires Chronicles(s, actions) && AnswerOk(s.history, a, limit)
    ensures AnswersAfter(actions, a, i, limit)
  {
    if a.sensitive {
      i := a.step;
    } else {
      var at :| HeldAt(s.history, a.query, a.verdict, at) && 0 <= s.history[a.step].at - at < limit;
      var m :| m in s.history && m.at == at && Current(m.store, a.query) == a.verdict;
      i :| 0 <= i < |s.history| && s.history[i] == m;
      OutcomeThen(s, actions, a.query, a.step);
    }
    OutcomeThen(s, actions, a.query, i);
  }

  // ---------------------------------------------------- every check is answered

  datatype Question = Question(query: Query, sensitive: bool)

  function QuestionOf(a: Answer): Question { Question(a.query, a.sensitive) }

  function WaitingOf(f: Fill): Question { Question(f.query, false) }

  /** The questions answered so far and those whose fill is under way. */
  function Handled(s: State): multiset<Question> {
    multiset(Apply(QuestionOf, s.answers)) + multiset(Apply(WaitingOf, s.pending))
  }

  function Asked(actions: seq<Action>): multiset<Question> {
    if actions == [] then multiset{}
    else
      (if actions[0].Check? then multiset{Question(actions[0].query, actions[0].sensitive)} else multiset{})
      + Asked(actions[1..])
  }

  lemma AnswerAdded(answers: seq<Answer>, a: Answer)
    ensures multiset(Apply(QuestionOf, answers + [a])) == multiset(Apply(QuestionOf, answers)) + multiset{QuestionOf(a)}
  {
    assert Apply(QuestionOf, answers + [a]) == Apply(QuestionOf, answers) + [QuestionOf(a)];
  }

  lemma FillAdded(fills: seq<Fill>, f: Fill)
    ensures multiset(Apply(WaitingOf, fills + [f])) == multiset(Apply(WaitingOf, fills)) + multiset{WaitingOf(f)}
  {
    assert Apply(WaitingOf, fills + [f]) == Apply(WaitingOf, fills) + [WaitingOf(f)];
  }

  /** What a check adds: an answer at once, or a fill under way. */
  lemma CheckHandles(s: State, now: int, q: Query, sensitive: bool, cfg: Config)
    ensures Handled(StepCheck(s, now, q, sensitive, cfg)) == Handled(s) + multiset{Question(q, sensitive)}
  {
    if sensitive {
      AnswerHandles(s, StepCheck(s, now, q, true, cfg), Answer(q, true, Current(s.store, q), |s.history|));
    } else if Hit(s.entries, BuildCacheKey(q), now, cfg.ttlMs) {
      var v := Lookup(s.entries, BuildCacheKey(q)).value.value;
      AnswerHandles(s, StepCheck(s, now, q, false, cfg), Answer(q, false, v, |s.history|));
    } else {
      FillAdded(s.pending, Fill(q, Current(s.store, q), now));
    }
  }

  lemma AnswerHandles(s: State, n: State, a: Answer)
    requires n.answers == s.answers + [a] && n.pending == s.pending
    ensures Handled(n) == Handled(s) + multiset{Question(a.query, a.sensitive)}
  {
    AnswerAdded(s.answers, a);
  }

  lemma FinishHandles(s: State, now: int, index: nat, cfg: Config)
    requires index < |s.pending|
    ensures Handled(StepFinish(s, now, index, cfg)) == Handled(s)
  {
    var f := s.pending[index];
    AnswerAdded(s.answers, Answer(f.query, false, f.verdict, |s.history|));
    ApplyRemove(WaitingOf, s.pending, index);
  }

  lemma StepHandles(s: State, a: Action, n: State, cfg: Config)
    requires Step(s, a, cfg) == Some(n)
    ensures Handled(n) == Handled(s) + if a.Check? then multiset{Question(a.query, a.sensitive)} else multiset{}
  {
    match a
    case Change(_, _, _) =>
    case Check(now, q, sensitive) => CheckHandles(s, now, q, sensitive, cfg);
    case Finish(now, index) => FinishHandles(s, now, index, cfg);
  }

  lemma {:induction false} ExecHandles(s: State, actions: seq<Action>, cfg: Config)
    requires Exec(s, actions, cfg).Some?
    ensures Handled(Exec(s, actions, cfg).value) == Handled(s) + Asked(actions)
    decreases |actions|
  {
    if actions != [] {
      var n := Step(s, actions[0], cfg).value;
      StepHandles(s, actions[0], n, cfg);
      ExecHandles(n, actions[1..], cfg);
    }
  }

  /** On every run each check has one answer of its own, or one fill that is still under way. */
  lemma EveryCheckHandledOnce(actions: seq<Action>, cfg: Config)
    requires Exec(Empty, actions, cfg).Some?
    ensures Handled(Exec(Empty, actions, cfg).value) == Asked(actions)
  {
    ExecHandles(Empty, actions, cfg);
  }

  // -------------------------------------------------- no smaller bound will do

  /** Every run keeps the bound. */
  ghost predicate AlwaysFresh(cfg: Config, limit: int) {
    forall actions {:trigger Exec(Empty, actions, cfg)} ::
      Exec(Empty, actions, cfg).Some? ==> FreshWithin(Exec(Empty, actions, cfg).value, limit)
  }

  /** Read, then granted, stored at the last moment and asked for again just before it expires. */
  function StaleRun(cfg: Config, q: Query): seq<Action> {
    [Check(0, q, false), Change(0, ScopeOf(q), [Grant(None)])]
    + [Finish(cfg.maxDelayMs, 0), Check(cfg.maxDelayMs + cfg.ttlMs - 1, q, false)]
  }

  const Denied := Verdict(false, None)

  function Granted(q: Query): Store { map[ScopeOf(q) := [Grant(None)]] }

  function WaitingToFill(q: Query): State {
    State(Granted(q), [], [Fill(q, Denied, 0)], [Moment(0, map[]), Moment(0, Granted(q))], [])
  }

  function Filled(q: Query, delay: int): State {
    State(Granted(q), [Entry(BuildCacheKey(q), Denied, delay)], [],
          [Moment(0, map[]), Moment(0, Granted(q)), Moment(delay, Granted(q))], [Answer(q, false, Denied, 2)])
  }

  lemma GrantedIsAllowed(q: Query)
    ensures Current(Granted(q), q) != Denied && Current(map[], q) == Denied
  {
    assert Grant(None) in [Grant(None)];
  }

  lemma ReadThenGranted(cfg: Config, q: Query)
    ensures Exec(Empty, [Check(0, q, false), Change(0, ScopeOf(q), [Grant(None)])], cfg) == Some(WaitingToFill(q))
  {
    var run := [Check(0, q, false), Change(0, ScopeOf(q), [Grant(None)])];
    var read := StepCheck(Empty, 0, q, false, cfg);
    assert read == State(map[], [], [Fill(q, Denied, 0)], [Moment(0, map[])], []);
    assert run[1..] == [run[1]] && run[1..][1..] == [];
    assert read.history + [Moment(0, Granted(q))] == WaitingToFill(q).history;
    assert Step(read, run[1], cfg) == Some(WaitingToFill(q));
    assert Exec(read, run[1..], cfg) == Some(WaitingToFill(q));
  }

  lemma FillAfterChange(cfg: Config, q: Query)
    requires ValidConfig(cfg)
    ensures Step(WaitingToFill(q), Finish(cfg.maxDelayMs, 0), cfg) == Some(Filled(q, cfg.maxDelayMs))
  {
    var s, delay := WaitingToFill(q), cfg.maxDelayMs;
    assert s.pending[..0] + s.pending[1..] == [];
    assert s.history + [Moment(delay, s.store)] == Filled(q, delay).history;
    assert Without([], BuildCacheKey(q)) + [Entry(BuildCacheKey(q), Denied, delay)] == Filled(q, delay).entries;
    assert s.answers + [Answer(q, false, Denied, 2)] == Filled(q, delay).answers;
  }

  lemma ServedLate(cfg: Config, q: Query, now: int)
    requires ValidConfig(cfg) && now == cfg.maxDelayMs + cfg.ttlMs - 1
    ensures var n := StepCheck(Filled(q, cfg.maxDelayMs), now, q, false, cfg);
            && n.history == Filled(q, cfg.maxDelayMs).history + [Moment(now, Granted(q))]
            && Answer(q, false, Denied, 3) in n.answers
  {
    var s := Filled(q, cfg.maxDelayMs);
    assert Lookup(s.entries, BuildCacheKey(q)) == Some(s.entries[0]);
    assert StepCheck(s, now, q, false, cfg).answers == s.answers + [Answer(q, false, Denied, 3)];
  }

  lemma LateAnswerIsStale(q: Query, delay: int, now: int)
    ensures !AnswerOk(Filled(q, delay).history + [Moment(now, Granted(q))], Answer(q, false, Denied, 3), now)
  {
    GrantedIsAllowed(q);
    var history := Filled(q, delay).history + [Moment(now, Granted(q))];
    assert history == [Moment(0, map[]), Moment(0, Granted(q)), Moment(delay, Granted(q)), Moment(now, Granted(q))];
    forall at | HeldAt(history, q, Denied, at) ensures at == 0 {
      var m :| m in history && m.at == at && Current(m.store, q) == Denied;
      assert m.store != Granted(q);
    }
  }

  lemma AnswerOkWithin(history: seq<Moment>, a: Answer, limit: int, wider: int)
    requires AnswerOk(history, a, limit) && limit <= wider
    ensures AnswerOk(history, a, wider)
  {
  }

  lemma FreshWithinWider(s: State, limit: int, wider: int)
    requires FreshWithin(s, limit) && limit <= wider
    ensures FreshWithin(s, wider)
  {
    forall a | a in s.answers ensures AnswerOk(s.history, a, wider) {
      AnswerOkWithin(s.history, a, limit, wider);
    }
  }

  lemma StaleAnswer(s: State, a: Answer, limit: int)
    requires a in s.answers && !AnswerOk(s.history, a, limit)
    ensures !FreshWithin(s, limit)
  {
  }

  lemma ExecThen(s: State, first: seq<Action>, a: Action, b: Action, cfg: Config, m: State, n: State, r: State)
    requires Exec(s, first, cfg) == Some(m) && Step(m, a, cfg) == Some(n) && Step(n, b, cfg) == Some(r)
    ensures Exec(s, first + [a, b], cfg) == Some(r)
  {
    ExecAppend(s, first, [a, b], cfg);
    ExecTwo(m, a, b, cfg, n, r);
  }

  lemma StaleRunEnds(cfg: Config, q: Query, now: int)
    requires ValidConfig(cfg) && now == cfg.maxDelayMs + cfg.ttlMs - 1
    ensures Exec(Empty, StaleRun(cfg, q), cfg) == Some(StepCheck(Filled(q, cfg.maxDelayMs), now, q, false, cfg))
  {
    var filled, first := Filled(q, cfg.maxDelayMs), [Check(0, q, false), Change(0, ScopeOf(q), [Grant(None)])];
    ReadThenGranted(cfg, q);
    FillAfterChange(cfg, q);
    ExecThen(Empty, first, Finish(cfg.maxDelayMs, 0), Check(now, q, false), cfg, WaitingToFill(q), filled,
             StepCheck(filled, now, q, false, cfg));
  }

  /** The denial is served until one instant before the TTL plus the time to store it, for any such times. */
  lemma StaleRunIsStale(cfg: Config, q: Query)
    requires ValidConfig(cfg)
    ensures Exec(Empty, StaleRun(cfg, q), cfg).Some?
    ensures !FreshWithin(Exec(Empty, StaleRun(cfg, q), cfg).value, cfg.ttlMs + cfg.maxDelayMs - 1)
  {
    var now := cfg.maxDelayMs + cfg.ttlMs - 1;
    StaleRunEnds(cfg, q, now);
    ServedLate(cfg, q, now);
    LateAnswerIsStale(q, cfg.maxDelayMs, now);
    StaleAnswer(StepCheck(Filled(q, cfg.maxDelayMs), now, q, false, cfg), Answer(q, false, Denied, 3), now);
  }

  lemma {:induction false} ExecAppend(s: State, a: seq<Action>, b: seq<Action>, cfg: Config)
    requires Exec(s, a, cfg).Some?
    ensures Exec(s, a + b, cfg) == Exec(Exec(s, a, cfg).value, b, cfg)
    decreases |a|
  {
    if a == [] {
      assert a + b == b;
    } else {
      assert (a + b)[1..] == a[1..] + b;
      ExecAppend(Step(s, a[0], cfg).value, a[1..], b, cfg);
    }
  }

  lemma ExecTwo(s: State, a: Action, b: Action, cfg: Config, m: State, n: State)
    requires Step(s, a, cfg) == Some(m) && Step(m, b, cfg) == Some(n)
    ensures Exec(s, [a, b], cfg) == Some(n)
  {
    assert [a, b][1..] == [b] && [b][1..] == [];
    assert Exec(m, [b], cfg) == Some(n);
  }

  /** TTL plus the longest fill is the exact bound: it holds on every run, and no smaller one does. */
  lemma FreshnessBoundIsExact(cfg: Config, limit: int)
    requires ValidConfig(cfg)
    ensures AlwaysFresh(cfg, limit) <==> limit >= cfg.ttlMs + cfg.maxDelayMs
  {
    if limit >= cfg.ttlMs + cfg.maxDelayMs {
      forall actions | Exec(Empty, actions, cfg).Some? ensures FreshWithin(Exec(Empty, actions, cfg).value, limit) {
        AnswersAreFresh(actions, cfg);
        FreshWithinWider(Exec(Empty, actions, cfg).value, cfg.ttlMs + cfg.maxDelayMs, limit);
      }
    } else {
      SmallerBoundFails(cfg, limit);
    }
  }

  lemma SmallerBoundFails(cfg: Config, limit: int)
    requires ValidConfig(cfg) && limit < cfg.ttlMs + cfg.maxDelayMs
    ensures !AlwaysFresh(cfg, limit)
  {
    StaleRunIsStale(cfg, NoQuery);
    var late := Exec(Empty, StaleRun(cfg, NoQuery), cfg).value;
    assert !FreshWithin(late, limit) by {
      if FreshWithin(late, limit) {
        FreshWithinWider(late, limit, cfg.ttlMs + cfg.maxDelayMs - 1);
      }
    }
  }

  // ------------------------------------------------- when the TTL alone is enough

  /** The grants of a scope do not change while a fill of that scope waits to be stored. */
  ghost predicate Undisturbed(s: State, actions: seq<Action>, cfg: Config)
    decreases |actions|
  {
    actions == [] ||
    (&& (actions[0].Change? ==> forall f :: f in s.pending ==> ScopeOf(f.query) != actions[0].scope)
     && (Step(s, actions[0], cfg).Some? ==> Undisturbed(Step(s, actions[0], cfg).value, actions[1..], cfg)))
  }

  /** What waits to be stored is still right. */
  ghost predicate FillsCurrent(s: State) {
    forall f :: f in s.pending ==> f.verdict == Current(s.store, f.query)
  }

  lemma StepKeepsFills(s: State, a: Action, n: State, cfg: Config)
    requires FillsCurrent(s) && Step(s, a, cfg) == Some(n)
    requires a.Change? ==> forall f :: f in s.pending ==> ScopeOf(f.query) != a.scope
    ensures FillsCurrent(n)
  {
    if a.Finish? {
      RemovedSubset(s.pending, a.index);
    }
  }

  lemma {:induction false} UndisturbedKeeps(s: State, actions: seq<Action>, cfg: Config)
    requires ValidConfig(cfg) && SoundWithin(s, cfg, 0) && FillsCurrent(s)
    requires Exec(s, actions, cfg).Some? && Undisturbed(s, actions, cfg)
    ensures SoundWithin(Exec(s, actions, cfg).value, cfg, 0)
    decreases |actions|
  {
    if actions != [] {
      var a := actions[0];
      var n := Step(s, a, cfg).value;
      if a.Finish? {
        assert s.pending[a.index] in s.pending;
        HeldNow(s, a.now, s.pending[a.index].query);
        assert HeldRecently(Remember(s, a.now, s.store), s.pending[a.index], a.now, 0);
      }
      StepKeeps(s, a, n, cfg, 0);
      StepKeepsFills(s, a, n, cfg);
      UndisturbedKeeps(n, actions[1..], cfg);
    }
  }

  /** However long the fills take: where none of them is overtaken by a change, the TTL alone bounds every answer. */
  lemma UndisturbedFillsKeepTtl(actions: seq<Action>, cfg: Config)
    requires ValidConfig(cfg) && Exec(Empty, actions, cfg).Some? && Undisturbed(Empty, actions, cfg)
    ensures FreshWithin(Exec(Empty, actions, cfg).value, cfg.ttlMs)
  {
    UndisturbedKeeps(Empty, actions, cfg);
  }
}
