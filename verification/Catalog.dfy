/** The category tree: parents never form a cycle, and the menu shows every active category once. */
module ParentChains {
  import opened Outcome

  type Id = string
  type Parents = map<Id, Option<Id>>

  /** The category `n` steps up from `a`; none once the chain has ended. */
  function Up(parents: Parents, a: Id, n: nat): Option<Id> {
    if n == 0 then Some(a)
    else
      match Up(parents, a, n - 1)
      case None => None
      case Some(x) => if x in parents then parents[x] else None
  }

  ghost predicate Climbs(parents: Parents, a: Id, b: Id) { exists n: nat :: Up(parents, a, n) == Some(b) }

  ghost predicate Ends(parents: Parents, a: Id) { exists n: nat :: Up(parents, a, n) == None }

  ghost predicate Acyclic(parents: Parents) {
    forall a, n: nat :: n > 0 ==> Up(parents, a, n) != Some(a)
  }

  lemma {:induction false} UpAdd(parents: Parents, a: Id, m: nat, n: nat)
    ensures Up(parents, a, m + n) == match Up(parents, a, m) case None => None case Some(x) => Up(parents, x, n)
  {
    if n > 0 {
      UpAdd(parents, a, m, n - 1);
      assert m + n - 1 == m + (n - 1);
    }
  }

  /** Once ended, a chain stays ended. */
  lemma EndedStays(parents: Parents, a: Id, m: nat, n: nat)
    requires m <= n && Up(parents, a, m) == None
    ensures Up(parents, a, n) == None
  {
    UpAdd(parents, a, m, n - m);
  }

  /** A chain that returns to its start goes on for ever. */
  lemma {:induction false} CycleNeverEnds(parents: Parents, x: Id, p: nat, n: nat)
    requires p > 0 && Up(parents, x, p) == Some(x)
    ensures Up(parents, x, n).Some?
    decreases n
  {
    if n < p {
      if Up(parents, x, n) == None {
        EndedStays(parents, x, n, p);
      }
    } else {
      UpAdd(parents, x, p, n - p);
      CycleNeverEnds(parents, x, p, n - p);
    }
  }

  /** Meeting the same category twice means the chain has no end. */
  lemma RevisitNeverEnds(parents: Parents, a: Id, i: nat, j: nat)
    requires i < j && Up(parents, a, i).Some? && Up(parents, a, i) == Up(parents, a, j)
    ensures !Ends(parents, a)
  {
    var x := Up(parents, a, i).value;
    UpAdd(parents, a, i, j - i);
    forall n: nat ensures Up(parents, a, n) != None {
      CycleNeverEnds(parents, x, j - i, n);
      UpAdd(parents, a, i, n);
      if Up(parents, a, n) == None {
        EndedStays(parents, a, n, i + n);
      }
    }
  }

  /** What the walk has seen: the first `k` categories of the chain, all different, none of them the target. */
  ghost predicate Walked(parents: Parents, start: Id, target: Id, k: nat, seen: set<Id>) {
    && (forall i: nat {:trigger Up(parents, start, i)} :: i < k ==>
        Up(parents, start, i).Some? && Up(parents, start, i).value in seen && Up(parents, start, i) != Some(target))
    && (forall x :: x in seen ==> x in parents && Meets(parents, start, k, x))
  }

  /** The unbounded walk up the parents: true when it meets the category itself or would never end. */
  method ParentChainContains(categoryId: Id, startParentId: Option<Id>, parentById: Parents) returns (r: bool)
    ensures r <==>
            && startParentId.Some?
            && (Climbs(parentById, startParentId.value, categoryId) || !Ends(parentById, startParentId.value))
  {
    var seen: set<Id> := {};
    var cursor := startParentId;
    ghost var k: nat := 0;
    while cursor.Some?
      invariant startParentId.Some? ==>
                Walked(parentById, startParentId.value, categoryId, k, seen)
                && Up(parentById, startParentId.value, k) == cursor
      invariant startParentId.None? ==> cursor.None?
      decreases parentById.Keys - seen, cursor.Some?
    {
      var x := cursor.value;
      if x == categoryId {
        return true;
      }
      if x in seen {
        assert Meets(parentById, startParentId.value, k, x);
        ghost var i: nat :| i < k && Up(parentById, startParentId.value, i) == Some(x);
        RevisitNeverEnds(parentById, startParentId.value, i, k);
        return true;
      }
      if x !in parentById {
        assert Up(parentById, startParentId.value, k + 1) == None;
        NeverReached(parentById, startParentId.value, categoryId, k + 1);
        return false;
      }
      WalkOn(parentById, startParentId.value, categoryId, k, seen, x);
      seen := seen + {x};
      cursor := parentById[x];
      k := k + 1;
    }
    if startParentId.Some? {
      NeverReached(parentById, startParentId.value, categoryId, k);
    }
    return false;
  }

  lemma WalkOn(parents: Parents, start: Id, target: Id, k: nat, seen: set<Id>, x: Id)
    requires Walked(parents, start, target, k, seen) && Up(parents, start, k) == Some(x) && x != target && x in parents
    ensures Walked(parents, start, target, k + 1, seen + {x})
  {
    forall y | y in seen + {x} ensures y in parents && Meets(parents, start, k + 1, y) {
      if y in seen {
        assert Meets(parents, start, k, y);
        var i: nat :| i < k && Up(parents, start, i) == Some(y);
        assert i < k + 1;
      }
    }
  }

  lemma NeverReached(parents: Parents, start: Id, target: Id, k: nat)
    requires Up(parents, start, k) == None && forall i: nat :: i < k ==> Up(parents, start, i) != Some(target)
    ensures Ends(parents, start) && !Climbs(parents, start, target)
  {
    forall n: nat ensures Up(parents, start, n) != Some(target) {
      if n >= k {
        EndedStays(parents, start, k, n);
      }
    }
  }

  // ------------------------------------------------------------ re-parenting

  /** In a finite acyclic map every chain ends. */
  lemma AcyclicEnds(parents: Parents, a: Id)
    requires Acyclic(parents)
    ensures Ends(parents, a)
  {
    if !Ends(parents, a) {
      LongChain(parents, a, |parents.Keys| + 1);
      var seen := Visited(parents, a, |parents.Keys| + 1);
      assert seen <= parents.Keys;
      SubsetSize(seen, parents.Keys);
    }
  }

  lemma {:induction false} SubsetSize(s: set<Id>, t: set<Id>)
    requires s <= t
    ensures |s| <= |t|
  {
    assert t == s + (t - s);
  }

  ghost function Visited(parents: Parents, a: Id, k: nat): set<Id> {
    if k == 0 then {}
    else Visited(parents, a, k - 1) + (match Up(parents, a, k - 1) case None => {} case Some(x) => {x})
  }

  ghost predicate Meets(parents: Parents, a: Id, k: nat, x: Id) {
    exists i: nat :: i < k && Up(parents, a, i) == Some(x)
  }

  lemma {:induction false} VisitedMember(parents: Parents, a: Id, k: nat, x: Id)
    ensures x in Visited(parents, a, k) <==> Meets(parents, a, k, x)
  {
    if k > 0 {
      VisitedMember(parents, a, k - 1, x);
      if Meets(parents, a, k, x) {
        var i: nat :| i < k && Up(parents, a, i) == Some(x);
        assert i < k - 1 || i == k - 1;
      }
      if Meets(parents, a, k - 1, x) {
        var i: nat :| i < k - 1 && Up(parents, a, i) == Some(x);
        assert i < k;
      }
    }
  }

  /** The first `k` steps of a chain that does not return are `k` different known categories. */
  lemma {:induction false} DistinctChain(parents: Parents, a: Id, k: nat)
    requires forall i: nat, j: nat :: i < j < k && Up(parents, a, i).Some? ==> Up(parents, a, i) != Up(parents, a, j)
    requires forall i: nat :: i < k ==> Up(parents, a, i).Some? && Up(parents, a, i).value in parents
    ensures |Visited(parents, a, k)| == k && Visited(parents, a, k) <= parents.Keys
  {
    if k > 0 {
      DistinctChain(parents, a, k - 1);
      VisitedMember(parents, a, k - 1, Up(parents, a, k - 1).value);
    }
  }

  lemma LongChain(parents: Parents, a: Id, k: nat)
    requires Acyclic(parents) && !Ends(parents, a)
    ensures |Visited(parents, a, k)| == k && Visited(parents, a, k) <= parents.Keys
  {
    forall i: nat | i < k ensures Up(parents, a, i).Some? && Up(parents, a, i).value in parents {
      assert Up(parents, a, i + 1) != None;
    }
    forall i: nat, j: nat | i < j < k && Up(parents, a, i).Some? ensures Up(parents, a, i) != Up(parents, a, j) {
      UpAdd(parents, a, i, j - i);
    }
    DistinctChain(parents, a, k);
  }

  /** Changing one entry does not show on a chain that does not pass it. */
  lemma {:induction false} Avoids(before: Parents, after: Parents, changed: Id, a: Id, n: nat)
    requires before.Keys == after.Keys && forall x :: x in before && x != changed ==> after[x] == before[x]
    requires forall i: nat :: i < n ==> Up(before, a, i) != Some(changed)
    ensures Up(after, a, n) == Up(before, a, n)
  {
    if n > 0 {
      Avoids(before, after, changed, a, n - 1);
      assert Up(before, a, n - 1) != Some(changed);
    }
  }

  lemma {:induction false} FirstHit(parents: Parents, a: Id, b: Id, n: nat) returns (k: nat)
    requires Up(parents, a, n) == Some(b)
    ensures k <= n && Up(parents, a, k) == Some(b) && forall i: nat :: i < k ==> Up(parents, a, i) != Some(b)
  {
    if i: nat :| i < n && Up(parents, a, i) == Some(b) {
      k := FirstHit(parents, a, b, i);
    } else {
      k := n;
    }
  }

  /** From an acyclic map, giving `id` the parent `p` stays acyclic exactly when `p` is not below `id`. */
  lemma ReparentAcyclicExactlyWhen(parents: Parents, id: Id, p: Id)
    requires Acyclic(parents) && id in parents
    ensures Acyclic(parents[id := Some(p)]) <==> !Climbs(parents, p, id)
  {
    var after := parents[id := Some(p)];
    if n: nat :| Up(parents, p, n) == Some(id) {
      var k := FirstHit(parents, p, id, n);
      Avoids(parents, after, id, p, k);
      UpAdd(after, id, 1, k);
      assert Up(after, id, 1) == Some(p) by { assert Up(after, id, 0) == Some(id); }
      assert Up(after, id, 1 + k) == Some(id);
    } else if a, m: nat :| m > 0 && Up(after, a, m) == Some(a) {
      CycleMeansBelow(parents, id, p, a, m);
    }
  }

  lemma CycleMeansBelow(parents: Parents, id: Id, p: Id, a: Id, m: nat)
    requires Acyclic(parents) && id in parents && m > 0 && Up(parents[id := Some(p)], a, m) == Some(a)
    ensures Climbs(parents, p, id)
  {
    var after := parents[id := Some(p)];
    CycleThrough(parents, after, id, a, m);
    var c: nat :| c < m && Up(after, a, c) == Some(id);
    Rotate(after, a, m, c);
    UpAdd(after, id, 1, m - 1);
    assert Up(after, id, 1) == Some(p) by { assert Up(after, id, 0) == Some(id); }
    var k := FirstHit(after, p, id, m - 1);
    Avoids(after, parents, id, p, k);
  }

  /** A new cycle passes the changed entry. */
  lemma CycleThrough(before: Parents, after: Parents, changed: Id, a: Id, m: nat)
    requires before.Keys == after.Keys && forall x :: x in before && x != changed ==> after[x] == before[x]
    requires Acyclic(before) && m > 0 && Up(after, a, m) == Some(a)
    ensures exists c: nat :: c < m && Up(after, a, c) == Some(changed)
  {
    if forall c: nat :: c < m ==> Up(after, a, c) != Some(changed) {
      Avoids(after, before, changed, a, m);
    }
  }

  /** A cycle may be read from any category on it. */
  lemma Rotate(parents: Parents, a: Id, m: nat, c: nat)
    requires m > 0 && Up(parents, a, m) == Some(a) && c < m && Up(parents, a, c).Some?
    ensures Up(parents, Up(parents, a, c).value, m) == Up(parents, a, c)
  {
    UpAdd(parents, a, c, m);
    UpAdd(parents, a, m, c);
  }

  lemma DetachAcyclic(parents: Parents, id: Id)
    requires Acyclic(parents) && id in parents
    ensures Acyclic(parents[id := None])
  {
    var after := parents[id := None];
    if a, m: nat :| m > 0 && Up(after, a, m) == Some(a) {
      CycleThrough(parents, after, id, a, m);
      var c: nat :| c < m && Up(after, a, c) == Some(id);
      Rotate(after, a, m, c);
      assert Up(after, id, 1) == None by { assert Up(after, id, 0) == Some(id); }
      EndedStays(after, id, 1, m);
    }
  }

  /** A new category cannot close a cycle: nothing points to it yet. */
  lemma InsertAcyclic(parents: Parents, id: Id, parent: Option<Id>)
    requires Acyclic(parents) && id !in parents && (forall x :: x in parents ==> parents[x] != Some(id))
             && parent != Some(id)
    ensures Acyclic(parents[id := parent])
  {
    var after := parents[id := parent];
    if a, m: nat :| m > 0 && Up(after, a, m) == Some(a) {
      InsertedChain(parents, after, id, a, m);
    }
  }

  /** Nobody climbs to a category that has no children. */
  lemma {:induction false} NotReached(after: Parents, id: Id, a: Id, n: nat)
    requires (forall x :: x in after ==> after[x] != Some(id)) && n > 0
    ensures Up(after, a, n) != Some(id)
  {
  }

  lemma InsertedChain(parents: Parents, after: Parents, id: Id, a: Id, m: nat)
    requires id !in parents && id in after && after == parents[id := after[id]]
    requires forall x :: x in after ==> after[x] != Some(id)
    requires m > 0 && Up(after, a, m) == Some(a)
    ensures Up(parents, a, m) == Some(a)
  {
    NotReached(after, id, a, m);
    InsertedSame(parents, after, id, a, m);
  }

  lemma {:induction false} InsertedSame(parents: Parents, after: Parents, id: Id, a: Id, n: nat)
    requires id !in parents && id in after && after == parents[id := after[id]] && a != id
    requires forall x :: x in after ==> after[x] != Some(id)
    ensures Up(after, a, n) == Up(parents, a, n)
  {
    if n > 0 {
      InsertedSame(parents, after, id, a, n - 1);
      if n > 1 {
        NotReached(after, id, a, n - 1);
      }
    }
  }
}

module Catalog {
  import opened Outcome
  import opened TextOrder
  import opened Sums
  import opened Sorting
  import opened ParentChains

  datatype Category = Category(id: Id, parent: Option<Id>, sortOrder: int, isActive: bool)

  /** A field that is absent stays as it is. */
  datatype UpdateInput = UpdateInput(parent: Option<Option<Id>>, sortOrder: Option<int>, isActive: Option<bool>)

  function ParentsOf(rows: map<Id, Category>): Parents {
    map x | x in rows :: rows[x].parent
  }

  function Updated(current: Category, input: UpdateInput): Category {
    Category(current.id,
             if input.parent.Some? then input.parent.value else current.parent,
             if input.sortOrder.Some? then input.sortOrder.value else current.sortOrder,
             if input.isActive.Some? then input.isActive.value else current.isActive)
  }

  ghost predicate ValidRows(rows: map<Id, Category>) {
    && Acyclic(ParentsOf(rows))
    && (forall x :: x in rows ==> rows[x].id == x && (rows[x].parent.Some? ==> rows[x].parent.value in rows))
  }

  class CategoryTable {
    var rows: map<Id, Category>

    ghost predicate Valid()
      reads this
    {
      ValidRows(rows)
    }

    constructor ()
      ensures Valid() && rows == map[]
    {
      rows := map[];
    }

    /** Accepted exactly when the parent, if one is named, exists. */
    method CreateCategory(id: Id, parent: Option<Id>, sortOrder: int) returns (r: Result<Category>)
      requires Valid() && id !in rows
      modifies this
      ensures Valid()
      ensures r.Ok? <==> (parent.Some? ==> parent.value in old(rows))
      ensures r.Ok? ==> r.value == Category(id, parent, sortOrder, true) && rows == old(rows)[id := r.value]
      ensures r.Err? ==> rows == old(rows) && r.error == NotFound
    {
      if parent.Some? && parent.value !in rows {
        return Err(NotFound);
      }
      var row := Category(id, parent, sortOrder, true);
      InsertAcyclic(ParentsOf(rows), id, parent);
      assert ParentsOf(rows[id := row]) == ParentsOf(rows)[id := parent];
      rows := rows[id := row];
      return Ok(row);
    }

    /** Accepted exactly when the category and its parent exist and the resulting parents are acyclic. */
    method UpdateCategory(id: Id, input: UpdateInput) returns (r: Result<Category>)
      requires Valid()
      modifies this
      ensures Valid()
      ensures r.Ok? <==>
                && id in old(rows)
                && var next := Updated(old(rows)[id], input);
                   && (next.parent.Some? ==> next.parent.value in old(rows))
                   && Acyclic(ParentsOf(old(rows)[id := next]))
      ensures r.Ok? ==> r.value == Updated(old(rows)[id], input) && rows == old(rows)[id := r.value]
      ensures r.Ok? ==>
                && r.value.id == id
                && r.value.parent == (if input.parent.Some? then input.parent.value else old(rows)[id].parent)
                && r.value.sortOrder == (if input.sortOrder.Some? then input.sortOrder.value
                                         else old(rows)[id].sortOrder)
                && r.value.isActive == (if input.isActive.Some? then input.isActive.value else old(rows)[id].isActive)
      ensures r.Err? ==> rows == old(rows)
      ensures r.Err? && r.error == Validation ==>
                id in old(rows) && !Acyclic(ParentsOf(old(rows))[id := Updated(old(rows)[id], input).parent])
      ensures r.Err? && r.error != Validation ==>
                && r.error == NotFound
                && (id in old(rows) ==> Updated(old(rows)[id], input).parent.Some?
                                        && Updated(old(rows)[id], input).parent.value !in old(rows))
    {
      if id !in rows {
        return Err(NotFound);
      }
      var next := Updated(rows[id], input);
      if next.parent.Some? && next.parent.value !in rows {
        return Err(NotFound);
      }
      var acyclic := AssertAcyclicParent(id, next.parent);
      assert ParentsOf(rows[id := next]) == ParentsOf(rows)[id := next.parent];
      if !acyclic {
        return Err(Validation);
      }
      rows := rows[id := next];
      return Ok(next);
    }

    method AssertAcyclicParent(id: Id, parent: Option<Id>) returns (ok: bool)
      requires Valid() && id in rows
      ensures ok <==> Acyclic(ParentsOf(rows)[id := parent])
    {
      if parent.None? {
        DetachAcyclic(ParentsOf(rows), id);
        return true;
      }
      ReparentAcyclicExactlyWhen(ParentsOf(rows), id, parent.value);
      if parent.value == id {
        assert Up(ParentsOf(rows), id, 0) == Some(id);
        return false;
      }
      var contains := ParentChainContains(id, parent, ParentsOf(rows));
      AcyclicEnds(ParentsOf(rows), parent.value);
      return !contains;
    }

    /** Archiving only hides a category, so it is never refused for one that exists. */
    method ArchiveCategory(id: Id) returns (r: Result<Category>)
      requires Valid()
      modifies this
      ensures Valid()
      ensures r.Ok? <==> id in old(rows)
      ensures r.Ok? ==> r.value == old(rows)[id].(isActive := false) && rows == old(rows)[id := r.value]
      ensures r.Err? ==> rows == old(rows)
    {
      if id in rows {
        assert ParentsOf(rows[id := rows[id].(isActive := false)]) == ParentsOf(rows);
      }
      r := UpdateCategory(id, UpdateInput(None, None, Some(false)));
    }
  }

  // ------------------------------------------------------------- the forest

  datatype Node = Node(category: Category, children: seq<Node>)

  predicate CategoryLe(a: Category, b: Category) {
    a.sortOrder < b.sortOrder || (a.sortOrder == b.sortOrder && !Less(b.id, a.id))
  }

  lemma CategoryLeIsPreorder()
    ensures Preorder(CategoryLe)
  {
    forall a: Category, b: Category ensures CategoryLe(a, b) || CategoryLe(b, a) {
      if Less(b.id, a.id) {
        LessAsymmetric(b.id, a.id);
      }
    }
    forall a: Category, b: Category, c: Category | CategoryLe(a, b) && CategoryLe(b, c) ensures CategoryLe(a, c) {
      if Less(c.id, a.id) {
        LessConnected(a.id, b.id);
        if Less(a.id, b.id) {
          LessTransitive(c.id, a.id, b.id);
        }
      }
    }
  }

  ghost predicate DistinctIds(cats: seq<Category>) {
    forall i, j :: 0 <= i < j < |cats| ==> cats[i].id != cats[j].id
  }

  predicate HasId(cats: seq<Category>, x: Id) { exists c :: c in cats && c.id == x }

  /** Where a category is shown: under its parent when that one is shown too, else at the top. */
  function ShownUnder(cats: seq<Category>, c: Category): Option<Id> {
    if c.parent.Some? && HasId(cats, c.parent.value) then c.parent else None
  }

  /** Those of `seen` that are shown under the parent, in the order given. */
  function Among(cats: seq<Category>, seen: seq<Category>, parent: Option<Id>): seq<Category> {
    Select((c: Category) => ShownUnder(cats, c) == parent, seen)
  }

  function Under(cats: seq<Category>, parent: Option<Id>): seq<Category> {
    Among(cats, cats, parent)
  }

  function Categories(nodes: seq<Node>): seq<Category> {
    Apply((n: Node) => n.category, nodes)
  }

  /** The children of a node are the categories shown under it, in sibling order, each with its own children. */
  ghost predicate IsTree(cats: seq<Category>, node: Node) {
    && Categories(node.children) == SortBy(Under(cats, Some(node.category.id)), CategoryLe)
    && forall i :: 0 <= i < |node.children| ==> IsTree(cats, node.children[i])
  }

  ghost predicate IsForest(cats: seq<Category>, roots: seq<Node>) {
    && Categories(roots) == SortBy(Under(cats, None), CategoryLe)
    && forall i :: 0 <= i < |roots| ==> IsTree(cats, roots[i])
  }

  /** The parents as the forest sees them. */
  ghost function Shown(cats: seq<Category>): Parents
    requires DistinctIds(cats)
  {
    map c | c in cats :: c.id := ShownUnder(cats, c)
  }

  lemma ShownIs(cats: seq<Category>, c: Category)
    requires DistinctIds(cats) && c in cats
    ensures c.id in Shown(cats) && Shown(cats)[c.id] == ShownUnder(cats, c)
  {
  }

  lemma ShownKnown(cats: seq<Category>, x: Id)
    requires DistinctIds(cats) && x in Shown(cats)
    ensures Shown(cats)[x].Some? ==> Shown(cats)[x].value in Shown(cats)
  {
  }

  lemma UnderMembers(cats: seq<Category>, parent: Option<Id>)
    ensures forall c :: c in Under(cats, parent) <==> c in cats && ShownUnder(cats, c) == parent
  {
    SelectMembers((c: Category) => ShownUnder(cats, c) == parent, cats);
  }

  lemma SortedMembers(list: seq<Category>)
    ensures forall c :: c in SortBy(list, CategoryLe) <==> c in list
    ensures |SortBy(list, CategoryLe)| == |list|
  {
    CategoryLeIsPreorder();
    SortByIsSorted(list, CategoryLe);
    SameMembers(SortBy(list, CategoryLe), list);
  }

  // Depth below the top

  ghost predicate AtDepth(parents: Parents, x: Id, d: nat) {
    x in parents && Up(parents, x, d).Some? && Up(parents, x, d + 1) == None
  }

  lemma {:induction false} ChainKnown(cats: seq<Category>, x: Id, i: nat)
    requires DistinctIds(cats) && x in Shown(cats) && Up(Shown(cats), x, i).Some?
    ensures Up(Shown(cats), x, i).value in Shown(cats)
  {
    if i > 0 {
      ChainKnown(cats, x, i - 1);
      ShownKnown(cats, Up(Shown(cats), x, i - 1).value);
    }
  }

  /** No category is deeper than there are categories. */
  lemma DepthBound(cats: seq<Category>, x: Id, d: nat)
    requires DistinctIds(cats) && AtDepth(Shown(cats), x, d)
    ensures d < |Shown(cats).Keys|
  {
    var parents := Shown(cats);
    forall i: nat | i <= d && Up(parents, x, i).Some? ensures Up(parents, x, i).value in parents {
      ChainKnown(cats, x, i);
    }
    ChainFits(parents, x, d);
  }

  lemma ChainFits(parents: Parents, x: Id, d: nat)
    requires Up(parents, x, d).Some? && Up(parents, x, d + 1) == None
    requires forall i: nat :: i <= d && Up(parents, x, i).Some? ==> Up(parents, x, i).value in parents
    ensures d < |parents.Keys|
  {
    forall i: nat | i < d + 1 ensures Up(parents, x, i).Some? {
      if Up(parents, x, i) == None {
        EndedStays(parents, x, i, d);
      }
    }
    forall i: nat, j: nat | i < j < d + 1 && Up(parents, x, i).Some? ensures Up(parents, x, i) != Up(parents, x, j) {
      if Up(parents, x, i) == Up(parents, x, j) {
        RevisitNeverEnds(parents, x, i, j);
      }
    }
    DistinctChain(parents, x, d + 1);
    SubsetSize(Visited(parents, x, d + 1), parents.Keys);
  }

  lemma ChildDepth(cats: seq<Category>, c: Category, child: Category, d: nat)
    requires DistinctIds(cats) && c in cats && child in Under(cats, Some(c.id)) && AtDepth(Shown(cats), c.id, d)
    ensures AtDepth(Shown(cats), child.id, d + 1)
  {
    UnderMembers(cats, Some(c.id));
    ShownIs(cats, child);
    var parents := Shown(cats);
    assert Up(parents, child.id, 1) == Some(c.id) by { assert Up(parents, child.id, 0) == Some(child.id); }
    UpAdd(parents, child.id, 1, d);
    UpAdd(parents, child.id, 1, d + 1);
  }

  lemma TopDepth(cats: seq<Category>, c: Category)
    requires DistinctIds(cats) && c in Under(cats, None)
    ensures AtDepth(Shown(cats), c.id, 0)
  {
    UnderMembers(cats, None);
    ShownIs(cats, c);
    assert Up(Shown(cats), c.id, 0) == Some(c.id);
  }

  // Building

  ghost predicate Collected(cats: seq<Category>, seen: seq<Category>, kids: map<Id, seq<Category>>,
                            roots: seq<Category>) {
    && (forall x :: x in kids <==> HasId(cats, x))
    && (forall x :: x in kids ==> kids[x] == Among(cats, seen, Some(x)))
    && roots == Among(cats, seen, None)
  }

  lemma CollectOne(cats: seq<Category>, seen: seq<Category>, c: Category, kids: map<Id, seq<Category>>,
                   roots: seq<Category>)
    requires Collected(cats, seen, kids, roots) && c in cats
    ensures ShownUnder(cats, c).None? ==> Collected(cats, seen + [c], kids, roots + [c])
    ensures ShownUnder(cats, c).Some? ==>
            c.parent.value in kids && Collected(cats, seen + [c], kids[c.parent.value := kids[c.parent.value] + [c]],
                                                roots)
  {
    forall x | x in kids
      ensures Among(cats, seen + [c], Some(x))
              == Among(cats, seen, Some(x)) + (if ShownUnder(cats, c) == Some(x) then [c] else [])
    {
      AmongOneMore(cats, seen, c, Some(x));
    }
    AmongOneMore(cats, seen, c, None);
  }

  lemma AmongOneMore(cats: seq<Category>, seen: seq<Category>, c: Category, parent: Option<Id>)
    ensures Among(cats, seen + [c], parent)
            == Among(cats, seen, parent) + (if ShownUnder(cats, c) == parent then [c] else [])
  {
    var keep := (d: Category) => ShownUnder(cats, d) == parent;
    SelectAppend(keep, seen, [c]);
    assert [c][1..] == [];
  }

  /** Attaches every category to its parent or the top, then sorts from the top down. */
  method BuildForest(cats: seq<Category>) returns (roots: seq<Node>)
    requires DistinctIds(cats)
    ensures IsForest(cats, roots)
  {
    var kids: map<Id, seq<Category>> := map c | c in cats :: c.id := [];
    var tops: seq<Category> := [];
    for i := 0 to |cats|
      invariant Collected(cats, cats[..i], kids, tops)
    {
      var c := cats[i];
      CollectOne(cats, cats[..i], c, kids, tops);
      PrefixSnoc(cats, i);
      if c.parent.None? || c.parent.value !in kids {
        tops := tops + [c];
      } else {
        kids := kids[c.parent.value := kids[c.parent.value] + [c]];
      }
    }
    assert cats[..|cats|] == cats;
    forall c | c in tops ensures AtDepth(Shown(cats), c.id, 0) {
      TopDepth(cats, c);
    }
    UnderMembers(cats, None);
    ghost var bound := |Shown(cats).Keys|;
    forall x, d: nat | AtDepth(Shown(cats), x, d) ensures d < bound {
      DepthBound(cats, x, d);
    }
    roots := SortTree(cats, tops, kids, 0, bound);
    TreesAre(cats, roots, SortBy(tops, CategoryLe));
  }

  ghost predicate Trees(cats: seq<Category>, nodes: seq<Node>, list: seq<Category>) {
    |nodes| == |list| && forall i :: 0 <= i < |nodes| ==> nodes[i].category == list[i] && IsTree(cats, nodes[i])
  }

  lemma TreesAre(cats: seq<Category>, nodes: seq<Node>, list: seq<Category>)
    requires Trees(cats, nodes, list)
    ensures Categories(nodes) == list
  {
  }

  lemma ChildrenBelow(cats: seq<Category>, c: Category, d: nat)
    requires DistinctIds(cats) && c in cats && AtDepth(Shown(cats), c.id, d)
    ensures AllAtDepth(cats, Under(cats, Some(c.id)), d + 1)
  {
    UnderMembers(cats, Some(c.id));
    forall child | child in Under(cats, Some(c.id)) ensures child in cats && AtDepth(Shown(cats), child.id, d + 1) {
      ChildDepth(cats, c, child, d);
    }
  }

  lemma AddTree(cats: seq<Category>, nodes: seq<Node>, list: seq<Category>, c: Category, children: seq<Node>)
    requires Trees(cats, nodes, list) && Trees(cats, children, SortBy(Under(cats, Some(c.id)), CategoryLe))
    ensures Trees(cats, nodes + [Node(c, children)], list + [c])
  {
    TreesAre(cats, children, SortBy(Under(cats, Some(c.id)), CategoryLe));
    assert IsTree(cats, Node(c, children));
  }

  ghost predicate KidsOf(cats: seq<Category>, kids: map<Id, seq<Category>>) {
    forall c {:trigger Under(cats, Some(c.id))} :: c in cats ==> c.id in kids && kids[c.id] == Under(cats, Some(c.id))
  }

  ghost predicate AllAtDepth(cats: seq<Category>, list: seq<Category>, depth: nat)
    requires DistinctIds(cats)
  {
    forall c {:trigger AtDepth(Shown(cats), c.id, depth)} :: c in list ==>
      c in cats && AtDepth(Shown(cats), c.id, depth)
  }

  ghost predicate DepthBelow(cats: seq<Category>, bound: nat)
    requires DistinctIds(cats)
  {
    forall x, d: nat {:trigger AtDepth(Shown(cats), x, d)} :: AtDepth(Shown(cats), x, d) ==> d < bound
  }

  method SortTree(ghost cats: seq<Category>, list: seq<Category>, kids: map<Id, seq<Category>>, ghost depth: nat,
                  ghost bound: nat) returns (nodes: seq<Node>)
    requires DistinctIds(cats) && KidsOf(cats, kids) && AllAtDepth(cats, list, depth) && DepthBelow(cats, bound)
    ensures Trees(cats, nodes, SortBy(list, CategoryLe))
    decreases bound - depth, 2
  {
    var sorted := SortBy(list, CategoryLe);
    SortedMembers(list);
    nodes := [];
    for i := 0 to |sorted|
      invariant Trees(cats, nodes, sorted[..i])
    {
      assert sorted[i] in list && AtDepth(Shown(cats), sorted[i].id, depth);
      var children := SortChildren(cats, sorted[i], kids, depth, bound);
      AddTree(cats, nodes, sorted[..i], sorted[i], children);
      PrefixSnoc(sorted, i);
      nodes := nodes + [Node(sorted[i], children)];
    }
    assert sorted[..|sorted|] == sorted;
  }

  method SortChildren(ghost cats: seq<Category>, c: Category, kids: map<Id, seq<Category>>, ghost depth: nat,
                      ghost bound: nat) returns (children: seq<Node>)
    requires DistinctIds(cats) && KidsOf(cats, kids) && c in cats && AtDepth(Shown(cats), c.id, depth)
             && DepthBelow(cats, bound)
    ensures Trees(cats, children, SortBy(Under(cats, Some(c.id)), CategoryLe))
    decreases bound - depth, 1
  {
    ChildrenBelow(cats, c, depth);
    ghost var under := Under(cats, Some(c.id));
    children := SortTree(cats, kids[c.id], kids, depth + 1, bound);
  }

  // ------------------------------------------------ what the forest contains

  function Occurrences(node: Node, x: Id): nat {
    (if node.category.id == x then 1 else 0) + OccurrencesAll(node.children, x)
  }

  function OccurrencesAll(nodes: seq<Node>, x: Id): nat {
    if nodes == [] then 0 else Occurrences(nodes[0], x) + OccurrencesAll(nodes[1..], x)
  }

  /** One when the chain from `x` passes the category. */
  ghost function Passes(parents: Parents, x: Id, c: Category): int {
    if Climbs(parents, x, c.id) then 1 else 0
  }

  ghost function PassCount(parents: Parents, x: Id, list: seq<Category>): int {
    SumBy(list, (c: Category) => Passes(parents, x, c))
  }

  /** Two siblings cannot both be above the same category. */
  lemma OneSiblingAbove(parents: Parents, x: Id, a: Id, b: Id, m: nat, n: nat)
    requires Ends(parents, x) && m < n && Up(parents, x, m) == Some(a) && Up(parents, x, n) == Some(b)
    requires a in parents && b in parents
    ensures parents[a] != parents[b]
  {
    if parents[a] == parents[b] {
      if parents[a].None? {
        assert Up(parents, x, m + 1) == None;
        EndedStays(parents, x, m + 1, n);
      } else {
        assert Up(parents, x, m + 1) == parents[a] == Up(parents, x, n + 1);
        RevisitNeverEnds(parents, x, m + 1, n + 1);
      }
    }
  }

  lemma SiblingsDistinct(parents: Parents, x: Id, a: Id, b: Id)
    requires Ends(parents, x) && Climbs(parents, x, a) && Climbs(parents, x, b)
    requires a in parents && b in parents && parents[a] == parents[b]
    ensures a == b
  {
    var m: nat :| Up(parents, x, m) == Some(a);
    var n: nat :| Up(parents, x, n) == Some(b);
    if m < n {
      OneSiblingAbove(parents, x, a, b, m, n);
    } else if n < m {
      OneSiblingAbove(parents, x, b, a, n, m);
    }
  }

  lemma {:induction false} SelectDistinct(keep: Category -> bool, cats: seq<Category>)
    requires DistinctIds(cats)
    ensures DistinctIds(Select(keep, cats))
  {
    if cats != [] {
      SelectDistinct(keep, cats[1..]);
      SelectMembers(keep, cats[1..]);
      forall c | c in Select(keep, cats[1..]) ensures c.id != cats[0].id {
        assert c in cats[1..];
      }
      DistinctCons(cats[0], Select(keep, cats[1..]));
    }
  }

  lemma DistinctCons(c: Category, cats: seq<Category>)
    requires DistinctIds(cats) && forall d :: d in cats ==> d.id != c.id
    ensures DistinctIds([c] + cats)
  {
  }

  lemma {:induction false} PassAtMostOnce(parents: Parents, x: Id, list: seq<Category>)
    requires DistinctIds(list)
    requires forall c, d :: c in list && d in list && Climbs(parents, x, c.id) && Climbs(parents, x, d.id) ==>
             c.id == d.id
    ensures PassCount(parents, x, list) == if exists c :: c in list && Climbs(parents, x, c.id) then 1 else 0
  {
    if list != [] {
      PassAtMostOnce(parents, x, list[1..]);
      assert list[0] in list;
      if Climbs(parents, x, list[0].id) {
        forall d | d in list[1..] ensures !Climbs(parents, x, d.id) {
          assert d in list;
        }
      }
    }
  }

  /** Of the categories shown under one parent, the chain of a category that reaches the top passes at most one. */
  lemma PassUnder(cats: seq<Category>, x: Id, parent: Option<Id>)
    requires DistinctIds(cats)
             && (Ends(Shown(cats), x) || forall c :: c in Under(cats, parent) ==> !Climbs(Shown(cats), x, c.id))
    ensures PassCount(Shown(cats), x, Under(cats, parent))
            == if exists c :: c in Under(cats, parent) && Climbs(Shown(cats), x, c.id) then 1 else 0
  {
    SelectDistinct((c: Category) => ShownUnder(cats, c) == parent, cats);
    UnderMembers(cats, parent);
    forall c, d | c in Under(cats, parent) && d in Under(cats, parent) && Climbs(Shown(cats), x, c.id)
      && Climbs(Shown(cats), x, d.id) ensures c.id == d.id
    {
      ShownIs(cats, c);
      ShownIs(cats, d);
      SiblingsDistinct(Shown(cats), x, c.id, d.id);
    }
    PassAtMostOnce(Shown(cats), x, Under(cats, parent));
  }

  lemma PassSorted(parents: Parents, x: Id, list: seq<Category>)
    ensures PassCount(parents, x, SortBy(list, CategoryLe)) == PassCount(parents, x, list)
  {
    CategoryLeIsPreorder();
    SortByIsSorted(list, CategoryLe);
    SumByPermutation(SortBy(list, CategoryLe), list, (c: Category) => Passes(parents, x, c));
  }

  lemma ChainOfAncestorEnds(parents: Parents, x: Id, a: Id)
    requires Climbs(parents, x, a) && Ends(parents, a)
    ensures Ends(parents, x)
  {
    var n: nat :| Up(parents, x, n) == Some(a);
    var m: nat :| Up(parents, a, m) == None;
    UpAdd(parents, x, n, m);
  }

  lemma ChildEnds(cats: seq<Category>, parent: Category, c: Category)
    requires DistinctIds(cats) && c in Under(cats, Some(parent.id)) && Ends(Shown(cats), parent.id)
    ensures Ends(Shown(cats), c.id) && Climbs(Shown(cats), c.id, parent.id)
  {
    UnderMembers(cats, Some(parent.id));
    ShownIs(cats, c);
    assert Up(Shown(cats), c.id, 1) == Some(parent.id) by { assert Up(Shown(cats), c.id, 0) == Some(c.id); }
    ChainOfAncestorEnds(Shown(cats), c.id, parent.id);
  }

  /**
   * Below a node the chain of another category passes exactly one child if it passes the node; its own
   * chain passes none.
   */
  lemma PassChildren(cats: seq<Category>, parent: Category, x: Id)
    requires DistinctIds(cats) && parent in cats && x in Shown(cats) && Ends(Shown(cats), parent.id)
    ensures PassCount(Shown(cats), x, Under(cats, Some(parent.id)))
            == if x != parent.id && Climbs(Shown(cats), x, parent.id) then 1 else 0
  {
    var parents := Shown(cats);
    if c :| c in Under(cats, Some(parent.id)) && Climbs(parents, x, c.id) {
      ChildEnds(cats, parent, c);
      ChainOfAncestorEnds(parents, x, c.id);
      ThroughChild(cats, parent, x, c);
    } else if x != parent.id && Climbs(parents, x, parent.id) {
      var c := ChildOnChain(cats, parent, x);
    }
    PassUnder(cats, x, Some(parent.id));
  }

  lemma ThroughChild(cats: seq<Category>, parent: Category, x: Id, c: Category)
    requires DistinctIds(cats) && c in Under(cats, Some(parent.id)) && Climbs(Shown(cats), x, c.id)
             && Ends(Shown(cats), x)
    ensures x != parent.id && Climbs(Shown(cats), x, parent.id)
  {
    UnderMembers(cats, Some(parent.id));
    ShownIs(cats, c);
    OneFurther(Shown(cats), x, c.id, parent.id);
  }

  lemma OneFurther(parents: Parents, x: Id, c: Id, p: Id)
    requires c in parents && parents[c] == Some(p) && Climbs(parents, x, c) && Ends(parents, x)
    ensures x != p && Climbs(parents, x, p)
  {
    var n: nat :| Up(parents, x, n) == Some(c);
    assert Up(parents, x, n + 1) == Some(p);
    if x == p {
      assert Up(parents, x, 0) == Some(x);
      RevisitNeverEnds(parents, x, 0, n + 1);
    }
  }

  lemma ChildOnChain(cats: seq<Category>, parent: Category, x: Id) returns (c: Category)
    requires DistinctIds(cats) && x in Shown(cats) && x != parent.id && Climbs(Shown(cats), x, parent.id)
    ensures c in Under(cats, Some(parent.id)) && Climbs(Shown(cats), x, c.id)
  {
    var parents := Shown(cats);
    var n: nat :| Up(parents, x, n) == Some(parent.id);
    var y := Up(parents, x, n - 1).value;
    ChainKnown(cats, x, n - 1);
    c :| c in cats && c.id == y;
    ShownIs(cats, c);
    UnderMembers(cats, Some(parent.id));
  }

  lemma {:induction false} OccurrencesInTree(cats: seq<Category>, node: Node, x: Id)
    requires DistinctIds(cats) && IsTree(cats, node) && node.category in cats && x in Shown(cats)
             && Ends(Shown(cats), node.category.id)
    ensures Occurrences(node, x) == Passes(Shown(cats), x, node.category)
    decreases node
  {
    var under := Under(cats, Some(node.category.id));
    SortedMembers(under);
    UnderMembers(cats, Some(node.category.id));
    forall i | 0 <= i < |node.children|
      ensures node.children[i].category in cats && Ends(Shown(cats), node.children[i].category.id)
    {
      assert Categories(node.children)[i] in Categories(node.children);
      ChildEnds(cats, node.category, node.children[i].category);
    }
    OccurrencesInTrees(cats, node.children, x);
    PassSorted(Shown(cats), x, under);
    PassChildren(cats, node.category, x);
    if node.category.id == x {
      assert Up(Shown(cats), x, 0) == Some(x);
    }
  }

  lemma {:induction false} OccurrencesInTrees(cats: seq<Category>, nodes: seq<Node>, x: Id)
    requires DistinctIds(cats) && x in Shown(cats)
    requires forall i :: 0 <= i < |nodes| ==>
             IsTree(cats, nodes[i]) && nodes[i].category in cats && Ends(Shown(cats), nodes[i].category.id)
    ensures OccurrencesAll(nodes, x) == PassCount(Shown(cats), x, Categories(nodes))
    decreases nodes
  {
    if nodes != [] {
      OccurrencesInTree(cats, nodes[0], x);
      OccurrencesInTrees(cats, nodes[1..], x);
      assert Categories(nodes)[1..] == Categories(nodes[1..]);
    }
  }

  lemma {:induction false} TopOfChain(cats: seq<Category>, x: Id, n: nat) returns (c: Category)
    requires DistinctIds(cats) && x in Shown(cats) && Up(Shown(cats), x, n) == None
    ensures c in Under(cats, None) && Climbs(Shown(cats), x, c.id)
  {
    if Up(Shown(cats), x, n - 1) == None {
      c := TopOfChain(cats, x, n - 1);
    } else {
      ChainKnown(cats, x, n - 1);
      c :| c in cats && c.id == Up(Shown(cats), x, n - 1).value;
      ShownIs(cats, c);
      UnderMembers(cats, None);
    }
  }

  /** The forest holds a category once if its chain of shown parents reaches the top, and not at all otherwise. */
  lemma ForestHolds(cats: seq<Category>, roots: seq<Node>, c: Category)
    requires DistinctIds(cats) && IsForest(cats, roots) && c in cats
    ensures OccurrencesAll(roots, c.id) == if Ends(Shown(cats), c.id) then 1 else 0
  {
    var parents := Shown(cats);
    SortedMembers(Under(cats, None));
    UnderMembers(cats, None);
    forall t | t in Under(cats, None) ensures Ends(parents, t.id) {
      TopDepth(cats, t);
    }
    forall i | 0 <= i < |roots| ensures roots[i].category in cats && Ends(parents, roots[i].category.id) {
      assert Categories(roots)[i] in Categories(roots);
    }
    OccurrencesInTrees(cats, roots, c.id);
    PassSorted(parents, c.id, Under(cats, None));
    PassTop(cats, c);
  }

  lemma PassTop(cats: seq<Category>, c: Category)
    requires DistinctIds(cats) && c in cats
    ensures PassCount(Shown(cats), c.id, Under(cats, None)) == if Ends(Shown(cats), c.id) then 1 else 0
  {
    var parents := Shown(cats);
    ShownIs(cats, c);
    if Ends(parents, c.id) {
      var n: nat :| Up(parents, c.id, n) == None;
      var top := TopOfChain(cats, c.id, n);
    } else {
      forall t | t in Under(cats, None) ensures !Climbs(parents, c.id, t.id) {
        TopDepth(cats, t);
        if Climbs(parents, c.id, t.id) {
          ChainOfAncestorEnds(parents, c.id, t.id);
        }
      }
    }
    PassUnder(cats, c.id, None);
  }

  /** The list of what a table shows: its active categories, each once, in any order. */
  ghost predicate ListsActive(rows: map<Id, Category>, cats: seq<Category>) {
    && DistinctIds(cats)
    && (forall c :: c in cats <==> c.id in rows && rows[c.id] == c && c.isActive)
  }

  lemma {:induction false} ShownChain(rows: map<Id, Category>, cats: seq<Category>, a: Id, n: nat)
    requires ListsActive(rows, cats) && Up(Shown(cats), a, n).Some?
    ensures Up(ParentsOf(rows), a, n) == Up(Shown(cats), a, n)
  {
    if n > 0 {
      ShownChain(rows, cats, a, n - 1);
    }
  }

  /** From a table that was kept acyclic, the menu shows every active category exactly once. */
  lemma EveryActiveCategoryOnce(rows: map<Id, Category>, cats: seq<Category>, roots: seq<Node>, c: Category)
    requires ValidRows(rows) && ListsActive(rows, cats) && IsForest(cats, roots) && c in cats
    ensures OccurrencesAll(roots, c.id) == 1
  {
    forall a, n: nat | n > 0 ensures Up(Shown(cats), a, n) != Some(a) {
      if Up(Shown(cats), a, n) == Some(a) {
        ShownChain(rows, cats, a, n);
      }
    }
    AcyclicEnds(Shown(cats), c.id);
    ForestHolds(cats, roots, c);
  }

  /** The category names this parent and it is shown, or the top is meant and it names no parent that is shown. */
  ghost predicate BelongsUnder(cats: seq<Category>, c: Category, parent: Option<Id>) {
    if c.parent.Some? && exists d :: d in cats && Some(d.id) == c.parent then parent == c.parent else parent.None?
  }

  /** Siblings are all that belong there, and ascend strictly by sort order, then identifier. */
  ghost predicate WellPlaced(cats: seq<Category>, siblings: seq<Category>, parent: Option<Id>) {
    && (forall c :: c in siblings <==> c in cats && BelongsUnder(cats, c, parent))
    && (forall i, j :: 0 <= i < j < |siblings| ==>
          siblings[i].sortOrder < siblings[j].sortOrder
            || (siblings[i].sortOrder == siblings[j].sortOrder && Less(siblings[i].id, siblings[j].id)))
  }

  ghost predicate WellPlacedTree(cats: seq<Category>, node: Node) {
    && WellPlaced(cats, Categories(node.children), Some(node.category.id))
    && forall i :: 0 <= i < |node.children| ==> WellPlacedTree(cats, node.children[i])
  }

  lemma {:induction false} OnceInDistinct(cats: seq<Category>, c: Category)
    requires DistinctIds(cats)
    ensures multiset(cats)[c] <= 1
  {
    if cats != [] {
      assert cats == [cats[0]] + cats[1..];
      OnceInDistinct(cats[1..], c);
      if c == cats[0] {
        assert c !in multiset(cats[1..]);
      }
    }
  }

  lemma SortedDistinct(list: seq<Category>, i: nat, j: nat)
    requires DistinctIds(list) && i < j < |list|
    ensures |SortBy(list, CategoryLe)| == |list|
    ensures SortBy(list, CategoryLe)[i].id != SortBy(list, CategoryLe)[j].id
  {
    CategoryLeIsPreorder();
    SortByIsSorted(list, CategoryLe);
    var s := SortBy(list, CategoryLe);
    SortedMembers(list);
    assert s[i] in list && s[j] in list;
    if s[i].id == s[j].id {
      TwiceIn(s, i, j);
      OnceInDistinct(list, s[i]);
    }
  }

  lemma TwiceIn(s: seq<Category>, i: nat, j: nat)
    requires i < j < |s| && s[i] == s[j]
    ensures multiset(s)[s[i]] >= 2
  {
    assert s == s[..i] + [s[i]] + s[i + 1..j] + [s[j]] + s[j + 1..];
  }

  lemma UnderWellPlaced(cats: seq<Category>, parent: Option<Id>)
    requires DistinctIds(cats)
    ensures WellPlaced(cats, SortBy(Under(cats, parent), CategoryLe), parent)
  {
    var under := Under(cats, parent);
    var s := SortBy(under, CategoryLe);
    SelectDistinct((c: Category) => ShownUnder(cats, c) == parent, cats);
    SortedMembers(under);
    UnderMembers(cats, parent);
    CategoryLeIsPreorder();
    SortByIsSorted(under, CategoryLe);
    forall i, j | 0 <= i < j < |s|
      ensures s[i].sortOrder < s[j].sortOrder || (s[i].sortOrder == s[j].sortOrder && Less(s[i].id, s[j].id))
    {
      SortedDistinct(under, i, j);
      assert CategoryLe(s[i], s[j]);
      LessConnected(s[i].id, s[j].id);
    }
    forall c ensures c in s <==> c in cats && BelongsUnder(cats, c, parent) {
      BelongsIsShown(cats, c, parent);
    }
  }

  lemma BelongsIsShown(cats: seq<Category>, c: Category, parent: Option<Id>)
    ensures BelongsUnder(cats, c, parent) <==> ShownUnder(cats, c) == parent
  {
    if c.parent.Some? && HasId(cats, c.parent.value) {
      var d :| d in cats && d.id == c.parent.value;
      assert Some(d.id) == c.parent;
    }
  }

  lemma {:induction false} TreeIsWellPlaced(cats: seq<Category>, node: Node)
    requires DistinctIds(cats) && IsTree(cats, node)
    ensures WellPlacedTree(cats, node)
    decreases node
  {
    UnderWellPlaced(cats, Some(node.category.id));
    forall i | 0 <= i < |node.children| ensures WellPlacedTree(cats, node.children[i]) {
      TreeIsWellPlaced(cats, node.children[i]);
    }
  }

  /** Everything sits under its parent if that is shown and at the top otherwise, siblings in order. */
  lemma ForestIsWellPlaced(cats: seq<Category>, roots: seq<Node>)
    requires DistinctIds(cats) && IsForest(cats, roots)
    ensures WellPlaced(cats, Categories(roots), None)
    ensures forall i :: 0 <= i < |roots| ==> WellPlacedTree(cats, roots[i])
  {
    UnderWellPlaced(cats, None);
    forall i | 0 <= i < |roots| ensures WellPlacedTree(cats, roots[i]) {
      TreeIsWellPlaced(cats, roots[i]);
    }
  }
}
