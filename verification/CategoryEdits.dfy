/** Category edits that overlap: each one reads, checks and writes in transactions of its own. */
module CategoryEdits {
  import opened Outcome
  import opened ParentChains
  import opened Catalog

  type EditId = nat

  /** How far an edit has come: the row it will write, and the parents it has checked that row against. */
  datatype Edit =
    | Begun(next: Category)
    | ParentFound(next: Category)
    | Checked(next: Category, listed: Parents)

  datatype Desk = Desk(rows: map<Id, Category>, edits: map<EditId, Edit>)

  datatype Action =
    | Create(id: Id, parent: Option<Id>, sortOrder: int)
    | Begin(edit: EditId, id: Id, input: UpdateInput)
    | FindParent(edit: EditId)
    | Check(edit: EditId)
    | Write(edit: EditId)
    | GiveUp(edit: EditId)

  /** What the walk up the listed parents lets through. */
  ghost predicate Passes(listed: Parents, id: Id, parent: Option<Id>) {
    parent.Some? ==> !Climbs(listed, parent.value, id) && Ends(listed, parent.value)
  }

  ghost function StepEdit(d: Desk, a: Action, edit: Edit): Option<Desk>
    requires !a.Create? && !a.Begin?
  {
    var next, dropped := edit.next, d.edits - {a.edit};
    match a
    case FindParent(e) =>
      if !edit.Begun? then None
      else if next.parent.Some? && next.parent.value !in d.rows then Some(d.(edits := dropped))
      else Some(d.(edits := d.edits[e := ParentFound(next)]))
    case Check(e) =>
      if !edit.ParentFound? then None
      else if !Passes(ParentsOf(d.rows), next.id, next.parent) then Some(d.(edits := dropped))
      else Some(d.(edits := d.edits[e := Checked(next, ParentsOf(d.rows))]))
    case Write(e) =>
      if !edit.Checked? then None else Some(Desk(d.rows[next.id := next], dropped))
    case GiveUp(_) => Some(d.(edits := dropped))
  }

  /** The row is read whole and written whole, so a write also puts back what others changed since. */
  ghost function Step(d: Desk, a: Action): Option<Desk> {
    match a
    case Create(id, parent, sortOrder) =>
      if id in d.rows then None
      else if parent.Some? && parent.value !in d.rows then Some(d)
      else Some(d.(rows := d.rows[id := Category(id, parent, sortOrder, true)]))
    case Begin(e, id, input) =>
      if e in d.edits then None
      else if id !in d.rows then Some(d)
      else Some(d.(edits := d.edits[e := Begun(Updated(d.rows[id], input))]))
    case _ => if a.edit !in d.edits then None else StepEdit(d, a, d.edits[a.edit])
  }

  ghost function Exec(d: Desk, actions: seq<Action>): Option<Desk>
    decreases |actions|
  {
    if actions == [] then Some(d)
    else match Step(d, actions[0])
      case None => None
      case Some(next) => Exec(next, actions[1..])
  }

  // ---------------------------------------------------------- what every step keeps

  ghost predicate Closed(parents: Parents) {
    forall x :: x in parents && parents[x].Some? ==> parents[x].value in parents
  }

  ghost predicate RowsOk(rows: map<Id, Category>) {
    Closed(ParentsOf(rows)) && forall x :: x in rows ==> rows[x].id == x
  }

  ghost predicate EditOk(rows: map<Id, Category>, edit: Edit) {
    && edit.next.id in rows
    && (!edit.Begun? && edit.next.parent.Some? ==> edit.next.parent.value in rows)
    && (edit.Checked? ==>
          && Closed(edit.listed) && edit.listed.Keys <= rows.Keys
          && (edit.next.parent.Some? ==> edit.next.parent.value in edit.listed)
          && Passes(edit.listed, edit.next.id, edit.next.parent))
  }

  ghost predicate Inv(d: Desk) {
    RowsOk(d.rows) && forall e {:trigger EditOk(d.rows, d.edits[e])} :: e in d.edits ==> EditOk(d.rows, d.edits[e])
  }

  lemma EditStays(rows: map<Id, Category>, more: map<Id, Category>, edit: Edit)
    requires EditOk(rows, edit) && rows.Keys <= more.Keys
    ensures EditOk(more, edit)
  {
  }

  /** No row goes away, and one edit may have moved on. */
  lemma CarryEdits(d: Desk, n: Desk, changed: EditId)
    requires Inv(d) && d.rows.Keys <= n.rows.Keys
    requires forall e :: e in n.edits && e != changed ==> e in d.edits && n.edits[e] == d.edits[e]
    requires changed in n.edits ==> EditOk(n.rows, n.edits[changed])
    ensures forall e :: e in n.edits ==> EditOk(n.rows, n.edits[e])
  {
    forall e | e in n.edits ensures EditOk(n.rows, n.edits[e]) {
      if e != changed {
        assert EditOk(d.rows, d.edits[e]);
        EditStays(d.rows, n.rows, d.edits[e]);
      }
    }
  }

  lemma RowWritten(rows: map<Id, Category>, row: Category)
    requires RowsOk(rows) && (row.parent.Some? ==> row.parent.value in rows)
    ensures RowsOk(rows[row.id := row]) && ParentsOf(rows[row.id := row]) == ParentsOf(rows)[row.id := row.parent]
  {
    var parents, after := ParentsOf(rows), ParentsOf(rows[row.id := row]);
    assert after == parents[row.id := row.parent];
    forall x | x in after && after[x].Some? ensures after[x].value in after {
      assert x != row.id ==> x in parents && parents[x] == after[x];
    }
  }

  lemma StepKeeps(d: Desk, a: Action, n: Desk)
    requires Inv(d) && Step(d, a) == Some(n)
    ensures Inv(n)
  {
    match a
    case Create(id, parent, sortOrder) =>
      if n != d {
        RowWritten(d.rows, Category(id, parent, sortOrder, true));
        forall e | e in n.edits ensures EditOk(n.rows, n.edits[e]) {
          EditStays(d.rows, n.rows, d.edits[e]);
        }
      }
    case Begin(e, id, _) => CarryEdits(d, n, e);
    case Write(e) =>
      assert EditOk(d.rows, d.edits[e]);
      RowWritten(d.rows, d.edits[e].next);
      CarryEdits(d, n, e);
    case _ =>
      assert EditOk(d.rows, d.edits[a.edit]);
      CarryEdits(d, n, a.edit);
  }

  // -------------------------------------------------- when the table stays acyclic

  /** At a write: the check, made on the table of that moment, would still pass. */
  ghost predicate StillPasses(d: Desk, a: Action) {
    a.Write? && a.edit in d.edits ==> Passes(ParentsOf(d.rows), d.edits[a.edit].next.id, d.edits[a.edit].next.parent)
  }

  ghost predicate AllWritesPass(d: Desk, actions: seq<Action>)
    decreases |actions|
  {
    actions == [] ||
    (StillPasses(d, actions[0])
     && (Step(d, actions[0]).Some? ==> AllWritesPass(Step(d, actions[0]).value, actions[1..])))
  }

  /** The table is acyclic now and after every step of the run. */
  ghost predicate AlwaysAcyclic(d: Desk, actions: seq<Action>)
    decreases |actions|
  {
    && Acyclic(ParentsOf(d.rows))
    && (actions != [] && Step(d, actions[0]).Some? ==> AlwaysAcyclic(Step(d, actions[0]).value, actions[1..]))
  }

  lemma PassesExactlyWhen(parents: Parents, id: Id, parent: Option<Id>)
    requires Acyclic(parents) && id in parents
    ensures Passes(parents, id, parent) <==> Acyclic(parents[id := parent])
  {
    if parent.None? {
      DetachAcyclic(parents, id);
    } else {
      AcyclicEnds(parents, parent.value);
      ReparentAcyclicExactlyWhen(parents, id, parent.value);
    }
  }

  lemma CreatedAcyclic(rows: map<Id, Category>, row: Category)
    requires RowsOk(rows) && row.id !in rows && (row.parent.Some? ==> row.parent.value in rows)
             && Acyclic(ParentsOf(rows))
    ensures Acyclic(ParentsOf(rows[row.id := row]))
  {
    RowWritten(rows, row);
    InsertAcyclic(ParentsOf(rows), row.id, row.parent);
  }

  lemma StepAcyclicExactlyWhen(d: Desk, a: Action, n: Desk)
    requires Inv(d) && Acyclic(ParentsOf(d.rows)) && Step(d, a) == Some(n)
    ensures Acyclic(ParentsOf(n.rows)) <==> StillPasses(d, a)
  {
    match a
    case Create(id, parent, sortOrder) =>
      if n != d {
        CreatedAcyclic(d.rows, Category(id, parent, sortOrder, true));
      }
    case Write(e) =>
      var next := d.edits[e].next;
      assert EditOk(d.rows, d.edits[e]);
      RowWritten(d.rows, next);
      PassesExactlyWhen(ParentsOf(d.rows), next.id, next.parent);
    case _ =>
  }

  /** However edits overlap: the table stays acyclic exactly when every write would pass its check once more. */
  lemma {:induction false} StaysAcyclicExactlyWhen(d: Desk, actions: seq<Action>)
    requires Inv(d) && Acyclic(ParentsOf(d.rows)) && Exec(d, actions).Some?
    ensures AlwaysAcyclic(d, actions) <==> AllWritesPass(d, actions)
    decreases |actions|
  {
    if actions != [] {
      var n := Step(d, actions[0]).value;
      StepKeeps(d, actions[0], n);
      StepAcyclicExactlyWhen(d, actions[0], n);
      if Acyclic(ParentsOf(n.rows)) {
        StaysAcyclicExactlyWhen(n, actions[1..]);
      }
    }
  }

  // ------------------------------------------------ edits that are not overtaken

  /** At a write: every category listed for the check still has the parent it had then. */
  ghost predicate Unmoved(d: Desk, a: Action) {
    a.Write? && a.edit in d.edits && d.edits[a.edit].Checked? ==>
      forall x :: x in d.edits[a.edit].listed && x in d.rows ==> d.rows[x].parent == d.edits[a.edit].listed[x]
  }

  ghost predicate NoneOvertaken(d: Desk, actions: seq<Action>)
    decreases |actions|
  {
    actions == [] ||
    (Unmoved(d, actions[0]) && (Step(d, actions[0]).Some? ==> NoneOvertaken(Step(d, actions[0]).value, actions[1..])))
  }

  lemma {:induction false} SameChain(listed: Parents, parents: Parents, a: Id, n: nat)
    requires Closed(listed) && a in listed && forall x :: x in listed ==> x in parents && parents[x] == listed[x]
    ensures Up(parents, a, n) == Up(listed, a, n) && (Up(listed, a, n).Some? ==> Up(listed, a, n).value in listed)
  {
    if n > 0 {
      SameChain(listed, parents, a, n - 1);
    }
  }

  lemma PassesAgain(listed: Parents, parents: Parents, id: Id, parent: Option<Id>)
    requires Closed(listed) && (parent.Some? ==> parent.value in listed) && Passes(listed, id, parent)
    requires forall x :: x in listed ==> x in parents && parents[x] == listed[x]
    ensures Passes(parents, id, parent)
  {
    if parent.Some? {
      forall n: nat ensures Up(parents, parent.value, n) == Up(listed, parent.value, n) {
        SameChain(listed, parents, parent.value, n);
      }
    }
  }

  lemma UnmovedPasses(d: Desk, a: Action)
    requires Inv(d) && Step(d, a).Some? && Unmoved(d, a)
    ensures StillPasses(d, a)
  {
    if a.Write? {
      var edit := d.edits[a.edit];
      assert EditOk(d.rows, edit);
      PassesAgain(edit.listed, ParentsOf(d.rows), edit.next.id, edit.next.parent);
    }
  }

  lemma {:induction false} NoneOvertakenPass(d: Desk, actions: seq<Action>)
    requires Inv(d) && Exec(d, actions).Some? && NoneOvertaken(d, actions)
    ensures AllWritesPass(d, actions)
    decreases |actions|
  {
    if actions != [] {
      var n := Step(d, actions[0]).value;
      UnmovedPasses(d, actions[0]);
      StepKeeps(d, actions[0], n);
      NoneOvertakenPass(n, actions[1..]);
    }
  }

  /** Where no category moves between an edit's check and its write, the table stays acyclic. */
  lemma UnovertakenStaysAcyclic(d: Desk, actions: seq<Action>)
    requires Inv(d) && Acyclic(ParentsOf(d.rows)) && Exec(d, actions).Some? && NoneOvertaken(d, actions)
    ensures AlwaysAcyclic(d, actions)
  {
    NoneOvertakenPass(d, actions);
    StaysAcyclicExactlyWhen(d, actions);
  }

  // --------------------------------------------------------- edits that cross

  function MoveTo(parent: Id): UpdateInput { UpdateInput(Some(Some(parent)), None, None) }

  /** One edit puts `a` under `b`, the other `b` under `a`; both check before either writes. */
  function CrossedRun(a: Id, b: Id): seq<Action> {
    [Begin(0, a, MoveTo(b)), Begin(1, b, MoveTo(a))] + ([FindParent(0), FindParent(1)] +
    ([Check(0), Check(1)] + ([Write(0), Write(1)] + [])))
  }

  lemma ExecPair(d: Desk, a: Action, b: Action, rest: seq<Action>, m: Desk, n: Desk)
    requires Step(d, a) == Some(m) && Step(m, b) == Some(n)
    ensures Exec(d, [a, b] + rest) == Exec(n, rest)
  {
    assert ([a, b] + rest)[1..] == [b] + rest && ([b] + rest)[1..] == rest;
    assert Exec(m, [b] + rest) == Exec(n, rest);
  }

  function Both(rows: map<Id, Category>, first: Edit, second: Edit): Desk { Desk(rows, map[0 := first, 1 := second]) }

  function Crossed(rows: map<Id, Category>, a: Category, b: Category): map<Id, Category> { rows[a.id := a][b.id := b] }

  lemma CrossedBegin(rows: map<Id, Category>, a: Id, b: Id, rest: seq<Action>)
    requires a in rows && b in rows
    ensures Exec(Desk(rows, map[]), [Begin(0, a, MoveTo(b)), Begin(1, b, MoveTo(a))] + rest)
            == Exec(Both(rows, Begun(Updated(rows[a], MoveTo(b))), Begun(Updated(rows[b], MoveTo(a)))), rest)
  {
    var first := Desk(rows, map[0 := Begun(Updated(rows[a], MoveTo(b)))]);
    var both := Both(rows, Begun(Updated(rows[a], MoveTo(b))), Begun(Updated(rows[b], MoveTo(a))));
    assert first.edits[1 := both.edits[1]] == both.edits;
    ExecPair(Desk(rows, map[]), Begin(0, a, MoveTo(b)), Begin(1, b, MoveTo(a)), rest, first, both);
  }

  lemma CrossedFind(rows: map<Id, Category>, a: Category, b: Category, rest: seq<Action>)
    requires a.parent.Some? && a.parent.value in rows && b.parent.Some? && b.parent.value in rows
    ensures Exec(Both(rows, Begun(a), Begun(b)), [FindParent(0), FindParent(1)] + rest)
            == Exec(Both(rows, ParentFound(a), ParentFound(b)), rest)
  {
    var d, m, n := Both(rows, Begun(a), Begun(b)), Both(rows, ParentFound(a), Begun(b)),
      Both(rows, ParentFound(a), ParentFound(b));
    assert d.edits[0 := ParentFound(a)] == m.edits && m.edits[1 := ParentFound(b)] == n.edits;
    ExecPair(d, FindParent(0), FindParent(1), rest, m, n);
  }

  lemma CrossedCheck(rows: map<Id, Category>, a: Category, b: Category, rest: seq<Action>)
    requires Passes(ParentsOf(rows), a.id, a.parent) && Passes(ParentsOf(rows), b.id, b.parent)
    ensures Exec(Both(rows, ParentFound(a), ParentFound(b)), [Check(0), Check(1)] + rest)
            == Exec(Both(rows, Checked(a, ParentsOf(rows)), Checked(b, ParentsOf(rows))), rest)
  {
    var p := ParentsOf(rows);
    var d, m, n := Both(rows, ParentFound(a), ParentFound(b)), Both(rows, Checked(a, p), ParentFound(b)),
      Both(rows, Checked(a, p), Checked(b, p));
    assert d.edits[0 := Checked(a, p)] == m.edits && m.edits[1 := Checked(b, p)] == n.edits;
    ExecPair(d, Check(0), Check(1), rest, m, n);
  }

  lemma CrossedWrite(rows: map<Id, Category>, a: Category, b: Category, p: Parents, rest: seq<Action>)
    ensures Exec(Both(rows, Checked(a, p), Checked(b, p)), [Write(0), Write(1)] + rest)
            == Exec(Desk(Crossed(rows, a, b), map[]), rest)
  {
    var d := Both(rows, Checked(a, p), Checked(b, p));
    var m, n := Desk(rows[a.id := a], map[1 := Checked(b, p)]), Desk(Crossed(rows, a, b), map[]);
    assert d.edits - {0} == m.edits && m.edits - {1} == n.edits;
    ExecPair(d, Write(0), Write(1), rest, m, n);
  }

  lemma MutualParents(parents: Parents, a: Id, b: Id)
    requires a in parents && b in parents && parents[a] == Some(b) && parents[b] == Some(a)
    ensures Up(parents, a, 2) == Some(a) && !Acyclic(parents) && !Ends(parents, a)
  {
    assert Up(parents, a, 0) == Some(a);
    assert Up(parents, a, 1) == Some(b);
    assert Up(parents, a, 2) == Some(a);
    RevisitNeverEnds(parents, a, 0, 2);
  }

  /** Any two categories, neither above the other: both edits are accepted and close a cycle. */
  lemma CrossedEditsCycle(rows: map<Id, Category>, a: Id, b: Id)
    requires ValidRows(rows) && a in rows && b in rows && !Climbs(ParentsOf(rows), a, b)
             && !Climbs(ParentsOf(rows), b, a)
    ensures var after := Exec(Desk(rows, map[]), CrossedRun(a, b));
            && after.Some? && after.value.rows
               == rows[a := rows[a].(parent := Some(b))][b := rows[b].(parent := Some(a))]
            && !Acyclic(ParentsOf(after.value.rows))
  {
    var p, first, second := ParentsOf(rows), Updated(rows[a], MoveTo(b)), Updated(rows[b], MoveTo(a));
    assert Up(p, a, 0) == Some(a);
    AcyclicEnds(p, a);
    AcyclicEnds(p, b);
    CrossedBegin(rows, a, b, [FindParent(0), FindParent(1)] + ([Check(0), Check(1)] + ([Write(0), Write(1)] + [])));
    CrossedFind(rows, first, second, [Check(0), Check(1)] + ([Write(0), Write(1)] + []));
    CrossedCheck(rows, first, second, [Write(0), Write(1)] + []);
    CrossedWrite(rows, first, second, p, []);
    MutualParents(ParentsOf(Crossed(rows, first, second)), a, b);
  }

  lemma ShownMutual(cats: seq<Category>, a: Category, b: Category)
    requires DistinctIds(cats) && a in cats && b in cats && a.parent == Some(b.id) && b.parent == Some(a.id)
    ensures !Ends(Shown(cats), a.id)
  {
    ShownIs(cats, a);
    ShownIs(cats, b);
    MutualParents(Shown(cats), a.id, b.id);
  }

  /** Two active categories that are each other's parent are nowhere in the menu. */
  lemma CrossedVanish(cats: seq<Category>, roots: seq<Node>, a: Category, b: Category)
    requires DistinctIds(cats) && IsForest(cats, roots) && a in cats && b in cats
    requires a.parent == Some(b.id) && b.parent == Some(a.id)
    ensures OccurrencesAll(roots, a.id) == 0 && OccurrencesAll(roots, b.id) == 0
  {
    ShownMutual(cats, a, b);
    ShownMutual(cats, b, a);
    ForestHolds(cats, roots, a);
    ForestHolds(cats, roots, b);
  }
}
