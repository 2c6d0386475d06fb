/** Stock movements of sold lines: two independent writers bring a component home at most once. */
module Stock {
  import opened Outcome
  import opened Sums

  type Id = string

  datatype Pair = Pair(line: Id, component: Id)
  datatype MovementKind = SaleDeduction | VoidRestoration | WasteVoid | WasteRefund
  datatype Movement = Movement(order: Id, pair: Pair, kind: MovementKind, delta: int)
  datatype Line = Line(order: Id, voided: bool, fired: bool)
  datatype PaymentStatus = Open | Paid | Refunded | RefundPending | Voided
  datatype Need = Need(line: Id, component: Id, required: int)
  datatype Deduction = Deduction(pair: Pair, total: int)

  datatype State = State(orders: map<Id, PaymentStatus>, lines: map<Id, Line>, movements: seq<Movement>)

  const Empty := State(map[], map[], [])

  // ------------------------------------------------------------- the queries

  function SoldPart(k: Pair, m: Movement): int { if m.pair == k && m.kind.SaleDeduction? then m.delta else 0 }

  function NetPart(k: Pair, m: Movement): int { if m.pair == k then m.delta else 0 }

  function RestorationPart(k: Pair, m: Movement): int { if m.pair == k && m.kind.VoidRestoration? then 1 else 0 }

  /** The recorded deduction of a pair. */
  function Sold(ms: seq<Movement>, k: Pair): int { SumBy(ms, (m: Movement) => SoldPart(k, m)) }

  /** The stock change of a pair over all its movements. */
  function Net(ms: seq<Movement>, k: Pair): int { SumBy(ms, (m: Movement) => NetPart(k, m)) }

  function Restorations(ms: seq<Movement>, k: Pair): int { SumBy(ms, (m: Movement) => RestorationPart(k, m)) }

  predicate IsSale(m: Movement, k: Pair) { m.pair == k && m.kind.SaleDeduction? }

  predicate HasSale(ms: seq<Movement>, k: Pair) { exists m :: m in ms && IsSale(m, k) }

  /** The grouped deductions of some lines, in whatever order the database returns them. */
  ghost predicate IsAggregate(ms: seq<Movement>, lines: set<Id>, ds: seq<Deduction>) {
    && (forall i, j :: 0 <= i < j < |ds| ==> ds[i].pair != ds[j].pair)
    && (forall d :: d in ds ==> d.pair.line in lines && HasSale(ms, d.pair) && d.total == Sold(ms, d.pair))
    && (forall m :: m in ms && m.kind.SaleDeduction? && m.pair.line in lines ==>
        exists d :: d in ds && d.pair == m.pair)
  }

  function RestoredKeys(ms: seq<Movement>, lines: set<Id>): set<Pair> {
    set m | m in ms && m.pair.line in lines && m.kind.VoidRestoration? :: m.pair
  }

  function WasteRefundKeys(ms: seq<Movement>, order: Id): set<Pair> {
    set m | m in ms && m.order == order && (m.kind.WasteRefund? || m.kind.VoidRestoration?) :: m.pair
  }

  function FiredOf(lines: map<Id, Line>, ids: set<Id>): set<Id> {
    set x | x in ids && x in lines && lines[x].fired
  }

  function ActiveOf(lines: map<Id, Line>, order: Id): set<Id> {
    set x | x in lines && lines[x].order == order && !lines[x].voided
  }

  // --------------------------------------------------------------- the writers

  /** One row per deduction not yet dealt with: restored unless its line went to the kitchen. */
  function Written(order: Id, ds: seq<Deduction>, skip: set<Pair>, fired: set<Id>, waste: MovementKind): seq<Movement> {
    if ds == [] then []
    else
      var d := ds[|ds| - 1];
      var front := Written(order, ds[..|ds| - 1], skip, fired, waste);
      if d.pair in skip then front
      else front + [if d.pair.line in fired then Movement(order, d.pair, waste, 0)
                    else Movement(order, d.pair, VoidRestoration, -d.total)]
  }

  function SaleRows(order: Id, needs: seq<Need>): (ms: seq<Movement>)
    ensures |ms| == |needs|
    ensures forall i :: 0 <= i < |ms| ==>
            ms[i] == Movement(order, Pair(needs[i].line, needs[i].component), SaleDeduction, -needs[i].required)
  {
    seq(|needs|, i requires 0 <= i < |needs| => Movement(order, Pair(needs[i].line, needs[i].component), SaleDeduction,
                                                         -needs[i].required))
  }

  function MarkVoided(lines: map<Id, Line>, ids: set<Id>): map<Id, Line> {
    map x | x in lines :: if x in ids then lines[x].(voided := true) else lines[x]
  }

  datatype Action =
    | Sell(order: Id, lineIds: set<Id>, needs: seq<Need>)
    | Fire(line: Id)
    | SetStatus(order: Id, status: PaymentStatus)  // collections and payment reversals
    | VoidItem(line: Id, ds: seq<Deduction>)
    | VoidOrder(order: Id, ds: seq<Deduction>)
    | Refund(order: Id, ds: seq<Deduction>)

  /** Voids the given lines of an order, then writes their stock movements. */
  function VoidLines(s: State, order: Id, ids: set<Id>, ds: seq<Deduction>): State {
    var lines := MarkVoided(s.lines, ids);
    State(if ActiveOf(lines, order) == {} then s.orders[order := Voided] else s.orders,
          lines,
          s.movements + Written(order, ds, RestoredKeys(s.movements, ids), FiredOf(s.lines, ids), WasteVoid))
  }

  ghost function Step(s: State, a: Action): Option<State> {
    match a
    case Sell(order, lineIds, needs) =>
      if order in s.orders || (exists x :: x in lineIds && x in s.lines)
         || (exists n :: n in needs && (n.required <= 0 || n.line !in lineIds)) then None
      else Some(State(s.orders[order := Open], s.lines + (map x | x in lineIds :: Line(order, false, false)),
                      s.movements + SaleRows(order, needs)))
    case Fire(line) =>
      if line !in s.lines then None else Some(s.(lines := s.lines[line := s.lines[line].(fired := true)]))
    case SetStatus(order, status) =>
      if order !in s.orders then None else Some(s.(orders := s.orders[order := status]))
    case VoidItem(line, ds) =>
      if line !in s.lines || s.lines[line].voided then None
      else if s.lines[line].order !in s.orders || !s.orders[s.lines[line].order].Open? then None
      else if !IsAggregate(s.movements, {line}, ds) then None
      else Some(VoidLines(s, s.lines[line].order, {line}, ds))
    case VoidOrder(order, ds) =>
      if order !in s.orders || !s.orders[order].Open? || ActiveOf(s.lines, order) == {} then None
      else if !IsAggregate(s.movements, ActiveOf(s.lines, order), ds) then None
      else Some(VoidLines(s, order, ActiveOf(s.lines, order), ds))
    case Refund(order, ds) =>
      if order !in s.orders || !IsAggregate(s.movements, ActiveOf(s.lines, order), ds) then None
      else
        var live := ActiveOf(s.lines, order);
        Some(s.(movements := s.movements
                + Written(order, ds, WasteRefundKeys(s.movements, order), FiredOf(s.lines, live), WasteRefund)))
  }

  ghost function Exec(s: State, actions: seq<Action>): Option<State>
    decreases |actions|
  {
    if actions == [] then Some(s)
    else match Step(s, actions[0])
      case None => None
      case Some(next) => Exec(next, actions[1..])
  }

  // ------------------------------------------------------------ the invariant

  /** At most one restoration, and the stock change is the recorded deduction until that one, zero after it. */
  ghost predicate PairInv(ms: seq<Movement>, k: Pair) {
    && 0 <= Restorations(ms, k) <= 1
    && Net(ms, k) == (if Restorations(ms, k) == 1 then 0 else Sold(ms, k))
    && Sold(ms, k) <= 0
    && (Sold(ms, k) < 0 <==> HasSale(ms, k))
  }

  ghost predicate RowInv(s: State, m: Movement) {
    && m.pair.line in s.lines && s.lines[m.pair.line].order == m.order
    && (m.kind.WasteVoid? || m.kind.WasteRefund? ==> s.lines[m.pair.line].fired)
  }

  ghost predicate Inv(s: State) {
    && (forall k {:trigger PairInv(s.movements, k)} :: PairInv(s.movements, k))
    && (forall m {:trigger RowInv(s, m)} :: m in s.movements ==> RowInv(s, m))
  }

  lemma AppendPair(ms: seq<Movement>, more: seq<Movement>, k: Pair)
    ensures Sold(ms + more, k) == Sold(ms, k) + Sold(more, k)
    ensures Net(ms + more, k) == Net(ms, k) + Net(more, k)
    ensures Restorations(ms + more, k) == Restorations(ms, k) + Restorations(more, k)
    ensures HasSale(ms + more, k) <==> HasSale(ms, k) || HasSale(more, k)
  {
    SumByAppend(ms, more, (m: Movement) => SoldPart(k, m));
    SumByAppend(ms, more, (m: Movement) => NetPart(k, m));
    SumByAppend(ms, more, (m: Movement) => RestorationPart(k, m));
    HasSaleAppend(ms, more, k);
  }

  lemma HasSaleAppend(ms: seq<Movement>, more: seq<Movement>, k: Pair)
    ensures HasSale(ms + more, k) <==> HasSale(ms, k) || HasSale(more, k)
  {
    if HasSale(ms, k) {
      var m :| m in ms && IsSale(m, k);
      assert m in ms + more;
    } else if HasSale(more, k) {
      var m :| m in more && IsSale(m, k);
      assert m in ms + more;
    }
  }

  lemma OneRow(m: Movement, k: Pair)
    ensures Sold([m], k) == SoldPart(k, m) && Net([m], k) == NetPart(k, m)
            && Restorations([m], k) == RestorationPart(k, m)
    ensures HasSale([m], k) <==> IsSale(m, k)
  {
    SumByOne(m, (m: Movement) => SoldPart(k, m));
    SumByOne(m, (m: Movement) => NetPart(k, m));
    SumByOne(m, (m: Movement) => RestorationPart(k, m));
    if IsSale(m, k) {
      assert m in [m];
    }
  }

  predicate Listed(ds: seq<Deduction>, k: Pair) { exists d :: d in ds && d.pair == k }

  /** What a writer adds for a pair: one restoration if the pair is listed, unfinished and not fired; never a sale. */
  lemma {:induction false} WrittenPair(order: Id, ds: seq<Deduction>, skip: set<Pair>, fired: set<Id>,
                                       waste: MovementKind, k: Pair, total: int)
    requires forall i, j :: 0 <= i < j < |ds| ==> ds[i].pair != ds[j].pair
    requires forall d :: d in ds && d.pair == k ==> d.total == total
    requires waste.WasteVoid? || waste.WasteRefund?
    ensures var ms := Written(order, ds, skip, fired, waste);
            var restores := Listed(ds, k) && k !in skip && k.line !in fired;
            && Sold(ms, k) == 0 && !HasSale(ms, k)
            && Restorations(ms, k) == (if restores then 1 else 0)
            && Net(ms, k) == (if restores then -total else 0)
    decreases |ds|
  {
    if ds != [] {
      var n := |ds| - 1;
      var front, d := ds[..n], ds[n];
      ListedSplit(ds, k);
      WrittenPair(order, front, skip, fired, waste, k, total);
      if d.pair !in skip {
        var row := if d.pair.line in fired then Movement(order, d.pair, waste, 0)
          else Movement(order, d.pair, VoidRestoration, -d.total);
        AppendPair(Written(order, front, skip, fired, waste), [row], k);
        OneRow(row, k);
      }
    }
  }

  lemma ListedSplit(ds: seq<Deduction>, k: Pair)
    requires ds != [] && forall i, j :: 0 <= i < j < |ds| ==> ds[i].pair != ds[j].pair
    ensures var n := |ds| - 1;
            && (Listed(ds, k) <==> Listed(ds[..n], k) || ds[n].pair == k)
            && !(Listed(ds[..n], k) && ds[n].pair == k)
            && (forall d :: d in ds[..n] ==> d in ds)
  {
    var n := |ds| - 1;
    if Listed(ds, k) {
      var d :| d in ds && d.pair == k;
      var i :| 0 <= i < |ds| && ds[i] == d;
      if i < n {
        assert ds[..n][i] == d;
      }
    }
    if Listed(ds[..n], k) {
      var d :| d in ds[..n] && d.pair == k;
      assert d in ds;
    }
    if ds[n].pair == k {
      assert ds[n] in ds;
    }
  }

  /** A pair with a restoration row is known to both writers. */
  lemma {:induction false} NoRestorationRow(ms: seq<Movement>, k: Pair)
    requires forall m :: m in ms && m.pair == k ==> !m.kind.VoidRestoration?
    ensures Restorations(ms, k) == 0
  {
    if ms != [] {
      NoRestorationRow(ms[1..], k);
    }
  }

  ghost predicate PairsInv(ms: seq<Movement>) {
    forall k {:trigger PairInv(ms, k)} :: PairInv(ms, k)
  }

  /** A writer that skips at least the pairs already restored keeps every pair sound. */
  lemma WriteKeeps(ms: seq<Movement>, order: Id, lines: set<Id>, ds: seq<Deduction>, skip: set<Pair>, fired: set<Id>,
                   waste: MovementKind)
    requires PairsInv(ms) && IsAggregate(ms, lines, ds) && (waste.WasteVoid? || waste.WasteRefund?)
    requires forall k: Pair :: k.line in lines && k !in skip ==> Restorations(ms, k) == 0
    ensures PairsInv(ms + Written(order, ds, skip, fired, waste))
  {
    var more := Written(order, ds, skip, fired, waste);
    forall k ensures PairInv(ms + more, k) {
      assert PairInv(ms, k);
      WrittenPair(order, ds, skip, fired, waste, k, Sold(ms, k));
      AppendPair(ms, more, k);
    }
  }

  lemma {:induction false} WrittenRows(order: Id, ds: seq<Deduction>, skip: set<Pair>, fired: set<Id>,
                                       waste: MovementKind, m: Movement)
    requires m in Written(order, ds, skip, fired, waste)
    requires waste.WasteVoid? || waste.WasteRefund?
    ensures m.order == order && Listed(ds, m.pair)
    ensures !m.kind.VoidRestoration? ==> m.pair.line in fired
    decreases |ds|
  {
    var n := |ds| - 1;
    if m in Written(order, ds[..n], skip, fired, waste) {
      WrittenRows(order, ds[..n], skip, fired, waste, m);
      var d :| d in ds[..n] && d.pair == m.pair;
      assert d in ds;
    } else {
      assert ds[n] in ds;
    }
  }

  lemma VoidSkips(s: State, ids: set<Id>)
    ensures forall k: Pair :: k.line in ids && k !in RestoredKeys(s.movements, ids) ==>
            Restorations(s.movements, k) == 0
  {
    forall k: Pair | k.line in ids && k !in RestoredKeys(s.movements, ids) ensures Restorations(s.movements, k) == 0 {
      NoRestorationRow(s.movements, k);
    }
  }

  lemma RefundSkips(s: State, order: Id)
    requires Inv(s)
    ensures forall k: Pair :: k.line in ActiveOf(s.lines, order) && k !in WasteRefundKeys(s.movements, order) ==>
            Restorations(s.movements, k) == 0
  {
    forall k: Pair | k.line in ActiveOf(s.lines, order) && k !in WasteRefundKeys(s.movements, order)
      ensures Restorations(s.movements, k) == 0
    {
      forall m | m in s.movements && m.pair == k ensures !m.kind.VoidRestoration? {
        assert RowInv(s, m);
      }
      NoRestorationRow(s.movements, k);
    }
  }

  ghost predicate LinesGrow(s: State, n: State) {
    forall x :: x in s.lines ==>
      x in n.lines && n.lines[x].order == s.lines[x].order && (s.lines[x].fired ==> n.lines[x].fired)
  }

  lemma RowsKept(s: State, n: State, more: seq<Movement>)
    requires Inv(s) && n.movements == s.movements + more
    requires LinesGrow(s, n)
    requires forall m :: m in more ==> RowInv(n, m)
    ensures forall m :: m in n.movements ==> RowInv(n, m)
  {
    forall m | m in n.movements ensures RowInv(n, m) {
      if m in s.movements {
        assert RowInv(s, m);
      }
    }
  }

  lemma WriterKeeps(s: State, n: State, order: Id, lines: set<Id>, ds: seq<Deduction>, skip: set<Pair>, fired: set<Id>,
                    waste: MovementKind)
    requires Inv(s) && IsAggregate(s.movements, lines, ds) && (waste.WasteVoid? || waste.WasteRefund?)
    requires forall k: Pair :: k.line in lines && k !in skip ==> Restorations(s.movements, k) == 0
    requires forall x :: x in lines ==> x in s.lines && s.lines[x].order == order
    requires LinesGrow(s, n)
    requires n.movements == s.movements + Written(order, ds, skip, fired, waste) && fired == FiredOf(s.lines, lines)
    ensures Inv(n)
  {
    var more := Written(order, ds, skip, fired, waste);
    assert PairsInv(s.movements);
    WriteKeeps(s.movements, order, lines, ds, skip, fired, waste);
    forall m | m in more ensures RowInv(n, m) {
      WrittenRows(order, ds, skip, fired, waste, m);
    }
    RowsKept(s, n, more);
  }

  lemma {:induction false} NegativeSales(ms: seq<Movement>, k: Pair)
    requires forall m :: m in ms ==> m.kind.SaleDeduction? && m.delta < 0
    ensures Restorations(ms, k) == 0 && Net(ms, k) == Sold(ms, k) <= 0
    ensures Sold(ms, k) < 0 <==> HasSale(ms, k)
  {
    if ms != [] {
      NegativeSales(ms[1..], k);
      OneRow(ms[0], k);
      assert ms == [ms[0]] + ms[1..];
      AppendPair([ms[0]], ms[1..], k);
    }
  }

  lemma {:induction false} UntouchedPair(ms: seq<Movement>, k: Pair)
    requires forall m :: m in ms ==> m.pair.line != k.line
    ensures Sold(ms, k) == 0 && Net(ms, k) == 0 && Restorations(ms, k) == 0 && !HasSale(ms, k)
  {
    if ms != [] {
      UntouchedPair(ms[1..], k);
    }
  }

  lemma SellKeeps(s: State, order: Id, lineIds: set<Id>, needs: seq<Need>, n: State)
    requires Inv(s) && Step(s, Sell(order, lineIds, needs)) == Some(n)
    ensures Inv(n)
  {
    var more := SaleRows(order, needs);
    assert forall i :: 0 <= i < |needs| ==> needs[i] in needs;
    forall k ensures PairInv(n.movements, k) {
      assert PairInv(s.movements, k);
      AppendPair(s.movements, more, k);
      if k.line in lineIds {
        forall m | m in s.movements ensures m.pair.line != k.line {
          assert RowInv(s, m);
        }
        UntouchedPair(s.movements, k);
        NegativeSales(more, k);
      } else {
        UntouchedPair(more, k);
      }
    }
    forall m | m in more ensures RowInv(n, m) {
      var i :| 0 <= i < |more| && more[i] == m;
      assert needs[i] in needs;
    }
    RowsKept(s, n, more);
  }

  lemma VoidLinesKeeps(s: State, order: Id, ids: set<Id>, ds: seq<Deduction>)
    requires Inv(s) && IsAggregate(s.movements, ids, ds)
    requires forall x :: x in ids ==> x in s.lines && s.lines[x].order == order
    ensures Inv(VoidLines(s, order, ids, ds))
  {
    VoidSkips(s, ids);
    WriterKeeps(s, VoidLines(s, order, ids, ds), order, ids, ds, RestoredKeys(s.movements, ids), FiredOf(s.lines, ids),
                WasteVoid);
  }

  lemma RefundKeeps(s: State, order: Id, ds: seq<Deduction>, n: State)
    requires Inv(s) && Step(s, Refund(order, ds)) == Some(n)
    ensures Inv(n)
  {
    RefundSkips(s, order);
    var live := ActiveOf(s.lines, order);
    WriterKeeps(s, n, order, live, ds, WasteRefundKeys(s.movements, order), FiredOf(s.lines, live), WasteRefund);
  }

  lemma UnwrittenKeeps(s: State, n: State)
    requires Inv(s) && n.movements == s.movements
    requires LinesGrow(s, n)
    ensures Inv(n)
  {
    forall k ensures PairInv(n.movements, k) {
      assert PairInv(s.movements, k);
    }
    assert s.movements + [] == s.movements;
    RowsKept(s, n, []);
  }

  lemma StepKeeps(s: State, a: Action, n: State)
    requires Inv(s) && Step(s, a) == Some(n)
    ensures Inv(n)
  {
    match a
    case Sell(order, lineIds, needs) => SellKeeps(s, order, lineIds, needs, n);
    case Fire(line) => UnwrittenKeeps(s, n);
    case SetStatus(order, status) => UnwrittenKeeps(s, n);
    case VoidItem(line, ds) => VoidLinesKeeps(s, s.lines[line].order, {line}, ds);
    case VoidOrder(order, ds) => VoidLinesKeeps(s, order, ActiveOf(s.lines, order), ds);
    case Refund(order, ds) => RefundKeeps(s, order, ds, n);
  }

  lemma {:induction false} ExecKeeps(s: State, actions: seq<Action>)
    requires Inv(s) && Exec(s, actions).Some?
    ensures Inv(Exec(s, actions).value)
    decreases |actions|
  {
    if actions != [] {
      StepKeeps(s, actions[0], Step(s, actions[0]).value);
      ExecKeeps(Step(s, actions[0]).value, actions[1..]);
    }
  }

  /**
   * Over every run of sales, firing, voids and refunds: a sold pair is restored at most once, its stock
   * change is the recorded deduction or zero, and it is zero exactly when the restoration exists.
   */
  lemma RestoredAtMostOnce(actions: seq<Action>, k: Pair)
    requires Exec(Empty, actions).Some? && HasSale(Exec(Empty, actions).value.movements, k)
    ensures var ms := Exec(Empty, actions).value.movements;
            && 0 <= Restorations(ms, k) <= 1
            && Sold(ms, k) < 0
            && (Net(ms, k) == Sold(ms, k) || Net(ms, k) == 0)
            && (Net(ms, k) == 0 <==> Restorations(ms, k) == 1)
  {
    EmptyInv();
    ExecKeeps(Empty, actions);
    assert PairInv(Exec(Empty, actions).value.movements, k);
  }

  lemma EmptyInv()
    ensures Inv(Empty)
  {
    forall k ensures PairInv(Empty.movements, k) {
    }
  }

  /** What was never sold is never moved. */
  lemma UnsoldNeverMoves(actions: seq<Action>, k: Pair)
    requires Exec(Empty, actions).Some? && !HasSale(Exec(Empty, actions).value.movements, k)
    ensures Net(Exec(Empty, actions).value.movements, k) == 0
  {
    EmptyInv();
    ExecKeeps(Empty, actions);
    assert PairInv(Exec(Empty, actions).value.movements, k);
  }

  lemma AggregateLists(ms: seq<Movement>, lines: set<Id>, ds: seq<Deduction>, k: Pair)
    requires IsAggregate(ms, lines, ds) && HasSale(ms, k) && k.line in lines
    ensures Listed(ds, k)
  {
    var m :| m in ms && IsSale(m, k);
    var d :| d in ds && d.pair == m.pair;
  }

  /** After a writer, a sold pair of its lines is home unless the line went to the kitchen. */
  lemma WriterSettles(s: State, order: Id, lines: set<Id>, ds: seq<Deduction>, skip: set<Pair>, waste: MovementKind,
                      k: Pair)
    requires Inv(s) && IsAggregate(s.movements, lines, ds) && (waste.WasteVoid? || waste.WasteRefund?)
    requires k.line in lines && k.line in s.lines && HasSale(s.movements, k)
    requires k in skip ==> Restorations(s.movements, k) == 1 || s.lines[k.line].fired
    requires k !in skip ==> Restorations(s.movements, k) == 0
    ensures Net(s.movements + Written(order, ds, skip, FiredOf(s.lines, lines), waste), k)
            == if s.lines[k.line].fired then Net(s.movements, k) else 0
  {
    var fired := FiredOf(s.lines, lines);
    assert PairInv(s.movements, k);
    AggregateLists(s.movements, lines, ds, k);
    WrittenPair(order, ds, skip, fired, waste, k, Sold(s.movements, k));
    AppendPair(s.movements, Written(order, ds, skip, fired, waste), k);
  }

  lemma {:induction false} RestorationCounted(ms: seq<Movement>, k: Pair, m: Movement)
    requires m in ms && m.pair == k && m.kind.VoidRestoration?
    ensures Restorations(ms, k) >= 1
  {
    RestorationsNonNegative(ms[1..], k);
    if m != ms[0] {
      RestorationCounted(ms[1..], k, m);
    }
  }

  lemma {:induction false} RestorationsNonNegative(ms: seq<Movement>, k: Pair)
    ensures Restorations(ms, k) >= 0
  {
    if ms != [] {
      RestorationsNonNegative(ms[1..], k);
    }
  }

  lemma VoidLinesSettle(s: State, order: Id, ids: set<Id>, ds: seq<Deduction>, k: Pair)
    requires Inv(s) && IsAggregate(s.movements, ids, ds)
    requires k.line in ids && k.line in s.lines && HasSale(s.movements, k)
    ensures Net(VoidLines(s, order, ids, ds).movements, k) == if s.lines[k.line].fired then Net(s.movements, k) else 0
  {
    VoidSkips(s, ids);
    var skip := RestoredKeys(s.movements, ids);
    if k in skip {
      var m :| m in s.movements && m.pair.line in ids && m.kind.VoidRestoration? && m.pair == k;
      RestorationCounted(s.movements, k, m);
      assert PairInv(s.movements, k);
    }
    WriterSettles(s, order, ids, ds, skip, WasteVoid, k);
  }

  /** Voiding a line brings every component it sold home, unless the line went to the kitchen. */
  lemma VoidSettles(actions: seq<Action>, line: Id, ds: seq<Deduction>, k: Pair)
    requires Exec(Empty, actions).Some? && Step(Exec(Empty, actions).value, VoidItem(line, ds)).Some?
    requires k.line == line && HasSale(Exec(Empty, actions).value.movements, k)
    ensures var s := Exec(Empty, actions).value;
            Net(Step(s, VoidItem(line, ds)).value.movements, k)
              == if s.lines[line].fired then Net(s.movements, k) else 0
  {
    var s := Exec(Empty, actions).value;
    EmptyInv();
    ExecKeeps(Empty, actions);
    VoidLinesSettle(s, s.lines[line].order, {line}, ds, k);
  }

  /** Voiding a whole order does the same for every line that is still live. */
  lemma VoidOrderSettles(actions: seq<Action>, order: Id, ds: seq<Deduction>, k: Pair)
    requires Exec(Empty, actions).Some? && Step(Exec(Empty, actions).value, VoidOrder(order, ds)).Some?
    requires k.line in ActiveOf(Exec(Empty, actions).value.lines, order)
             && HasSale(Exec(Empty, actions).value.movements, k)
    ensures var s := Exec(Empty, actions).value;
            Net(Step(s, VoidOrder(order, ds)).value.movements, k)
              == if s.lines[k.line].fired then Net(s.movements, k) else 0
  {
    var s := Exec(Empty, actions).value;
    EmptyInv();
    ExecKeeps(Empty, actions);
    VoidLinesSettle(s, order, ActiveOf(s.lines, order), ds, k);
  }

  /** A refund does the same for every line that is still live. */
  lemma RefundSettles(actions: seq<Action>, order: Id, ds: seq<Deduction>, k: Pair)
    requires Exec(Empty, actions).Some? && Step(Exec(Empty, actions).value, Refund(order, ds)).Some?
    requires k.line in ActiveOf(Exec(Empty, actions).value.lines, order)
             && HasSale(Exec(Empty, actions).value.movements, k)
    ensures var s := Exec(Empty, actions).value;
            Net(Step(s, Refund(order, ds)).value.movements, k)
              == if s.lines[k.line].fired then Net(s.movements, k) else 0
  {
    var s := Exec(Empty, actions).value;
    EmptyInv();
    ExecKeeps(Empty, actions);
    RefundSkips(s, order);
    var skip := WasteRefundKeys(s.movements, order);
    if k in skip {
      var m :| m in s.movements && m.order == order && (m.kind.WasteRefund? || m.kind.VoidRestoration?) && m.pair == k;
      assert RowInv(s, m);
      if m.kind.VoidRestoration? {
        RestorationCounted(s.movements, k, m);
        assert PairInv(s.movements, k);
      }
    }
    WriterSettles(s, order, ActiveOf(s.lines, order), ds, skip, WasteRefund, k);
  }

  // ----------------------------------------------- exactly what is written

  /** The movements of one pair, in order. */
  function RowsFor(ms: seq<Movement>, k: Pair): seq<Movement> { Select((m: Movement) => m.pair == k, ms) }

  lemma RowsForAppend(ms: seq<Movement>, more: seq<Movement>, k: Pair)
    ensures RowsFor(ms + more, k) == RowsFor(ms, k) + RowsFor(more, k)
  {
    SelectAppend((m: Movement) => m.pair == k, ms, more);
  }

  lemma RowsForOne(m: Movement, k: Pair)
    ensures RowsFor([m], k) == if m.pair == k then [m] else []
  {
    SelectOne((m: Movement) => m.pair == k, m);
  }

  function RowOf(order: Id, k: Pair, total: int, fired: bool, waste: MovementKind): Movement {
    if fired then Movement(order, k, waste, 0) else Movement(order, k, VoidRestoration, -total)
  }

  lemma WrittenLast(order: Id, ds: seq<Deduction>, skip: set<Pair>, fired: set<Id>, waste: MovementKind, k: Pair)
    requires ds != []
    ensures var d := ds[|ds| - 1];
            RowsFor(Written(order, ds, skip, fired, waste), k)
            == RowsFor(Written(order, ds[..|ds| - 1], skip, fired, waste), k)
               + if d.pair == k && k !in skip then [RowOf(order, k, d.total, k.line in fired, waste)] else []
  {
    var d, front := ds[|ds| - 1], Written(order, ds[..|ds| - 1], skip, fired, waste);
    var row := RowOf(order, d.pair, d.total, d.pair.line in fired, waste);
    RowsForAppend(front, [row], k);
    RowsForOne(row, k);
  }

  lemma {:induction false} WrittenFor(order: Id, ds: seq<Deduction>, skip: set<Pair>, fired: set<Id>,
                                      waste: MovementKind, k: Pair, total: int)
    requires forall i, j :: 0 <= i < j < |ds| ==> ds[i].pair != ds[j].pair
    requires forall d :: d in ds && d.pair == k ==> d.total == total
    ensures RowsFor(Written(order, ds, skip, fired, waste), k)
            == if Listed(ds, k) && k !in skip then [RowOf(order, k, total, k.line in fired, waste)] else []
    decreases |ds|
  {
    if ds != [] {
      ListedSplit(ds, k);
      WrittenFor(order, ds[..|ds| - 1], skip, fired, waste, k, total);
      WrittenLast(order, ds, skip, fired, waste, k);
    }
  }

  /** What a writer adds for a pair: one row, if the pair was sold on its lines and is not dealt with yet. */
  lemma WriterAdds(ms: seq<Movement>, order: Id, lines: set<Id>, ds: seq<Deduction>, skip: set<Pair>, fired: set<Id>,
                   waste: MovementKind, k: Pair)
    requires IsAggregate(ms, lines, ds)
    ensures RowsFor(ms + Written(order, ds, skip, fired, waste), k)
            == RowsFor(ms, k) + if k.line in lines && HasSale(ms, k) && k !in skip then
                                  [RowOf(order, k, Sold(ms, k), k.line in fired, waste)] else []
  {
    WrittenFor(order, ds, skip, fired, waste, k, Sold(ms, k));
    RowsForAppend(ms, Written(order, ds, skip, fired, waste), k);
    if k.line in lines && HasSale(ms, k) {
      AggregateLists(ms, lines, ds, k);
    }
  }

  /** The pair has a movement of the kind. */
  predicate HasRow(ms: seq<Movement>, k: Pair, kind: MovementKind) {
    exists m :: m in ms && m.pair == k && m.kind == kind
  }

  /**
   * Voiding lines: exactly these are newly voided, nothing else about any line changes, and the order is
   * voided exactly when no live line is left. For each pair they sold that was not brought home before,
   * one row is written: the deduction back, or a waste of nothing for a line that went to the kitchen.
   */
  ghost predicate Voids(s: State, order: Id, ids: set<Id>, n: State) {
    && n.lines.Keys == s.lines.Keys
    && (forall x :: x in s.lines ==>
        n.lines[x] == Line(s.lines[x].order, s.lines[x].voided || x in ids, s.lines[x].fired))
    && (if exists x :: x in s.lines && s.lines[x].order == order && !s.lines[x].voided && x !in ids then
          n.orders == s.orders
        else n.orders == s.orders[order := Voided])
    && (forall k: Pair {:trigger RowsFor(n.movements, k)} ::
          RowsFor(n.movements, k) == RowsFor(s.movements, k) +
            if k.line in ids && k.line in s.lines && HasSale(s.movements, k)
               && !HasRow(s.movements, k, VoidRestoration) then
              [if s.lines[k.line].fired then Movement(order, k, WasteVoid, 0)
               else Movement(order, k, VoidRestoration, -Sold(s.movements, k))]
            else [])
  }

  lemma VoidLinesIs(s: State, order: Id, ids: set<Id>, ds: seq<Deduction>)
    requires Inv(s) && IsAggregate(s.movements, ids, ds)
    ensures Voids(s, order, ids, VoidLines(s, order, ids, ds))
  {
    var n := VoidLines(s, order, ids, ds);
    forall k: Pair ensures RowsFor(n.movements, k) == RowsFor(s.movements, k) +
      if k.line in ids && k.line in s.lines && HasSale(s.movements, k) && !HasRow(s.movements, k, VoidRestoration) then
        [if s.lines[k.line].fired then Movement(order, k, WasteVoid, 0)
         else Movement(order, k, VoidRestoration, -Sold(s.movements, k))]
      else []
    {
      SoldOnALine(s, k);
      RestoredKeyIs(s.movements, ids, k);
      WriterAdds(s.movements, order, ids, ds, RestoredKeys(s.movements, ids), FiredOf(s.lines, ids), WasteVoid, k);
    }
    LeftActive(s, order, ids);
  }

  lemma SoldOnALine(s: State, k: Pair)
    requires Inv(s)
    ensures HasSale(s.movements, k) ==> k.line in s.lines
  {
    if HasSale(s.movements, k) {
      var m :| m in s.movements && IsSale(m, k);
      assert RowInv(s, m);
    }
  }

  lemma RestoredKeyIs(ms: seq<Movement>, ids: set<Id>, k: Pair)
    ensures k in RestoredKeys(ms, ids) <==> k.line in ids && HasRow(ms, k, VoidRestoration)
  {
  }

  lemma LeftActive(s: State, order: Id, ids: set<Id>)
    ensures ActiveOf(MarkVoided(s.lines, ids), order) == {} <==>
            !exists x :: x in s.lines && s.lines[x].order == order && !s.lines[x].voided && x !in ids
  {
    var left := ActiveOf(MarkVoided(s.lines, ids), order);
    if x :| x in s.lines && s.lines[x].order == order && !s.lines[x].voided && x !in ids {
      assert x in left;
    }
    if left != {} {
      var x :| x in left;
    }
  }

  /** What an item void writes, after any history. */
  lemma VoidItemExactly(actions: seq<Action>, line: Id, ds: seq<Deduction>)
    requires Exec(Empty, actions).Some? && Step(Exec(Empty, actions).value, VoidItem(line, ds)).Some?
    ensures var s := Exec(Empty, actions).value;
            Voids(s, s.lines[line].order, {line}, Step(s, VoidItem(line, ds)).value)
  {
    EmptyInv();
    ExecKeeps(Empty, actions);
    var s := Exec(Empty, actions).value;
    VoidLinesIs(s, s.lines[line].order, {line}, ds);
  }

  /** A void of the whole order does so for all its live lines, and always leaves it voided. */
  lemma VoidOrderExactly(actions: seq<Action>, order: Id, ds: seq<Deduction>)
    requires Exec(Empty, actions).Some? && Step(Exec(Empty, actions).value, VoidOrder(order, ds)).Some?
    ensures var s := Exec(Empty, actions).value;
            var n := Step(s, VoidOrder(order, ds)).value;
            && Voids(s, order, (set x | x in s.lines && s.lines[x].order == order && !s.lines[x].voided), n)
            && n.orders == s.orders[order := Voided]
  {
    EmptyInv();
    ExecKeeps(Empty, actions);
    var s := Exec(Empty, actions).value;
    VoidLinesIs(s, order, ActiveOf(s.lines, order), ds);
  }

  lemma RefundKeyIs(s: State, order: Id, k: Pair)
    requires Inv(s) && k.line in s.lines && s.lines[k.line].order == order
    ensures k in WasteRefundKeys(s.movements, order) <==>
            HasRow(s.movements, k, VoidRestoration) || HasRow(s.movements, k, WasteRefund)
  {
    forall m | m in s.movements && m.pair == k ensures m.order == order {
      assert RowInv(s, m);
    }
  }

  /**
   * A refund writes movements only: for each pair sold on a live line of the order that neither a void nor
   * an earlier refund dealt with, the deduction back, or a waste of nothing for a line that went to the kitchen.
   */
  lemma RefundExactly(actions: seq<Action>, order: Id, ds: seq<Deduction>, k: Pair)
    requires Exec(Empty, actions).Some? && Step(Exec(Empty, actions).value, Refund(order, ds)).Some?
    ensures var s := Exec(Empty, actions).value;
            var n := Step(s, Refund(order, ds)).value;
            && n.orders == s.orders && n.lines == s.lines
            && RowsFor(n.movements, k) == RowsFor(s.movements, k) +
                 if k.line in s.lines && s.lines[k.line].order == order && !s.lines[k.line].voided
                    && HasSale(s.movements, k) && !HasRow(s.movements, k, VoidRestoration)
                    && !HasRow(s.movements, k, WasteRefund) then
                   [if s.lines[k.line].fired then Movement(order, k, WasteRefund, 0)
                    else Movement(order, k, VoidRestoration, -Sold(s.movements, k))]
                 else []
  {
    EmptyInv();
    ExecKeeps(Empty, actions);
    var s := Exec(Empty, actions).value;
    var live := ActiveOf(s.lines, order);
    if k.line in live {
      RefundKeyIs(s, order, k);
    }
    WriterAdds(s.movements, order, live, ds, WasteRefundKeys(s.movements, order), FiredOf(s.lines, live), WasteRefund,
               k);
  }

  /** Going to the kitchen marks the line for good and changes nothing else. */
  lemma FireMarks(s: State, line: Id)
    ensures Step(s, Fire(line)).Some? <==> line in s.lines
    ensures line in s.lines ==>
              var n := Step(s, Fire(line)).value;
              && n.orders == s.orders && n.movements == s.movements && n.lines.Keys == s.lines.Keys
              && forall x :: x in s.lines ==>
                   n.lines[x] == Line(s.lines[x].order, s.lines[x].voided, s.lines[x].fired || x == line)
  {
  }

  function RequiredOf(k: Pair, n: Need): int {
    if n.line == k.line && n.component == k.component then n.required else 0
  }

  /** What a sale needs of a component for a line. */
  function Required(needs: seq<Need>, k: Pair): int { SumBy(needs, (n: Need) => RequiredOf(k, n)) }

  lemma {:induction false} SaleSums(order: Id, needs: seq<Need>, k: Pair)
    ensures Net(SaleRows(order, needs), k) == -Required(needs, k)
    decreases |needs|
  {
    if needs != [] {
      SaleSums(order, needs[1..], k);
      assert SaleRows(order, needs)[1..] == SaleRows(order, needs[1..]);
    }
  }

  /** A sale takes from stock exactly what its lines need; the new lines are live and not yet in the kitchen. */
  lemma SaleDeducts(s: State, order: Id, lineIds: set<Id>, needs: seq<Need>, n: State, k: Pair)
    requires Step(s, Sell(order, lineIds, needs)) == Some(n)
    ensures Net(n.movements, k) == Net(s.movements, k) - Required(needs, k)
    ensures n.orders == s.orders[order := Open]
    ensures forall x :: x in n.lines <==> x in s.lines || x in lineIds
    ensures forall x :: x in n.lines ==> n.lines[x] == if x in lineIds then Line(order, false, false) else s.lines[x]
  {
    AppendPair(s.movements, SaleRows(order, needs), k);
    SaleSums(order, needs, k);
  }

  // ------------------------------------------------------- refunding twice

  /** A refund of the order would find every sold pair of its live lines dealt with. */
  ghost predicate Covered(s: State, order: Id) {
    && order in s.orders
    && forall k: Pair {:trigger HasSale(s.movements, k)} ::
         k.line in ActiveOf(s.lines, order) && HasSale(s.movements, k) ==> k in WasteRefundKeys(s.movements, order)
  }

  /** Every deduction that is not skipped leaves a row that the next refund knows. */
  lemma {:induction false} WrittenCovers(order: Id, ds: seq<Deduction>, skip: set<Pair>, fired: set<Id>, k: Pair)
    requires Listed(ds, k)
    ensures k in skip || k in WasteRefundKeys(Written(order, ds, skip, fired, WasteRefund), order)
    decreases |ds|
  {
    var n := |ds| - 1;
    if ds[n].pair != k {
      ListedInFront(ds, k);
      WrittenCovers(order, ds[..n], skip, fired, k);
    } else if k !in skip {
      var rows := Written(order, ds, skip, fired, WasteRefund);
      assert rows[|rows| - 1] in rows;
    }
  }

  lemma ListedInFront(ds: seq<Deduction>, k: Pair)
    requires Listed(ds, k) && ds[|ds| - 1].pair != k
    ensures Listed(ds[..|ds| - 1], k)
  {
    var d :| d in ds && d.pair == k;
    var i :| 0 <= i < |ds| && ds[i] == d;
    assert ds[..|ds| - 1][i] == d;
  }

  lemma KeysGrow(ms: seq<Movement>, more: seq<Movement>, order: Id)
    ensures WasteRefundKeys(ms + more, order) == WasteRefundKeys(ms, order) + WasteRefundKeys(more, order)
  {
  }

  lemma RefundCovers(s: State, order: Id, ds: seq<Deduction>, n: State)
    requires Inv(s) && Step(s, Refund(order, ds)) == Some(n)
    ensures Covered(n, order)
  {
    var live, skip := ActiveOf(s.lines, order), WasteRefundKeys(s.movements, order);
    var more := Written(order, ds, skip, FiredOf(s.lines, live), WasteRefund);
    KeysGrow(s.movements, more, order);
    forall k: Pair | k.line in live && HasSale(n.movements, k) ensures k in WasteRefundKeys(n.movements, order) {
      NoSaleWritten(s.movements, order, live, ds, skip, FiredOf(s.lines, live), WasteRefund, k);
      AggregateLists(s.movements, live, ds, k);
      WrittenCovers(order, ds, skip, FiredOf(s.lines, live), k);
    }
  }

  lemma NoSaleWritten(ms: seq<Movement>, order: Id, lines: set<Id>, ds: seq<Deduction>, skip: set<Pair>, fired: set<Id>,
                      waste: MovementKind, k: Pair)
    requires IsAggregate(ms, lines, ds) && (waste.WasteVoid? || waste.WasteRefund?)
    ensures HasSale(ms + Written(order, ds, skip, fired, waste), k) <==> HasSale(ms, k)
  {
    WrittenPair(order, ds, skip, fired, waste, k, Sold(ms, k));
    HasSaleAppend(ms, Written(order, ds, skip, fired, waste), k);
  }

  /** No live line of the order appears, and none of them sells more. */
  lemma CoveredStays(s: State, n: State, order: Id, more: seq<Movement>)
    requires Covered(s, order) && order in n.orders && n.movements == s.movements + more
    requires ActiveOf(n.lines, order) <= ActiveOf(s.lines, order)
    requires forall k: Pair :: k.line in ActiveOf(s.lines, order) && HasSale(n.movements, k) ==> HasSale(s.movements, k)
    ensures Covered(n, order)
  {
    KeysGrow(s.movements, more, order);
  }

  lemma SellStays(s: State, sold: Id, lineIds: set<Id>, needs: seq<Need>, n: State, order: Id)
    requires Covered(s, order) && Step(s, Sell(sold, lineIds, needs)) == Some(n)
    ensures Covered(n, order)
  {
    forall k: Pair | k.line in ActiveOf(s.lines, order) && HasSale(n.movements, k) ensures HasSale(s.movements, k) {
      HasSaleAppend(s.movements, SaleRows(sold, needs), k);
      SoldLines(sold, lineIds, needs, k);
    }
    assert ActiveOf(n.lines, order) <= ActiveOf(s.lines, order);
    CoveredStays(s, n, order, SaleRows(sold, needs));
  }

  lemma SoldLines(sold: Id, lineIds: set<Id>, needs: seq<Need>, k: Pair)
    requires forall n :: n in needs ==> n.line in lineIds
    ensures HasSale(SaleRows(sold, needs), k) ==> k.line in lineIds
  {
    if HasSale(SaleRows(sold, needs), k) {
      var m :| m in SaleRows(sold, needs) && IsSale(m, k);
      var i :| 0 <= i < |needs| && SaleRows(sold, needs)[i] == m;
      assert needs[i] in needs;
    }
  }

  lemma VoidLinesStays(s: State, target: Id, ids: set<Id>, ds: seq<Deduction>, order: Id)
    requires Covered(s, order) && IsAggregate(s.movements, ids, ds)
    ensures Covered(VoidLines(s, target, ids, ds), order)
  {
    var skip, fired := RestoredKeys(s.movements, ids), FiredOf(s.lines, ids);
    var n := VoidLines(s, target, ids, ds);
    forall k: Pair ensures HasSale(n.movements, k) <==> HasSale(s.movements, k) {
      NoSaleWritten(s.movements, target, ids, ds, skip, fired, WasteVoid, k);
    }
    assert ActiveOf(n.lines, order) <= ActiveOf(s.lines, order);
    CoveredStays(s, n, order, Written(target, ds, skip, fired, WasteVoid));
  }

  lemma RefundStays(s: State, target: Id, ds: seq<Deduction>, n: State, order: Id)
    requires Covered(s, order) && Step(s, Refund(target, ds)) == Some(n)
    ensures Covered(n, order)
  {
    var live, skip := ActiveOf(s.lines, target), WasteRefundKeys(s.movements, target);
    forall k: Pair ensures HasSale(n.movements, k) <==> HasSale(s.movements, k) {
      NoSaleWritten(s.movements, target, live, ds, skip, FiredOf(s.lines, live), WasteRefund, k);
    }
    CoveredStays(s, n, order, Written(target, ds, skip, FiredOf(s.lines, live), WasteRefund));
  }

  lemma UnwrittenStays(s: State, n: State, order: Id)
    requires Covered(s, order) && order in n.orders && n.movements == s.movements
    requires ActiveOf(n.lines, order) <= ActiveOf(s.lines, order)
    ensures Covered(n, order)
  {
  }

  lemma StepStays(s: State, a: Action, n: State, order: Id)
    requires Covered(s, order) && Step(s, a) == Some(n)
    ensures Covered(n, order)
  {
    match a
    case Sell(sold, lineIds, needs) => SellStays(s, sold, lineIds, needs, n, order);
    case Fire(line) =>
      assert ActiveOf(n.lines, order) <= ActiveOf(s.lines, order);
      UnwrittenStays(s, n, order);
    case SetStatus(_, _) => UnwrittenStays(s, n, order);
    case VoidItem(line, ds) => VoidLinesStays(s, s.lines[line].order, {line}, ds, order);
    case VoidOrder(target, ds) => VoidLinesStays(s, target, ActiveOf(s.lines, target), ds, order);
    case Refund(target, ds) => RefundStays(s, target, ds, n, order);
  }

  lemma {:induction false} ExecStays(s: State, actions: seq<Action>, order: Id)
    requires Covered(s, order) && Exec(s, actions).Some?
    ensures Covered(Exec(s, actions).value, order)
    decreases |actions|
  {
    if actions != [] {
      StepStays(s, actions[0], Step(s, actions[0]).value, order);
      ExecStays(Step(s, actions[0]).value, actions[1..], order);
    }
  }

  lemma {:induction false} AllSkipped(order: Id, ds: seq<Deduction>, skip: set<Pair>, fired: set<Id>,
                                      waste: MovementKind)
    requires forall d :: d in ds ==> d.pair in skip
    ensures Written(order, ds, skip, fired, waste) == []
    decreases |ds|
  {
    if ds != [] {
      AllSkipped(order, ds[..|ds| - 1], skip, fired, waste);
    }
  }

  /** Once an order was refunded, a later refund of it changes nothing, whatever happened in between. */
  lemma RepeatedRefundWritesNothing(first: seq<Action>, order: Id, ds: seq<Deduction>, between: seq<Action>,
                                    again: seq<Deduction>)
    requires Exec(Empty, first).Some? && Step(Exec(Empty, first).value, Refund(order, ds)).Some?
    requires Exec(Step(Exec(Empty, first).value, Refund(order, ds)).value, between).Some?
    ensures var s := Exec(Step(Exec(Empty, first).value, Refund(order, ds)).value, between).value;
            Step(s, Refund(order, again)).Some? ==> Step(s, Refund(order, again)).value == s
  {
    var s0 := Exec(Empty, first).value;
    var s1 := Step(s0, Refund(order, ds)).value;
    var s := Exec(s1, between).value;
    EmptyInv();
    ExecKeeps(Empty, first);
    RefundCovers(s0, order, ds, s1);
    ExecStays(s1, between, order);
    if Step(s, Refund(order, again)).Some? {
      CoveredRefund(s, order, again);
    }
  }

  lemma CoveredRefund(s: State, order: Id, ds: seq<Deduction>)
    requires Covered(s, order) && IsAggregate(s.movements, ActiveOf(s.lines, order), ds)
    ensures Step(s, Refund(order, ds)) == Some(s)
  {
    var live, skip := ActiveOf(s.lines, order), WasteRefundKeys(s.movements, order);
    AllSkipped(order, ds, skip, FiredOf(s.lines, live), WasteRefund);
    assert s.movements + [] == s.movements;
  }

  // ---------------------------------------------------------- the statements

  /** The totals of a grouped query, accumulated row by row. */
  method LoadSaleDeductions(ms: seq<Movement>, lines: set<Id>) returns (ds: seq<Deduction>)
    ensures IsAggregate(ms, lines, ds)
  {
    ds := [];
    for i := 0 to |ms|
      invariant IsAggregate(ms[..i], lines, ds)
    {
      var m := ms[i];
      PrefixSnoc(ms, i);
      if m.kind.SaleDeduction? && m.pair.line in lines {
        var j := IndexOf(ds, m.pair);
        AddToAggregate(ms[..i], lines, ds, m, j);
        if j < |ds| {
          ds := ds[j := Deduction(m.pair, ds[j].total + m.delta)];
        } else {
          ds := ds + [Deduction(m.pair, m.delta)];
        }
      } else {
        SkipInAggregate(ms[..i], lines, ds, m);
      }
    }
    assert ms[..|ms|] == ms;
  }

  method IndexOf(ds: seq<Deduction>, k: Pair) returns (j: nat)
    ensures j <= |ds| && (j < |ds| ==> ds[j].pair == k)
    ensures forall i :: 0 <= i < j ==> ds[i].pair != k
  {
    j := 0;
    while j < |ds| && ds[j].pair != k
      invariant j <= |ds| && forall i :: 0 <= i < j ==> ds[i].pair != k
    {
      j := j + 1;
    }
  }

  lemma SoldSnoc(ms: seq<Movement>, m: Movement, k: Pair)
    ensures Sold(ms + [m], k) == Sold(ms, k) + SoldPart(k, m)
    ensures HasSale(ms + [m], k) <==> HasSale(ms, k) || IsSale(m, k)
  {
    AppendPair(ms, [m], k);
    OneRow(m, k);
  }

  lemma SkipInAggregate(ms: seq<Movement>, lines: set<Id>, ds: seq<Deduction>, m: Movement)
    requires IsAggregate(ms, lines, ds) && !(m.kind.SaleDeduction? && m.pair.line in lines)
    ensures IsAggregate(ms + [m], lines, ds)
  {
    forall d | d in ds ensures d.pair.line in lines && HasSale(ms + [m], d.pair) && d.total == Sold(ms + [m], d.pair) {
      SoldSnoc(ms, m, d.pair);
    }
  }

  lemma {:induction false} UnsoldIsZero(ms: seq<Movement>, k: Pair)
    requires !HasSale(ms, k)
    ensures Sold(ms, k) == 0
  {
    if ms != [] {
      assert ms[0] in ms && !IsSale(ms[0], k);
      forall m | m in ms[1..] ensures !IsSale(m, k) {
        assert m in ms;
      }
      UnsoldIsZero(ms[1..], k);
    }
  }

  function AddDeduction(ds: seq<Deduction>, m: Movement, j: nat): seq<Deduction>
    requires j <= |ds|
  {
    if j < |ds| then ds[j := Deduction(m.pair, ds[j].total + m.delta)] else ds + [Deduction(m.pair, m.delta)]
  }

  lemma AddToAggregate(ms: seq<Movement>, lines: set<Id>, ds: seq<Deduction>, m: Movement, j: nat)
    requires IsAggregate(ms, lines, ds) && m.kind.SaleDeduction? && m.pair.line in lines
    requires j <= |ds| && (j < |ds| ==> ds[j].pair == m.pair) && forall i :: 0 <= i < j ==> ds[i].pair != m.pair
    ensures IsAggregate(ms + [m], lines, AddDeduction(ds, m, j))
  {
    var next := AddDeduction(ds, m, j);
    forall d | d in next ensures d.pair.line in lines && HasSale(ms + [m], d.pair) && d.total == Sold(ms + [m], d.pair)
    {
      var i :| 0 <= i < |next| && next[i] == d;
      if i == j {
        AddedTotal(ms, lines, ds, m, j);
      } else {
        KeptTotal(ms, lines, ds, m, ds[i]);
      }
    }
    forall x | x in ms + [m] && x.kind.SaleDeduction? && x.pair.line in lines
      ensures exists d :: d in next && d.pair == x.pair
    {
      StillListed(ds, m, j, x);
    }
  }

  lemma KeptTotal(ms: seq<Movement>, lines: set<Id>, ds: seq<Deduction>, m: Movement, d: Deduction)
    requires IsAggregate(ms, lines, ds) && d in ds && d.pair != m.pair
    ensures d.pair.line in lines && HasSale(ms + [m], d.pair) && d.total == Sold(ms + [m], d.pair)
  {
    SoldSnoc(ms, m, d.pair);
  }

  lemma AddedTotal(ms: seq<Movement>, lines: set<Id>, ds: seq<Deduction>, m: Movement, j: nat)
    requires IsAggregate(ms, lines, ds) && m.kind.SaleDeduction? && m.pair.line in lines
    requires j <= |ds| && (j < |ds| ==> ds[j].pair == m.pair) && forall i :: 0 <= i < j ==> ds[i].pair != m.pair
    ensures HasSale(ms + [m], m.pair) && AddDeduction(ds, m, j)[j] == Deduction(m.pair, Sold(ms + [m], m.pair))
  {
    SoldSnoc(ms, m, m.pair);
    if j < |ds| {
      assert ds[j] in ds;
    } else {
      if HasSale(ms, m.pair) {
        AggregateLists(ms, lines, ds, m.pair);
      }
      UnsoldIsZero(ms, m.pair);
    }
  }

  lemma StillListed(ds: seq<Deduction>, m: Movement, j: nat, x: Movement)
    requires j <= |ds| && (j < |ds| ==> ds[j].pair == m.pair)
    requires x == m || exists d :: d in ds && d.pair == x.pair
    ensures exists d :: d in AddDeduction(ds, m, j) && d.pair == x.pair
  {
    var next := AddDeduction(ds, m, j);
    if x.pair == m.pair {
      assert next[j] in next;
    } else {
      var d :| d in ds && d.pair == x.pair;
      var i :| 0 <= i < |ds| && ds[i] == d;
      assert next[i] == d;
    }
  }

  /** The tables that both engines write. */
  class StockLedger {
    var orders: map<Id, PaymentStatus>
    var lines: map<Id, Line>
    var movements: seq<Movement>

    function Tables(): State
      reads this
    {
      State(orders, lines, movements)
    }

    constructor ()
      ensures Tables() == Empty
    {
      orders, lines, movements := map[], map[], [];
    }

    /** One movement per deduction that is not in the skip set, in the order of the query. */
    method WriteMovements(order: Id, ds: seq<Deduction>, skip: set<Pair>, fired: set<Id>, waste: MovementKind)
      modifies this`movements
      ensures movements == old(movements) + Written(order, ds, skip, fired, waste)
    {
      for i := 0 to |ds|
        invariant movements == old(movements) + Written(order, ds[..i], skip, fired, waste)
      {
        var d := ds[i];
        assert ds[..i + 1][..i] == ds[..i];
        if d.pair !in skip {
          var row := if d.pair.line !in fired then Movement(order, d.pair, VoidRestoration, -d.total)
            else Movement(order, d.pair, waste, 0);
          movements := movements + [row];
        }
      }
      assert ds[..|ds|] == ds;
    }

    method VoidOrderItem(line: Id) returns (ok: bool, ghost ds: seq<Deduction>)
      modifies this
      ensures ok <==>
                && line in old(lines) && !old(lines)[line].voided && old(lines)[line].order in old(orders)
                && old(orders)[old(lines)[line].order].Open?
      ensures ok ==> Step(old(Tables()), VoidItem(line, ds)) == Some(Tables())
      ensures !ok ==> Tables() == old(Tables())
    {
      ds := [];
      if line !in lines || lines[line].voided || lines[line].order !in orders || !orders[lines[line].order].Open? {
        return false, [];
      }
      ds := VoidWithinOrder(lines[line].order, {line});
      return true, ds;
    }

    method VoidWholeOrder(order: Id) returns (ok: bool, ghost ds: seq<Deduction>)
      modifies this
      ensures ok <==> order in old(orders) && old(orders)[order].Open? && ActiveOf(old(lines), order) != {}
      ensures ok ==> Step(old(Tables()), VoidOrder(order, ds)) == Some(Tables())
      ensures !ok ==> Tables() == old(Tables())
    {
      ds := [];
      if order !in orders || !orders[order].Open? || ActiveOf(lines, order) == {} {
        return false, [];
      }
      ds := VoidWithinOrder(order, ActiveOf(lines, order));
      return true, ds;
    }

    /** Marks the lines, closes the order when none is left, then restores or wastes. */
    method VoidWithinOrder(order: Id, ids: set<Id>) returns (ghost ds: seq<Deduction>)
      modifies this
      ensures IsAggregate(old(movements), ids, ds)
      ensures Tables() == VoidLines(old(Tables()), order, ids, ds)
    {
      var fired := FiredOf(lines, ids);
      lines := MarkVoided(lines, ids);
      if ActiveOf(lines, order) == {} {
        orders := orders[order := Voided];
      }
      var deductions := LoadSaleDeductions(movements, ids);
      ds := deductions;
      WriteMovements(order, deductions, RestoredKeys(movements, ids), fired, WasteVoid);
    }

    method WriteRefundStockMovements(order: Id) returns (ghost ds: seq<Deduction>)
      requires order in orders
      modifies this`movements
      ensures Step(old(Tables()), Refund(order, ds)) == Some(Tables())
    {
      var live := ActiveOf(lines, order);
      var deductions := LoadSaleDeductions(movements, live);
      ds := deductions;
      WriteMovements(order, deductions, WasteRefundKeys(movements, order), FiredOf(lines, live), WasteRefund);
    }
  }
}
