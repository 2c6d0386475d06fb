/** How much of a tender is collected, and how much is handed back. */
module Settlement {
  import opened Outcome

  datatype Tender = Tender(gross: int, cashLike: bool, explicitChange: Option<int>)

  datatype Settled = Settled(net: int, change: int)

  /** Collection against a remaining balance: change on cash only, never more than the balance. */
  function Settle(remaining: int, tender: Tender): Option<Settled> {
    if remaining <= 0 then None
    else
      var excess := tender.gross - remaining;
      var change := if tender.cashLike && excess > 0 then excess else 0;
      if tender.explicitChange.Some? && tender.explicitChange.value != change then None
      else
        var net := tender.gross - change;
        if net <= 0 || net > remaining then None else Some(Settled(net, change))
  }

  /** Exactly which tenders are accepted, and what is collected: everything up to the balance. */
  lemma SettleExactly(remaining: int, tender: Tender)
    ensures Settle(remaining, tender).Some? <==>
              && remaining > 0 && tender.gross > 0
              && (tender.gross <= remaining || tender.cashLike)
              && (tender.explicitChange.Some? ==>
                  tender.explicitChange.value == (if tender.gross > remaining then tender.gross - remaining else 0))
    ensures Settle(remaining, tender).Some? ==>
              var settled := Settle(remaining, tender).value;
              && tender.gross == settled.net + settled.change
              && 0 < settled.net <= remaining
              && settled.net == (if tender.gross < remaining then tender.gross else remaining)
  {
  }
}

/**
 * Payment collection and shift close as concurrent transactions over one committed database.
 * A transaction reads the snapshot taken at its start. Locking a row waits for the holder, and
 * fails when the row changed after the snapshot. Writes appear at commit and bump the revision of
 * every locked row. An insert under an idempotency key fails when a committed row carries the key
 * and waits while another transaction's uncommitted row does.
 */
module Collection {
  import opened Outcome
  import opened Sums
  import opened Settlement

  type Id = string
  type TxId = nat

  datatype Payment = Payment(id: nat, order: Id, shift: Id, methodId: Id, cash: bool, tendered: int, net: int,
                             change: int, key: Option<string>)
  datatype OrderRow = OrderRow(total: int, revision: nat)
  datatype ShiftRow = ShiftRow(cashier: Id, isOpen: bool, revision: nat, recordedCashSales: Option<int>)
  datatype Db = Db(orders: map<Id, OrderRow>, shifts: map<Id, ShiftRow>, payments: seq<Payment>)

  datatype Request = Request(order: Id, methodId: Id, cashier: Id, tendered: int, tender: Tender, key: Option<string>)

  datatype Phase =
    | Started
    | OrderLocked
    | ShiftLocked(shift: Id)
    | RowInserted(shift: Id, settled: Settled)  // the payment row exists, uncommitted

  datatype Tx =
    | Collect(req: Request, snap: Db, phase: Phase)
    | Close(shift: Id, snap: Db, locked: bool)
    | Conflicted(req: Request)  // died on the unique key; a fresh read-only transaction follows

  /** A call that returned a payment. */
  datatype Success = Success(req: Request, payment: Payment)

  datatype State = State(db: Db, txs: map<TxId, Tx>, orderLocks: map<Id, TxId>, shiftLocks: map<Id, TxId>,
                         successes: seq<Success>)

  datatype Action =
    | CreateOrder(order: Id, total: int)
    | OpenShift(shift: Id, cashier: Id)
    | BeginCollect(t: TxId, req: Request)
    | BeginClose(t: TxId, shift: Id)
    | LockOrder(t: TxId)
    | Replay(t: TxId)
    | LockShift(t: TxId, shift: Id)
    | Insert(t: TxId)
    | CommitCollect(t: TxId)
    | CommitClose(t: TxId)
    | ReplayAfterConflict(t: TxId)
    | Abort(t: TxId)

  function PaidPart(order: Id, p: Payment): int { if p.order == order then p.net else 0 }

  function CashPart(shift: Id, p: Payment): int { if p.shift == shift && p.cash then p.net else 0 }

  function Paid(payments: seq<Payment>, order: Id): int {
    SumBy(payments, (p: Payment) => PaidPart(order, p))
  }

  function CashSales(payments: seq<Payment>, shift: Id): int {
    SumBy(payments, (p: Payment) => CashPart(shift, p))
  }

  function ByKey(payments: seq<Payment>, key: string): Option<Payment> {
    if payments == [] then None
    else if payments[0].key == Some(key) then Some(payments[0])
    else ByKey(payments[1..], key)
  }

  function Release(locks: map<Id, TxId>, t: TxId): map<Id, TxId> {
    map x | x in locks && locks[x] != t :: locks[x]
  }

  /** Ends a transaction: its locks go, whatever it did. */
  function Finish(s: State, t: TxId): State {
    s.(txs := s.txs - {t}, orderLocks := Release(s.orderLocks, t), shiftLocks := Release(s.shiftLocks, t))
  }

  /** A key identifies one operation: order, method, tender and any named change must match. */
  predicate MatchesRecorded(req: Request, p: Payment) {
    && p.order == req.order && p.methodId == req.methodId && p.tendered == req.tendered
    && (req.tender.explicitChange.Some? ==> req.tender.explicitChange.value == p.change)
  }

  function Replayed(s: State, t: TxId, req: Request, p: Payment): State {
    var done := Finish(s, t);
    if MatchesRecorded(req, p) then done.(successes := done.successes + [Success(req, p)]) else done
  }

  function NewPayment(db: Db, req: Request, shift: Id, settled: Settled): Payment {
    Payment(|db.payments|, req.order, shift, req.methodId, req.tender.cashLike, req.tendered, settled.net,
            settled.change, req.key)
  }

  function Committed(db: Db, req: Request, shift: Id, settled: Settled): Db
    requires req.order in db.orders && shift in db.shifts
  {
    db.(orders := db.orders[req.order := db.orders[req.order].(revision := db.orders[req.order].revision + 1)],
        shifts := db.shifts[shift := db.shifts[shift].(revision := db.shifts[shift].revision + 1)],
        payments := db.payments + [NewPayment(db, req, shift, settled)])
  }

  /** The payment row, both revisions and the answer to the caller appear together; the locks go. */
  function Recorded(s: State, t: TxId, req: Request, shift: Id, settled: Settled): State
    requires req.order in s.db.orders && shift in s.db.shifts
  {
    Finish(s, t).(db := Committed(s.db, req, shift, settled),
                  successes := s.successes + [Success(req, NewPayment(s.db, req, shift, settled))])
  }

  function StepLockOrder(s: State, t: TxId, tx: Tx): Option<State>
    requires tx.Collect?
  {
    var order := tx.req.order;
    if !tx.phase.Started? || order in s.orderLocks then None
    else if order !in tx.snap.orders || order !in s.db.orders
            || s.db.orders[order] != tx.snap.orders[order] then Some(Finish(s, t))
    else Some(s.(txs := s.txs[t := tx.(phase := OrderLocked)], orderLocks := s.orderLocks[order := t]))
  }

  function StepLockShift(s: State, t: TxId, tx: Tx, shift: Id): Option<State> {
    if shift in s.shiftLocks then None
    else match tx
      case Collect(req, snap, phase) =>
        // the standing open shift of the cashier, as the snapshot shows it
        if !phase.OrderLocked? then None
        else if req.key.Some? && ByKey(snap.payments, req.key.value).Some? then None
        else if !(shift in snap.shifts && snap.shifts[shift].cashier == req.cashier && snap.shifts[shift].isOpen) then
          None
        else if shift !in s.db.shifts || s.db.shifts[shift] != snap.shifts[shift] then Some(Finish(s, t))
        else Some(s.(txs := s.txs[t := tx.(phase := ShiftLocked(shift))], shiftLocks := s.shiftLocks[shift := t]))
      case Close(target, snap, locked) =>
        if locked || shift != target then None
        else if shift !in snap.shifts || shift !in s.db.shifts
                || s.db.shifts[shift] != snap.shifts[shift] then Some(Finish(s, t))
        else Some(s.(txs := s.txs[t := tx.(locked := true)], shiftLocks := s.shiftLocks[shift := t]))
      case Conflicted(_) => None
  }

  /** The transaction has inserted a row with this key and not committed it. */
  predicate PendingKey(tx: Tx, key: string) {
    tx.Collect? && tx.phase.RowInserted? && tx.req.key == Some(key)
  }

  predicate KeyPending(s: State, key: string) { exists u :: u in s.txs && PendingKey(s.txs[u], key) }

  function StepInsert(s: State, t: TxId, tx: Tx): Option<State>
    requires tx.Collect?
  {
    var req := tx.req;
    if !tx.phase.ShiftLocked? || req.order !in tx.snap.orders then None
    else
      InsertWith(s, t, tx, Settle(tx.snap.orders[req.order].total - Paid(tx.snap.payments, req.order), req.tender))
  }

  /** A refused tender rolls back; a key that another commit took first dies on the unique index. */
  function InsertWith(s: State, t: TxId, tx: Tx, outcome: Option<Settled>): Option<State>
    requires tx.Collect? && tx.phase.ShiftLocked?
  {
    if outcome.None? then Some(Finish(s, t))
    else if tx.req.key.Some? && ByKey(s.db.payments, tx.req.key.value).Some? then
      Some(Finish(s, t).(txs := s.txs[t := Conflicted(tx.req)]))
    else if tx.req.key.Some? && KeyPending(s, tx.req.key.value) then None
    else Some(s.(txs := s.txs[t := tx.(phase := RowInserted(tx.phase.shift, outcome.value))]))
  }

  function StepCommitCollect(s: State, t: TxId, tx: Tx): Option<State>
    requires tx.Collect?
  {
    if !tx.phase.RowInserted? || tx.req.order !in s.db.orders || tx.phase.shift !in s.db.shifts then None
    else Some(Recorded(s, t, tx.req, tx.phase.shift, tx.phase.settled))
  }

  function StepCommitClose(s: State, t: TxId, tx: Tx): Option<State>
    requires tx.Close?
  {
    var shift := tx.shift;
    if !tx.locked || shift !in tx.snap.shifts || shift !in s.db.shifts then None
    else if !tx.snap.shifts[shift].isOpen then Some(Finish(s, t))
    else
      var row := s.db.shifts[shift];
      var closed := row.(isOpen := false, revision := row.revision + 1,
                         recordedCashSales := Some(CashSales(tx.snap.payments, shift)));
      Some(Finish(s, t).(db := s.db.(shifts := s.db.shifts[shift := closed])))
  }

  /** One step of the system, when it is enabled. */
  function Step(s: State, a: Action): Option<State> {
    match a
    case CreateOrder(order, total) =>
      if order in s.db.orders then None else Some(s.(db := s.db.(orders := s.db.orders[order := OrderRow(total, 0)])))
    case OpenShift(shift, cashier) =>
      if shift in s.db.shifts
         || exists x :: x in s.db.shifts && s.db.shifts[x].isOpen && s.db.shifts[x].cashier == cashier then None
      else Some(s.(db := s.db.(shifts := s.db.shifts[shift := ShiftRow(cashier, true, 0, None)])))
    case BeginCollect(t, req) =>
      if t in s.txs then None else Some(s.(txs := s.txs[t := Collect(req, s.db, Started)]))
    case BeginClose(t, shift) =>
      if t in s.txs then None else Some(s.(txs := s.txs[t := Close(shift, s.db, false)]))
    case LockOrder(t) =>
      if t !in s.txs || !s.txs[t].Collect? then None else StepLockOrder(s, t, s.txs[t])
    case Replay(t) =>
      if t !in s.txs || !s.txs[t].Collect? || !s.txs[t].phase.OrderLocked? || s.txs[t].req.key.None? then None
      else (match ByKey(s.txs[t].snap.payments, s.txs[t].req.key.value)
            case None => None
            case Some(p) => Some(Replayed(s, t, s.txs[t].req, p)))
    case LockShift(t, shift) =>
      if t !in s.txs then None else StepLockShift(s, t, s.txs[t], shift)
    case Insert(t) =>
      if t !in s.txs || !s.txs[t].Collect? then None else StepInsert(s, t, s.txs[t])
    case CommitCollect(t) =>
      if t !in s.txs || !s.txs[t].Collect? then None else StepCommitCollect(s, t, s.txs[t])
    case CommitClose(t) =>
      if t !in s.txs || !s.txs[t].Close? then None else StepCommitClose(s, t, s.txs[t])
    case ReplayAfterConflict(t) =>
      if t !in s.txs || !s.txs[t].Conflicted? || s.txs[t].req.key.None? then None
      else (match ByKey(s.db.payments, s.txs[t].req.key.value)
            case None => Some(Finish(s, t))
            case Some(p) => Some(Replayed(s, t, s.txs[t].req, p)))
    case Abort(t) =>
      if t !in s.txs then None else Some(Finish(s, t))
  }

  const Empty := State(Db(map[], map[], []), map[], map[], map[], [])

  /** A run: every listed step is enabled where it is taken. */
  function Exec(s: State, actions: seq<Action>): Option<State>
    decreases |actions|
  {
    if actions == [] then Some(s)
    else match Step(s, actions[0])
      case None => None
      case Some(next) => Exec(next, actions[1..])
  }

  // ---------------------------------------------------------------- invariant

  /** What an earlier committed database still says about the present one. */
  ghost predicate Older(snap: Db, db: Db) {
    && snap.payments <= db.payments
    && (forall o {:trigger OrderOlder(o, snap, db)} :: o in snap.orders ==> OrderOlder(o, snap, db))
    && (forall x {:trigger ShiftOlder(x, snap, db)} :: x in snap.shifts ==> ShiftOlder(x, snap, db))
  }

  ghost predicate OrderOlder(o: Id, snap: Db, db: Db)
    requires o in snap.orders
  {
    && o in db.orders
    && snap.orders[o].revision <= db.orders[o].revision
    && (snap.orders[o].revision == db.orders[o].revision ==> Paid(snap.payments, o) == Paid(db.payments, o))
  }

  ghost predicate ShiftOlder(x: Id, snap: Db, db: Db)
    requires x in snap.shifts
  {
    && x in db.shifts
    && snap.shifts[x].revision <= db.shifts[x].revision
    && (snap.shifts[x].revision == db.shifts[x].revision ==> CashSales(snap.payments, x) == CashSales(db.payments, x))
  }

  /** A transaction past its order lock holds it, and the row is still the one of its snapshot. */
  ghost predicate HoldsOrder(s: State, t: TxId, order: Id, snap: Db) {
    && order in s.orderLocks && s.orderLocks[order] == t
    && order in snap.orders && order in s.db.orders && s.db.orders[order] == snap.orders[order]
  }

  ghost predicate HoldsShift(s: State, t: TxId, shift: Id, snap: Db) {
    && shift in s.shiftLocks && s.shiftLocks[shift] == t
    && shift in snap.shifts && shift in s.db.shifts && s.db.shifts[shift] == snap.shifts[shift]
  }

  predicate PastShift(phase: Phase) { phase.ShiftLocked? || phase.RowInserted? }

  /** The amounts inserted are the tender settled against the balance of the snapshot. */
  ghost predicate SettledFrom(req: Request, snap: Db, settled: Settled) {
    && req.order in snap.orders
    && Settle(snap.orders[req.order].total - Paid(snap.payments, req.order), req.tender) == Some(settled)
  }

  ghost predicate TxInv(s: State, t: TxId, tx: Tx) {
    match tx
    case Collect(req, snap, phase) =>
      && Older(snap, s.db)
      && (!phase.Started? ==> HoldsOrder(s, t, req.order, snap))
      && (PastShift(phase) ==>
            && HoldsShift(s, t, phase.shift, snap)
            && snap.shifts[phase.shift].isOpen && snap.shifts[phase.shift].cashier == req.cashier)
      && (phase.RowInserted? ==> SettledFrom(req, snap, phase.settled))
    case Close(shift, snap, locked) =>
      Older(snap, s.db) && (locked ==> HoldsShift(s, t, shift, snap))
    case Conflicted(_) => true
  }

  /** Every lock belongs to a live transaction that is past the corresponding point. */
  ghost predicate LockOwners(s: State) {
    && (forall o :: o in s.orderLocks ==>
          var t := s.orderLocks[o];
          t in s.txs && s.txs[t].Collect? && s.txs[t].req.order == o && !s.txs[t].phase.Started?)
    && (forall x :: x in s.shiftLocks ==> s.shiftLocks[x] in s.txs && OwnsShift(s.txs[s.shiftLocks[x]], x))
  }

  predicate OwnsShift(tx: Tx, shift: Id) {
    match tx
    case Collect(_, _, phase) => PastShift(phase) && phase.shift == shift
    case Close(target, _, locked) => locked && target == shift
    case Conflicted(_) => false
  }

  /** No order is collected past its total. */
  ghost predicate NotOverCollected(db: Db) {
    forall o :: o in db.orders ==> Paid(db.payments, o) == 0 || 0 < Paid(db.payments, o) <= db.orders[o].total
  }

  /** The Z-Report of a closed shift is the sum of the cash payments on it; an open one has none yet. */
  ghost predicate ReportsExact(db: Db) {
    forall x :: x in db.shifts ==>
                  db.shifts[x].recordedCashSales
                    == if db.shifts[x].isOpen then None else Some(CashSales(db.payments, x))
  }

  ghost predicate PaymentsSound(db: Db) {
    && (forall i :: 0 <= i < |db.payments| ==>
          && db.payments[i].id == i && db.payments[i].net > 0
          && db.payments[i].order in db.orders && db.payments[i].shift in db.shifts)
    && (forall i, j :: 0 <= i < j < |db.payments| && db.payments[i].key.Some? ==>
        db.payments[i].key != db.payments[j].key)
  }

  ghost predicate SuccessSound(db: Db, x: Success) {
    x.payment in db.payments && x.payment.key == x.req.key && MatchesRecorded(x.req, x.payment)
  }

  ghost predicate DbInv(db: Db) {
    NotOverCollected(db) && ReportsExact(db) && PaymentsSound(db)
  }

  ghost predicate TxsInv(s: State) {
    forall t {:trigger TxInv(s, t, s.txs[t])} :: t in s.txs ==> TxInv(s, t, s.txs[t])
  }

  ghost predicate SuccessesSound(s: State) {
    forall x {:trigger SuccessSound(s.db, x)} :: x in s.successes ==> SuccessSound(s.db, x)
  }

  /** An uncommitted row has its key to itself. */
  ghost predicate KeysInv(s: State) {
    && (forall t, key {:trigger PendingKey(s.txs[t], key)} :: t in s.txs && PendingKey(s.txs[t], key) ==>
        ByKey(s.db.payments, key).None?)
    && (forall t, u, key {:trigger PendingKey(s.txs[t], key), PendingKey(s.txs[u], key)} ::
          t in s.txs && u in s.txs && PendingKey(s.txs[t], key) && PendingKey(s.txs[u], key) ==> t == u)
  }

  ghost predicate Inv(s: State) {
    DbInv(s.db) && TxsInv(s) && LockOwners(s) && SuccessesSound(s) && KeysInv(s)
  }

  // ------------------------------------------------------------ small lemmas

  lemma PaidSnoc(payments: seq<Payment>, p: Payment, order: Id)
    ensures Paid(payments + [p], order) == Paid(payments, order) + PaidPart(order, p)
  {
    SumBySnoc(payments, p, (q: Payment) => PaidPart(order, q));
  }

  lemma CashSalesSnoc(payments: seq<Payment>, p: Payment, shift: Id)
    ensures CashSales(payments + [p], shift) == CashSales(payments, shift) + CashPart(shift, p)
  {
    SumBySnoc(payments, p, (q: Payment) => CashPart(shift, q));
  }

  lemma {:induction false} NothingPaid(payments: seq<Payment>, order: Id)
    requires forall p :: p in payments ==> p.order != order
    ensures Paid(payments, order) == 0
  {
    if payments != [] {
      NothingPaid(payments[1..], order);
    }
  }

  lemma {:induction false} ByKeyFinds(payments: seq<Payment>, key: string)
    ensures ByKey(payments, key).Some? ==>
            ByKey(payments, key).value in payments && ByKey(payments, key).value.key == Some(key)
    ensures ByKey(payments, key).None? ==> forall p :: p in payments ==> p.key != Some(key)
  {
    if payments != [] && payments[0].key != Some(key) {
      ByKeyFinds(payments[1..], key);
    }
  }

  lemma PrefixMember(a: seq<Payment>, b: seq<Payment>, p: Payment)
    requires a <= b && p in a
    ensures p in b
  {
    var i :| 0 <= i < |a| && a[i] == p;
    assert b[i] == p;
  }

  // -------------------------------------------------- the invariant is kept

  lemma OlderTransitive(a: Db, b: Db, c: Db)
    requires Older(a, b) && Older(b, c)
    ensures Older(a, c)
  {
    forall o | o in a.orders ensures OrderOlder(o, a, c) {
      assert OrderOlder(o, a, b) && OrderOlder(o, b, c);
    }
    forall x | x in a.shifts ensures ShiftOlder(x, a, c) {
      assert ShiftOlder(x, a, b) && ShiftOlder(x, b, c);
    }
  }

  /** The locks a transaction holds, and the rows under them, are as they were. */
  ghost predicate Undisturbed(s: State, n: State, t: TxId) {
    && (forall o :: o in s.orderLocks && s.orderLocks[o] == t ==>
          o in n.orderLocks && n.orderLocks[o] == t
            && (o in s.db.orders ==> o in n.db.orders && n.db.orders[o] == s.db.orders[o]))
    && (forall x :: x in s.shiftLocks && s.shiftLocks[x] == t ==>
          x in n.shiftLocks && n.shiftLocks[x] == t
            && (x in s.db.shifts ==> x in n.db.shifts && n.db.shifts[x] == s.db.shifts[x]))
  }

  /** A step of others keeps what a transaction relies on. */
  lemma UndisturbedKeeps(s: State, n: State, t: TxId, tx: Tx)
    requires TxInv(s, t, tx) && Older(s.db, n.db) && Undisturbed(s, n, t)
    ensures TxInv(n, t, tx)
  {
    if !tx.Conflicted? {
      OlderTransitive(tx.snap, s.db, n.db);
    }
  }

  lemma OthersKeep(s: State, n: State, t: TxId)
    requires TxsInv(s) && Older(s.db, n.db)
    requires forall u :: u in n.txs && u != t ==> u in s.txs && n.txs[u] == s.txs[u] && Undisturbed(s, n, u)
    requires t in n.txs ==> TxInv(n, t, n.txs[t])
    ensures TxsInv(n)
  {
    forall u | u in n.txs ensures TxInv(n, u, n.txs[u]) {
      if u != t {
        UndisturbedKeeps(s, n, u, s.txs[u]);
      }
    }
  }

  lemma OlderItself(db: Db)
    ensures Older(db, db)
  {
  }

  lemma FinishUndisturbed(s: State, t: TxId, u: TxId)
    requires u != t
    ensures Undisturbed(s, Finish(s, t), u)
  {
  }

  lemma FinishTxs(s: State, t: TxId)
    requires TxsInv(s)
    ensures TxsInv(Finish(s, t))
  {
    var n := Finish(s, t);
    OlderItself(s.db);
    forall u | u in n.txs && u != t ensures u in s.txs && n.txs[u] == s.txs[u] && Undisturbed(s, n, u) {
      FinishUndisturbed(s, t, u);
    }
    OthersKeep(s, n, t);
  }

  /** No new uncommitted row and no new payment: the keys are as they were. */
  lemma KeysStay(s: State, n: State)
    requires KeysInv(s) && n.db.payments == s.db.payments
    requires forall t :: t in n.txs && n.txs[t].Collect? && n.txs[t].phase.RowInserted? ==>
             t in s.txs && n.txs[t] == s.txs[t]
    ensures KeysInv(n)
  {
    forall t, key | t in n.txs && PendingKey(n.txs[t], key) ensures ByKey(n.db.payments, key).None? {
      assert PendingKey(s.txs[t], key);
    }
    forall t, u, key | t in n.txs && u in n.txs && PendingKey(n.txs[t], key) && PendingKey(n.txs[u], key) ensures t == u
    {
      assert PendingKey(s.txs[t], key) && PendingKey(s.txs[u], key);
    }
  }

  lemma FinishLocks(s: State, t: TxId)
    requires LockOwners(s)
    ensures LockOwners(Finish(s, t))
  {
  }

  /** Ending a transaction touches no row and frees no one else's lock. */
  lemma FinishKeeps(s: State, t: TxId)
    requires Inv(s)
    ensures Inv(Finish(s, t))
  {
    FinishTxs(s, t);
    FinishLocks(s, t);
    KeysStay(s, Finish(s, t));
  }

  /** A transaction's own move that writes nothing: others see no change. */
  lemma AdvanceTxs(s: State, n: State, t: TxId, tx: Tx)
    requires TxsInv(s) && n.db == s.db && n.txs == s.txs[t := tx]
    requires forall o :: o in s.orderLocks ==> o in n.orderLocks && n.orderLocks[o] == s.orderLocks[o]
    requires forall x :: x in s.shiftLocks ==> x in n.shiftLocks && n.shiftLocks[x] == s.shiftLocks[x]
    requires TxInv(n, t, tx)
    ensures TxsInv(n)
  {
    OlderItself(s.db);
    OthersKeep(s, n, t);
  }

  lemma BeginKeeps(s: State, t: TxId, tx: Tx)
    requires Inv(s) && t !in s.txs
    requires (tx.Collect? && tx.snap == s.db && tx.phase.Started?) || (tx.Close? && tx.snap == s.db && !tx.locked)
    ensures Inv(s.(txs := s.txs[t := tx]))
  {
    var n := s.(txs := s.txs[t := tx]);
    OlderItself(s.db);
    AdvanceTxs(s, n, t, tx);
    assert LockOwners(n);
    KeysStay(s, n);
  }

  lemma CreateOrderKeeps(s: State, order: Id, total: int)
    requires Inv(s) && order !in s.db.orders
    ensures Inv(s.(db := s.db.(orders := s.db.orders[order := OrderRow(total, 0)])))
  {
    var n := s.(db := s.db.(orders := s.db.orders[order := OrderRow(total, 0)]));
    assert NotOverCollected(n.db) by {
      NothingPaid(s.db.payments, order);
    }
    AddRowKeeps(s, n);
  }

  lemma OpenShiftKeeps(s: State, shift: Id, row: ShiftRow)
    requires Inv(s) && shift !in s.db.shifts && row.isOpen && row.recordedCashSales.None?
    ensures Inv(s.(db := s.db.(shifts := s.db.shifts[shift := row])))
  {
    var n := s.(db := s.db.(shifts := s.db.shifts[shift := row]));
    AddRowKeeps(s, n);
  }

  /** New rows disturb nobody: every existing row stays as it was. */
  lemma AddRowKeeps(s: State, n: State)
    requires Inv(s) && n == s.(db := n.db) && n.db.payments == s.db.payments
    requires forall o :: o in s.db.orders ==> o in n.db.orders && n.db.orders[o] == s.db.orders[o]
    requires forall x :: x in s.db.shifts ==> x in n.db.shifts && n.db.shifts[x] == s.db.shifts[x]
    requires NotOverCollected(n.db) && ReportsExact(n.db)
    ensures Inv(n)
  {
    assert Older(s.db, n.db);
    forall u | u in n.txs ensures TxInv(n, u, n.txs[u]) {
      assert TxInv(s, u, s.txs[u]);
      UndisturbedKeeps(s, n, u, s.txs[u]);
    }
    forall x | x in n.successes ensures SuccessSound(n.db, x) {
      assert SuccessSound(s.db, x);
    }
    KeysStay(s, n);
  }

  /** After a transaction advanced and took the locks it now holds, every lock has its owner. */
  lemma LockOrderLocks(s: State, n: State, t: TxId, order: Id)
    requires LockOwners(s) && t in s.txs && t in n.txs
    requires n.txs == s.txs[t := n.txs[t]] && n.shiftLocks == s.shiftLocks && n.orderLocks == s.orderLocks[order := t]
    requires s.txs[t].Collect? && s.txs[t].phase.Started? && n.txs[t].Collect? && n.txs[t].req.order == order
             && n.txs[t].phase.OrderLocked?
    requires s.txs[t].req == n.txs[t].req
    ensures LockOwners(n)
  {
  }

  lemma LockOrderKeeps(s: State, t: TxId)
    requires Inv(s) && t in s.txs && s.txs[t].Collect? && StepLockOrder(s, t, s.txs[t]).Some?
    ensures Inv(StepLockOrder(s, t, s.txs[t]).value)
  {
    var n := StepLockOrder(s, t, s.txs[t]).value;
    if n == Finish(s, t) {
      FinishKeeps(s, t);
    } else {
      assert TxInv(s, t, s.txs[t]);
      assert TxInv(n, t, n.txs[t]);
      AdvanceTxs(s, n, t, n.txs[t]);
      LockOrderLocks(s, n, t, s.txs[t].req.order);
      KeysStay(s, n);
    }
  }

  lemma LockShiftLocks(s: State, n: State, t: TxId, shift: Id)
    requires LockOwners(s) && t in s.txs && t in n.txs
    requires n.txs == s.txs[t := n.txs[t]] && n.orderLocks == s.orderLocks && n.shiftLocks == s.shiftLocks[shift := t]
    requires !s.txs[t].Conflicted? && (forall x :: !OwnsShift(s.txs[t], x)) && OwnsShift(n.txs[t], shift)
    requires s.txs[t].Collect? ==> n.txs[t].Collect? && s.txs[t].req == n.txs[t].req
    ensures LockOwners(n)
  {
  }

  lemma LockShiftKeeps(s: State, t: TxId, shift: Id)
    requires Inv(s) && t in s.txs && StepLockShift(s, t, s.txs[t], shift).Some?
    ensures Inv(StepLockShift(s, t, s.txs[t], shift).value)
  {
    var n := StepLockShift(s, t, s.txs[t], shift).value;
    if n == Finish(s, t) {
      FinishKeeps(s, t);
    } else {
      assert TxInv(s, t, s.txs[t]);
      assert TxInv(n, t, n.txs[t]);
      AdvanceTxs(s, n, t, n.txs[t]);
      LockShiftLocks(s, n, t, shift);
      KeysStay(s, n);
    }
  }

  lemma CommittedOlder(db: Db, req: Request, shift: Id, settled: Settled)
    requires req.order in db.orders && shift in db.shifts
    ensures Older(db, Committed(db, req, shift, settled))
  {
    var n := Committed(db, req, shift, settled);
    var p := n.payments[|db.payments|];
    forall o | o in db.orders ensures OrderOlder(o, db, n) {
      PaidSnoc(db.payments, p, o);
    }
    forall x | x in db.shifts ensures ShiftOlder(x, db, n) {
      CashSalesSnoc(db.payments, p, x);
    }
  }

  lemma CommittedNotOver(db: Db, req: Request, shift: Id, settled: Settled)
    requires NotOverCollected(db) && req.order in db.orders && shift in db.shifts
    requires 0 < settled.net <= db.orders[req.order].total - Paid(db.payments, req.order)
    ensures NotOverCollected(Committed(db, req, shift, settled))
  {
    var n := Committed(db, req, shift, settled);
    forall o | o in n.orders ensures Paid(n.payments, o) == 0 || 0 < Paid(n.payments, o) <= n.orders[o].total {
      PaidSnoc(db.payments, n.payments[|db.payments|], o);
    }
  }

  lemma CommittedReports(db: Db, req: Request, shift: Id, settled: Settled)
    requires ReportsExact(db) && req.order in db.orders && shift in db.shifts && db.shifts[shift].isOpen
    ensures ReportsExact(Committed(db, req, shift, settled))
  {
    var n := Committed(db, req, shift, settled);
    forall x | x in n.shifts
      ensures n.shifts[x].recordedCashSales == if n.shifts[x].isOpen then None else Some(CashSales(n.payments, x))
    {
      CashSalesSnoc(db.payments, n.payments[|db.payments|], x);
    }
  }

  lemma CommittedPayments(db: Db, req: Request, shift: Id, settled: Settled)
    requires PaymentsSound(db) && req.order in db.orders && shift in db.shifts && settled.net > 0
    requires req.key.Some? ==> ByKey(db.payments, req.key.value).None?
    ensures PaymentsSound(Committed(db, req, shift, settled))
  {
    if req.key.Some? {
      ByKeyFinds(db.payments, req.key.value);
      assert forall i :: 0 <= i < |db.payments| ==> db.payments[i] in db.payments;
    }
  }

  /** A commit under the locks: the rows of every other lock holder are untouched. */
  lemma CommitTxs(s: State, n: State, t: TxId)
    requires TxsInv(s) && Older(s.db, n.db)
    requires n.txs == s.txs - {t} && n.orderLocks == Release(s.orderLocks, t)
             && n.shiftLocks == Release(s.shiftLocks, t)
    requires forall o :: o in s.db.orders && !(o in s.orderLocks && s.orderLocks[o] == t) ==>
             o in n.db.orders && n.db.orders[o] == s.db.orders[o]
    requires forall x :: x in s.db.shifts && !(x in s.shiftLocks && s.shiftLocks[x] == t) ==>
             x in n.db.shifts && n.db.shifts[x] == s.db.shifts[x]
    ensures TxsInv(n)
  {
    OthersKeep(s, n, t);
  }

  lemma CommitLocks(s: State, n: State, t: TxId)
    requires LockOwners(s)
    requires n.txs == s.txs - {t} && n.orderLocks == Release(s.orderLocks, t)
             && n.shiftLocks == Release(s.shiftLocks, t)
    ensures LockOwners(n)
  {
  }

  /** What a transaction read from its snapshot is still true when it holds the locks. */
  lemma SnapshotIsCurrent(s: State, t: TxId)
    requires TxsInv(s) && t in s.txs
    ensures s.txs[t].Collect? && PastShift(s.txs[t].phase) ==>
              var tx := s.txs[t];
              && tx.req.order in tx.snap.orders && tx.req.order in s.db.orders && tx.phase.shift in s.db.shifts
              && tx.snap.orders[tx.req.order].total - Paid(tx.snap.payments, tx.req.order)
                 == s.db.orders[tx.req.order].total - Paid(s.db.payments, tx.req.order)
              && s.db.shifts[tx.phase.shift].isOpen
              && tx.req.order in s.orderLocks && s.orderLocks[tx.req.order] == t
              && tx.phase.shift in s.shiftLocks && s.shiftLocks[tx.phase.shift] == t
    ensures s.txs[t].Close? && s.txs[t].locked ==>
              var tx := s.txs[t];
              && tx.shift in tx.snap.shifts && tx.shift in s.db.shifts
              && tx.snap.shifts[tx.shift] == s.db.shifts[tx.shift]
              && CashSales(tx.snap.payments, tx.shift) == CashSales(s.db.payments, tx.shift)
  {
    assert TxInv(s, t, s.txs[t]);
    if s.txs[t].Collect? && PastShift(s.txs[t].phase) {
      assert OrderOlder(s.txs[t].req.order, s.txs[t].snap, s.db);
    } else if s.txs[t].Close? && s.txs[t].locked {
      assert ShiftOlder(s.txs[t].shift, s.txs[t].snap, s.db);
    }
  }

  lemma SuccessesGrow(s: State, n: State, x: Success)
    requires SuccessesSound(s) && s.db.payments <= n.db.payments
    requires n.successes == s.successes + [x] && SuccessSound(n.db, x)
    ensures SuccessesSound(n)
  {
    forall y | y in n.successes ensures SuccessSound(n.db, y) {
      if y in s.successes {
        assert SuccessSound(s.db, y);
        PrefixMember(s.db.payments, n.db.payments, y.payment);
      }
    }
  }

  lemma SuccessesStay(s: State, n: State)
    requires SuccessesSound(s) && s.db.payments <= n.db.payments && n.successes == s.successes
    ensures SuccessesSound(n)
  {
    forall y | y in n.successes ensures SuccessSound(n.db, y) {
      assert SuccessSound(s.db, y);
      PrefixMember(s.db.payments, n.db.payments, y.payment);
    }
  }

  lemma ConflictKeeps(s: State, t: TxId, req: Request)
    requires Inv(s)
    ensures Inv(Finish(s, t).(txs := s.txs[t := Conflicted(req)]))
  {
    var f := Finish(s, t);
    var n := f.(txs := s.txs[t := Conflicted(req)]);
    FinishKeeps(s, t);
    assert n.txs == f.txs[t := Conflicted(req)];
    AdvanceTxs(f, n, t, Conflicted(req));
    assert LockOwners(n);
    KeysStay(f, n);
  }

  // Inserting the row, uncommitted

  lemma InsertLocks(s: State, n: State, t: TxId)
    requires LockOwners(s) && t in s.txs && s.txs[t].Collect? && s.txs[t].phase.ShiftLocked?
    requires n.orderLocks == s.orderLocks && n.shiftLocks == s.shiftLocks
    requires exists settled :: n.txs == s.txs[t := s.txs[t].(phase := RowInserted(s.txs[t].phase.shift, settled))]
    ensures LockOwners(n)
  {
  }

  lemma InsertKeys(s: State, n: State, t: TxId)
    requires KeysInv(s) && n.db == s.db && t in s.txs && s.txs[t].Collect? && s.txs[t].phase.ShiftLocked?
    requires t in n.txs && n.txs == s.txs[t := n.txs[t]] && n.txs[t].Collect? && n.txs[t].req == s.txs[t].req
    requires n.txs[t].req.key.Some? ==>
               ByKey(s.db.payments, n.txs[t].req.key.value).None? && !KeyPending(s, n.txs[t].req.key.value)
    ensures KeysInv(n)
  {
    forall u, key | u in n.txs && PendingKey(n.txs[u], key) ensures ByKey(n.db.payments, key).None? {
      if u != t {
        assert PendingKey(s.txs[u], key);
      }
    }
    forall u, v, key | u in n.txs && v in n.txs && PendingKey(n.txs[u], key) && PendingKey(n.txs[v], key) ensures u == v
    {
      assert u != t ==> PendingKey(s.txs[u], key);
      assert v != t ==> PendingKey(s.txs[v], key);
    }
  }

  lemma RowInsertedKeeps(s: State, t: TxId, settled: Settled)
    requires Inv(s) && t in s.txs && s.txs[t].Collect? && s.txs[t].phase.ShiftLocked?
    requires SettledFrom(s.txs[t].req, s.txs[t].snap, settled)
    requires s.txs[t].req.key.Some? ==>
               ByKey(s.db.payments, s.txs[t].req.key.value).None? && !KeyPending(s, s.txs[t].req.key.value)
    ensures Inv(s.(txs := s.txs[t := s.txs[t].(phase := RowInserted(s.txs[t].phase.shift, settled))]))
  {
    var tx := s.txs[t].(phase := RowInserted(s.txs[t].phase.shift, settled));
    var n := s.(txs := s.txs[t := tx]);
    assert TxInv(s, t, s.txs[t]);
    assert TxInv(n, t, tx);
    AdvanceTxs(s, n, t, tx);
    InsertLocks(s, n, t);
    InsertKeys(s, n, t);
  }

  lemma InsertKeeps(s: State, t: TxId, n: State)
    requires Inv(s) && t in s.txs && s.txs[t].Collect? && StepInsert(s, t, s.txs[t]) == Some(n)
    ensures Inv(n)
  {
    var tx := s.txs[t];
    var outcome := Settle(tx.snap.orders[tx.req.order].total - Paid(tx.snap.payments, tx.req.order), tx.req.tender);
    if outcome.None? {
      FinishKeeps(s, t);
    } else if tx.req.key.Some? && ByKey(s.db.payments, tx.req.key.value).Some? {
      ConflictKeeps(s, t, tx.req);
    } else {
      RowInsertedKeeps(s, t, outcome.value);
    }
  }

  // Committing it

  lemma RecordTxs(s: State, t: TxId, req: Request, shift: Id, settled: Settled)
    requires TxsInv(s) && req.order in s.db.orders && shift in s.db.shifts
    requires req.order in s.orderLocks && s.orderLocks[req.order] == t && shift in s.shiftLocks
             && s.shiftLocks[shift] == t
    ensures TxsInv(Recorded(s, t, req, shift, settled))
  {
    CommittedOlder(s.db, req, shift, settled);
    CommitTxs(s, Recorded(s, t, req, shift, settled), t);
  }

  lemma RecordSuccesses(s: State, t: TxId, req: Request, shift: Id, settled: Settled, remaining: int)
    requires SuccessesSound(s) && req.order in s.db.orders && shift in s.db.shifts
    requires Settle(remaining, req.tender) == Some(settled)
    ensures SuccessesSound(Recorded(s, t, req, shift, settled))
  {
    SuccessesGrow(s, Recorded(s, t, req, shift, settled), Success(req, NewPayment(s.db, req, shift, settled)));
  }

  lemma RecordDb(db: Db, req: Request, shift: Id, settled: Settled)
    requires DbInv(db) && req.order in db.orders && shift in db.shifts && db.shifts[shift].isOpen
    requires 0 < settled.net <= db.orders[req.order].total - Paid(db.payments, req.order)
    requires req.key.Some? ==> ByKey(db.payments, req.key.value).None?
    ensures DbInv(Committed(db, req, shift, settled))
  {
    CommittedNotOver(db, req, shift, settled);
    CommittedReports(db, req, shift, settled);
    CommittedPayments(db, req, shift, settled);
  }

  lemma {:induction false} ByKeySnoc(payments: seq<Payment>, p: Payment, key: string)
    requires ByKey(payments, key).None? && p.key != Some(key)
    ensures ByKey(payments + [p], key).None?
  {
    if payments == [] {
      assert [p][1..] == [];
    } else {
      assert (payments + [p])[1..] == payments[1..] + [p];
      ByKeySnoc(payments[1..], p, key);
    }
  }

  /** Two rows waiting to be committed carry different keys. */
  lemma OtherKey(s: State, t: TxId, u: TxId, key: string)
    requires KeysInv(s) && t in s.txs && u in s.txs && t != u
    requires s.txs[t].Collect? && s.txs[t].phase.RowInserted? && PendingKey(s.txs[u], key)
    ensures s.txs[t].req.key != Some(key)
  {
    assert PendingKey(s.txs[t], key) ==> t == u;
  }

  lemma RecordKeys(s: State, t: TxId, req: Request, shift: Id, settled: Settled)
    requires KeysInv(s) && req.order in s.db.orders && shift in s.db.shifts
    requires t in s.txs && s.txs[t].Collect? && s.txs[t].phase.RowInserted? && s.txs[t].req == req
    ensures KeysInv(Recorded(s, t, req, shift, settled))
  {
    var n := Recorded(s, t, req, shift, settled);
    forall u, key | u in n.txs && PendingKey(n.txs[u], key) ensures ByKey(n.db.payments, key).None? {
      OtherKey(s, t, u, key);
      ByKeySnoc(s.db.payments, NewPayment(s.db, req, shift, settled), key);
    }
    forall u, v, key | u in n.txs && v in n.txs && PendingKey(n.txs[u], key) && PendingKey(n.txs[v], key) ensures u == v
    {
      assert PendingKey(s.txs[u], key) && PendingKey(s.txs[v], key);
    }
  }

  /** The row to be committed was settled against the balance that is true at the commit, under a free key. */
  lemma CommitCollectIs(s: State, t: TxId, tx: Tx)
    requires TxsInv(s) && KeysInv(s) && t in s.txs && tx == s.txs[t] && tx.Collect? && tx.phase.RowInserted?
    ensures tx.req.order in s.db.orders && tx.phase.shift in s.db.shifts && s.db.shifts[tx.phase.shift].isOpen
    ensures tx.req.order in s.orderLocks && s.orderLocks[tx.req.order] == t
    ensures tx.phase.shift in s.shiftLocks && s.shiftLocks[tx.phase.shift] == t
    ensures Settle(s.db.orders[tx.req.order].total - Paid(s.db.payments, tx.req.order), tx.req.tender)
            == Some(tx.phase.settled)
    ensures tx.req.key.Some? ==> ByKey(s.db.payments, tx.req.key.value).None?
  {
    SnapshotIsCurrent(s, t);
    assert TxInv(s, t, s.txs[t]);
    if tx.req.key.Some? {
      assert PendingKey(s.txs[t], tx.req.key.value);
    }
  }

  lemma RecordKeeps(s: State, t: TxId, req: Request, shift: Id, settled: Settled)
    requires Inv(s) && req.order in s.db.orders && shift in s.db.shifts && s.db.shifts[shift].isOpen
    requires req.order in s.orderLocks && s.orderLocks[req.order] == t && shift in s.shiftLocks
             && s.shiftLocks[shift] == t
    requires Settle(s.db.orders[req.order].total - Paid(s.db.payments, req.order), req.tender) == Some(settled)
    requires req.key.Some? ==> ByKey(s.db.payments, req.key.value).None?
    requires t in s.txs && s.txs[t].Collect? && s.txs[t].phase.RowInserted? && s.txs[t].req == req
    ensures Inv(Recorded(s, t, req, shift, settled))
  {
    RecordDb(s.db, req, shift, settled);
    RecordTxs(s, t, req, shift, settled);
    RecordSuccesses(s, t, req, shift, settled, s.db.orders[req.order].total - Paid(s.db.payments, req.order));
    CommitLocks(s, Recorded(s, t, req, shift, settled), t);
    RecordKeys(s, t, req, shift, settled);
  }

  lemma CommitCollectKeeps(s: State, t: TxId, tx: Tx, n: State)
    requires Inv(s) && t in s.txs && tx == s.txs[t] && tx.Collect? && StepCommitCollect(s, t, tx) == Some(n)
    ensures Inv(n)
  {
    CommitCollectIs(s, t, tx);
    RecordKeeps(s, t, tx.req, tx.phase.shift, tx.phase.settled);
  }

  lemma ClosedReports(db: Db, shift: Id, row: ShiftRow)
    requires ReportsExact(db) && shift in db.shifts
    requires !row.isOpen && row.recordedCashSales == Some(CashSales(db.payments, shift))
    ensures ReportsExact(db.(shifts := db.shifts[shift := row]))
  {
  }

  lemma ClosedDb(db: Db, shift: Id, row: ShiftRow)
    requires DbInv(db) && shift in db.shifts && row.revision == db.shifts[shift].revision + 1
    requires !row.isOpen && row.recordedCashSales == Some(CashSales(db.payments, shift))
    ensures DbInv(db.(shifts := db.shifts[shift := row]))
    ensures Older(db, db.(shifts := db.shifts[shift := row]))
  {
    ClosedReports(db, shift, row);
  }

  lemma CommitCloseKeeps(s: State, t: TxId)
    requires Inv(s) && t in s.txs && s.txs[t].Close? && StepCommitClose(s, t, s.txs[t]).Some?
    ensures Inv(StepCommitClose(s, t, s.txs[t]).value)
  {
    var tx := s.txs[t];
    SnapshotIsCurrent(s, t);
    if !tx.snap.shifts[tx.shift].isOpen {
      FinishKeeps(s, t);
    } else {
      var n := StepCommitClose(s, t, tx).value;
      ClosedDb(s.db, tx.shift, n.db.shifts[tx.shift]);
      assert TxInv(s, t, tx);
      CommitTxs(s, n, t);
      CommitLocks(s, n, t);
      SuccessesStay(s, n);
      KeysStay(s, n);
    }
  }

  lemma ReplayedKeeps(s: State, t: TxId, req: Request, payments: seq<Payment>, key: string)
    requires Inv(s) && payments <= s.db.payments && req.key == Some(key) && ByKey(payments, key).Some?
    ensures Inv(Replayed(s, t, req, ByKey(payments, key).value))
  {
    var p := ByKey(payments, key).value;
    ByKeyFinds(payments, key);
    PrefixMember(payments, s.db.payments, p);
    FinishKeeps(s, t);
    if MatchesRecorded(req, p) {
      var f := Finish(s, t);
      var n := f.(successes := f.successes + [Success(req, p)]);
      SuccessesGrow(f, n, Success(req, p));
      forall u | u in n.txs ensures TxInv(n, u, n.txs[u]) {
        assert TxInv(f, u, f.txs[u]);
      }
      KeysStay(f, n);
    }
  }

  lemma ReplayKeeps(s: State, a: Action, n: State)
    requires Inv(s) && Step(s, a) == Some(n) && (a.Replay? || a.ReplayAfterConflict?)
    ensures Inv(n)
  {
    var tx := s.txs[a.t];
    if a.Replay? {
      assert TxInv(s, a.t, s.txs[a.t]);
      ReplayedKeeps(s, a.t, tx.req, tx.snap.payments, tx.req.key.value);
    } else if ByKey(s.db.payments, tx.req.key.value).None? {
      FinishKeeps(s, a.t);
    } else {
      ReplayedKeeps(s, a.t, tx.req, s.db.payments, tx.req.key.value);
    }
  }

  lemma EntryKeeps(s: State, a: Action, n: State)
    requires Inv(s) && Step(s, a) == Some(n) && (a.CreateOrder? || a.OpenShift? || a.BeginCollect? || a.BeginClose?)
    ensures Inv(n)
  {
    match a
    case CreateOrder(order, total) => CreateOrderKeeps(s, order, total);
    case OpenShift(shift, cashier) => OpenShiftKeeps(s, shift, ShiftRow(cashier, true, 0, None));
    case BeginCollect(t, req) => BeginKeeps(s, t, Collect(req, s.db, Started));
    case BeginClose(t, shift) => BeginKeeps(s, t, Close(shift, s.db, false));
  }

  /** Every step keeps the invariant. */
  lemma StepKeeps(s: State, a: Action, n: State)
    requires Inv(s) && Step(s, a) == Some(n)
    ensures Inv(n)
  {
    match a
    case LockOrder(t) => LockOrderKeeps(s, t);
    case LockShift(t, shift) => LockShiftKeeps(s, t, shift);
    case Insert(t) => InsertKeeps(s, t, n);
    case CommitCollect(t) => CommitCollectKeeps(s, t, s.txs[t], n);
    case CommitClose(t) => CommitCloseKeeps(s, t);
    case Abort(t) => FinishKeeps(s, t);
    case Replay(_) => ReplayKeeps(s, a, n);
    case ReplayAfterConflict(_) => ReplayKeeps(s, a, n);
    case _ => EntryKeeps(s, a, n);
  }

  lemma {:induction false} ExecKeeps(s: State, actions: seq<Action>)
    requires Inv(s) && Exec(s, actions).Some?
    ensures Inv(Exec(s, actions).value)
    decreases |actions|
  {
    if actions != [] {
      StepKeeps(s, actions[0], Step(s, actions[0]).value);
      ExecKeeps(Step(s, actions[0]).value, actions[1..]);
    }
  }

  // ------------------------------------------------- what holds of every run

  // ------------------------------------------- the same run as a serial book

  /** A committed collection, as its caller asked for it. */
  datatype Entry = Entry(req: Request, shift: Id)

  /** What a reader of the actions alone would write down: nothing of snapshots, locks or rows. */
  datatype Book = Book(totals: map<Id, int>, cashiers: map<Id, Id>, requests: map<TxId, Request>, shifts: map<TxId, Id>,
                       log: seq<Entry>)

  const NewBook := Book(map[], map[], map[], map[], [])

  function BookStep(b: Book, a: Action): Book {
    match a
    case CreateOrder(order, total) => b.(totals := b.totals[order := total])
    case OpenShift(shift, cashier) => b.(cashiers := b.cashiers[shift := cashier])
    case BeginCollect(t, req) => b.(requests := b.requests[t := req])
    case LockShift(t, shift) => b.(shifts := b.shifts[t := shift])
    case CommitCollect(t) =>
      if t in b.requests && t in b.shifts then b.(log := b.log + [Entry(b.requests[t], b.shifts[t])]) else b
    case _ => b
  }

  function BookOf(b: Book, actions: seq<Action>): Book
    decreases |actions|
  {
    if actions == [] then b else BookOf(BookStep(b, actions[0]), actions[1..])
  }

  function Min(a: int, b: int): int { if a < b then a else b }

  function TotalOf(totals: map<Id, int>, order: Id): int { if order in totals then totals[order] else 0 }

  /** Serially, a tender pays what it can of what the earlier ones left. */
  function Due(totals: map<Id, int>, log: seq<Entry>, e: Entry): int
    decreases |log|, 1
  {
    Min(e.req.tender.gross, TotalOf(totals, e.req.order) - Collected(totals, log, e.req.order))
  }

  /** What a serial reading of the log collects on an order. */
  function Collected(totals: map<Id, int>, log: seq<Entry>, order: Id): int
    decreases |log|, 0
  {
    if log == [] then 0
    else
      var front, e := log[..|log| - 1], log[|log| - 1];
      Collected(totals, front, order) + if e.req.order == order then Due(totals, front, e) else 0
  }

  /** And what it takes in cash on a shift. */
  function CashTaken(totals: map<Id, int>, log: seq<Entry>, shift: Id): int
    decreases |log|
  {
    if log == [] then 0
    else
      var front, e := log[..|log| - 1], log[|log| - 1];
      CashTaken(totals, front, shift) + if e.shift == shift && e.req.tender.cashLike then Due(totals, front, e) else 0
  }

  /** The rows are the log, entry by entry, each with its serial amount. */
  ghost predicate Mirrors(payments: seq<Payment>, b: Book) {
    && |payments| == |b.log|
    && (forall i {:trigger payments[i]} {:trigger b.log[i]} :: 0 <= i < |payments| ==>
          && RowFor(payments[i], b.log[i].req, b.log[i].shift)
          && payments[i].id == i && b.log[i].req.order in b.totals
          && payments[i].net == Due(b.totals, b.log[..i], b.log[i]))
  }

  ghost predicate SumsAgree(payments: seq<Payment>, b: Book) {
    && (forall o {:trigger Paid(payments, o)} :: Paid(payments, o) == Collected(b.totals, b.log, o))
    && (forall x {:trigger CashSales(payments, x)} :: CashSales(payments, x) == CashTaken(b.totals, b.log, x))
  }

  ghost predicate RowsAgree(db: Db, b: Book) {
    && db.orders.Keys == b.totals.Keys && (forall o :: o in db.orders ==> db.orders[o].total == b.totals[o])
    && db.shifts.Keys == b.cashiers.Keys && (forall x :: x in db.shifts ==> db.shifts[x].cashier == b.cashiers[x])
  }

  ghost predicate CallsAgree(txs: map<TxId, Tx>, b: Book) {
    forall t {:trigger CallAgrees(txs[t], t, b)} :: t in txs ==> CallAgrees(txs[t], t, b)
  }

  ghost predicate CallAgrees(tx: Tx, t: TxId, b: Book) {
    tx.Collect? ==>
      && t in b.requests && b.requests[t] == tx.req
      && (PastShift(tx.phase) ==> t in b.shifts && b.shifts[t] == tx.phase.shift)
  }

  /** Every committed request is on a shift of its own cashier. */
  ghost predicate OwnShifts(b: Book) {
    forall i :: 0 <= i < |b.log| ==> b.log[i].shift in b.cashiers && b.cashiers[b.log[i].shift] == b.log[i].req.cashier
  }

  ghost predicate Agrees(s: State, b: Book) {
    && RowsAgree(s.db, b) && CallsAgree(s.txs, b) && Mirrors(s.db.payments, b) && SumsAgree(s.db.payments, b)
    && OwnShifts(b)
  }

  /** A new order changes no serial amount: nothing in the log is on it yet. */
  lemma {:induction false} DueStays(totals: map<Id, int>, order: Id, total: int, log: seq<Entry>, key: Id)
    requires order !in totals && forall i :: 0 <= i < |log| ==> log[i].req.order in totals
    ensures Collected(totals[order := total], log, key) == Collected(totals, log, key)
    ensures CashTaken(totals[order := total], log, key) == CashTaken(totals, log, key)
    decreases |log|
  {
    if log != [] {
      var front, e := log[..|log| - 1], log[|log| - 1];
      DueStays(totals, order, total, front, key);
      DueStays(totals, order, total, front, e.req.order);
    }
  }

  lemma {:induction false} CreatedMirrors(payments: seq<Payment>, b: Book, order: Id, total: int)
    requires order !in b.totals && Mirrors(payments, b) && SumsAgree(payments, b)
    ensures Mirrors(payments, b.(totals := b.totals[order := total]))
    ensures SumsAgree(payments, b.(totals := b.totals[order := total]))
  {
    var c := b.(totals := b.totals[order := total]);
    forall i | 0 <= i < |payments| ensures b.log[i].req.order in b.totals {
      assert RowFor(payments[i], b.log[i].req, b.log[i].shift);
    }
    forall o ensures Paid(payments, o) == Collected(c.totals, c.log, o) {
      DueStays(b.totals, order, total, b.log, o);
    }
    forall x ensures CashSales(payments, x) == CashTaken(c.totals, c.log, x) {
      DueStays(b.totals, order, total, b.log, x);
    }
    forall i | 0 <= i < |payments|
      ensures payments[i].net == Due(c.totals, c.log[..i], c.log[i])
    {
      assert RowFor(payments[i], b.log[i].req, b.log[i].shift);
      DueStays(b.totals, order, total, b.log[..i], b.log[i].req.order);
    }
  }

  lemma {:induction false} SumsGrow(payments: seq<Payment>, p: Payment, b: Book, e: Entry)
    requires SumsAgree(payments, b) && RowFor(p, e.req, e.shift) && p.net == Due(b.totals, b.log, e)
    ensures SumsAgree(payments + [p], b.(log := b.log + [e]))
  {
    var more := b.log + [e];
    assert more[..|more| - 1] == b.log;
    forall o ensures Paid(payments + [p], o) == Collected(b.totals, more, o) {
      PaidSnoc(payments, p, o);
    }
    forall x ensures CashSales(payments + [p], x) == CashTaken(b.totals, more, x) {
      CashSalesSnoc(payments, p, x);
    }
  }

  lemma {:induction false} RowsGrow(payments: seq<Payment>, p: Payment, b: Book, e: Entry)
    requires Mirrors(payments, b) && RowFor(p, e.req, e.shift) && p.net == Due(b.totals, b.log, e)
    requires p.id == |payments| && e.req.order in b.totals
    ensures Mirrors(payments + [p], b.(log := b.log + [e]))
  {
    var more := b.log + [e];
    forall i | 0 <= i < |payments| + 1
      ensures RowFor((payments + [p])[i], more[i].req, more[i].shift) && more[i].req.order in b.totals
      ensures (payments + [p])[i].id == i && (payments + [p])[i].net == Due(b.totals, more[..i], more[i])
    {
      assert more[..i] == if i < |payments| then b.log[..i] else b.log;
      if i < |payments| {
        assert (payments + [p])[i] == payments[i] && more[i] == b.log[i];
      }
    }
  }

  lemma CommitDue(s: State, b: Book, t: TxId, n: State, e: Entry)
    requires Inv(s) && RowsAgree(s.db, b) && SumsAgree(s.db.payments, b) && Step(s, CommitCollect(t)) == Some(n)
    requires e == Entry(s.txs[t].req, s.txs[t].phase.shift)
    ensures n.db.payments == s.db.payments + [n.db.payments[|s.db.payments|]]
    ensures n.db.payments[|s.db.payments|].id == |s.db.payments| && e.req.order in b.totals
    ensures RowFor(n.db.payments[|s.db.payments|], e.req, e.shift)
    ensures n.db.payments[|s.db.payments|].net == Due(b.totals, b.log, e)
    ensures RowsAgree(n.db, b) && e.shift in b.cashiers && b.cashiers[e.shift] == e.req.cashier
  {
    var tx := s.txs[t];
    CommitRow(s, t, n);
    CommitCollectIs(s, t, tx);
    SettleExactly(s.db.orders[tx.req.order].total - Paid(s.db.payments, tx.req.order), tx.req.tender);
  }

  lemma CommitBooked(s: State, b: Book, t: TxId, n: State)
    requires CallsAgree(s.txs, b) && Step(s, CommitCollect(t)) == Some(n)
    ensures BookStep(b, CommitCollect(t)) == b.(log := b.log + [Entry(s.txs[t].req, s.txs[t].phase.shift)])
    ensures CallsAgree(n.txs, BookStep(b, CommitCollect(t)))
  {
    assert CallAgrees(s.txs[t], t, b);
    CarryCalls(s, b, n, BookStep(b, CommitCollect(t)), t);
  }

  lemma CommitAgrees(s: State, b: Book, t: TxId, n: State)
    requires Inv(s) && Agrees(s, b) && Step(s, CommitCollect(t)) == Some(n)
    ensures Agrees(n, BookStep(b, CommitCollect(t)))
  {
    var e := Entry(s.txs[t].req, s.txs[t].phase.shift);
    CommitDue(s, b, t, n, e);
    CommitBooked(s, b, t, n);
    SumsGrow(s.db.payments, n.db.payments[|s.db.payments|], b, e);
    RowsGrow(s.db.payments, n.db.payments[|s.db.payments|], b, e);
  }

  lemma StepAgrees(s: State, b: Book, a: Action, n: State)
    requires Inv(s) && Agrees(s, b) && Step(s, a) == Some(n)
    ensures Agrees(n, BookStep(b, a))
  {
    if a.CommitCollect? {
      CommitAgrees(s, b, a.t, n);
    } else {
      OnlyCollectAppends(s, a);
      RowsStep(s, b, a, n);
      OwnShiftsStep(s, b, a, n);
      CallsStep(s, b, a, n);
      if a.CreateOrder? {
        CreatedMirrors(s.db.payments, b, a.order, a.total);
      }
    }
  }

  lemma RowsStep(s: State, b: Book, a: Action, n: State)
    requires RowsAgree(s.db, b) && Step(s, a) == Some(n) && !a.CommitCollect?
    ensures RowsAgree(n.db, BookStep(b, a))
  {
  }

  lemma OwnShiftsStep(s: State, b: Book, a: Action, n: State)
    requires RowsAgree(s.db, b) && OwnShifts(b) && Step(s, a) == Some(n) && !a.CommitCollect?
    ensures OwnShifts(BookStep(b, a))
  {
  }

  /** One call moved, or none: the book still knows every other one. */
  lemma CarryCalls(s: State, b: Book, n: State, c: Book, t: TxId)
    requires CallsAgree(s.txs, b)
    requires forall u :: u in n.txs && u != t ==> u in s.txs && n.txs[u] == s.txs[u]
    requires forall u :: u != t && u in b.requests ==> u in c.requests && c.requests[u] == b.requests[u]
    requires forall u :: u != t && u in b.shifts ==> u in c.shifts && c.shifts[u] == b.shifts[u]
    requires t in n.txs ==> CallAgrees(n.txs[t], t, c)
    ensures CallsAgree(n.txs, c)
  {
    forall u | u in n.txs ensures CallAgrees(n.txs[u], u, c) {
      if u != t {
        assert CallAgrees(s.txs[u], u, b);
      }
    }
  }

  lemma SameCalls(txs: map<TxId, Tx>, b: Book, c: Book)
    requires CallsAgree(txs, b) && c.requests == b.requests && c.shifts == b.shifts
    ensures CallsAgree(txs, c)
  {
    forall u | u in txs ensures CallAgrees(txs[u], u, c) {
      assert CallAgrees(txs[u], u, b);
    }
  }

  lemma CallsStep(s: State, b: Book, a: Action, n: State)
    requires CallsAgree(s.txs, b) && Step(s, a) == Some(n) && !a.CommitCollect?
    ensures CallsAgree(n.txs, BookStep(b, a))
  {
    if a.CreateOrder? || a.OpenShift? {
      SameCalls(s.txs, b, BookStep(b, a));
    } else if a.BeginCollect? || a.BeginClose? {
      CarryCalls(s, b, n, BookStep(b, a), a.t);
    } else {
      assert CallAgrees(s.txs[a.t], a.t, b);
      CallMoves(s, b, a, n);
      CarryCalls(s, b, n, BookStep(b, a), a.t);
    }
  }

  lemma CallMoves(s: State, b: Book, a: Action, n: State)
    requires Step(s, a) == Some(n) && !a.CommitCollect?
    requires !a.CreateOrder? && !a.OpenShift? && !a.BeginCollect? && !a.BeginClose?
    requires CallAgrees(s.txs[a.t], a.t, b)
    ensures forall u :: u in n.txs && u != a.t ==> u in s.txs && n.txs[u] == s.txs[u]
    ensures a.t in n.txs ==> CallAgrees(n.txs[a.t], a.t, BookStep(b, a))
  {
  }

  lemma {:induction false} ExecAgrees(s: State, b: Book, actions: seq<Action>)
    requires Inv(s) && Agrees(s, b) && Exec(s, actions).Some?
    ensures Agrees(Exec(s, actions).value, BookOf(b, actions))
    decreases |actions|
  {
    if actions != [] {
      var n := Step(s, actions[0]).value;
      StepKeeps(s, actions[0], n);
      StepAgrees(s, b, actions[0], n);
      ExecAgrees(n, BookStep(b, actions[0]), actions[1..]);
    }
  }

  lemma RunAgrees(actions: seq<Action>)
    requires Exec(Empty, actions).Some?
    ensures Inv(Exec(Empty, actions).value) && Agrees(Exec(Empty, actions).value, BookOf(NewBook, actions))
  {
    ExecKeeps(Empty, actions);
    ExecAgrees(Empty, NewBook, actions);
  }

  /**
   * Every interleaving amounts to its commits taken one after the other: the payment rows are the
   * committed requests in that order, each on the shift its call locked, which belongs to its cashier,
   * and each pays what its tender can of the order's total less what the earlier ones paid.
   */
  lemma RunIsSerial(actions: seq<Action>, s: State, b: Book, i: nat)
    requires Exec(Empty, actions) == Some(s) && b == BookOf(NewBook, actions) && i < |s.db.payments|
    ensures |s.db.payments| == |b.log|
    ensures var p, e := s.db.payments[i], b.log[i];
            && p.id == i && p.order == e.req.order && p.methodId == e.req.methodId && p.tendered == e.req.tendered
            && p.key == e.req.key && p.cash == e.req.tender.cashLike && p.shift == e.shift
            && p.order in b.totals && p.shift in b.cashiers && b.cashiers[p.shift] == e.req.cashier
            && p.net == Min(e.req.tender.gross, b.totals[p.order] - Collected(b.totals, b.log[..i], p.order))
            && p.net > 0 && p.net + p.change == e.req.tender.gross
            && p.change >= 0 && (p.change > 0 ==> e.req.tender.cashLike)
  {
    RunRows(actions, s, b);
    RowMirrors(s.db.payments, b, i);
  }

  lemma RunRows(actions: seq<Action>, s: State, b: Book)
    requires Exec(Empty, actions) == Some(s) && b == BookOf(NewBook, actions)
    ensures Mirrors(s.db.payments, b) && OwnShifts(b) && forall p :: p in s.db.payments ==> p.net > 0
  {
    RunAgrees(actions);
  }

  lemma RowMirrors(payments: seq<Payment>, b: Book, i: nat)
    requires Mirrors(payments, b) && OwnShifts(b) && (forall p :: p in payments ==> p.net > 0) && i < |payments|
    ensures var p, e := payments[i], b.log[i];
            && RowFor(p, e.req, e.shift) && p.id == i && p.order in b.totals && p.net > 0
            && p.shift in b.cashiers && b.cashiers[p.shift] == e.req.cashier
            && p.net == Min(e.req.tender.gross, b.totals[p.order] - Collected(b.totals, b.log[..i], p.order))
  {
    assert RowFor(payments[i], b.log[i].req, b.log[i].shift) && payments[i] in payments;
  }

  /** No interleaving collects more than an order's total, counted by the rows or by the committed requests. */
  lemma NoOverCollection(actions: seq<Action>, order: Id)
    requires Exec(Empty, actions).Some? && order in Exec(Empty, actions).value.db.orders
    ensures var db, b := Exec(Empty, actions).value.db, BookOf(NewBook, actions);
            && order in b.totals && Paid(db.payments, order) == Collected(b.totals, b.log, order)
            && (Paid(db.payments, order) == 0 || 0 < Paid(db.payments, order) <= b.totals[order])
  {
    RunAgrees(actions);
  }

  /**
   * Every closed shift reports exactly the cash committed on it, then and ever after: the net amounts
   * of the cash requests whose calls took that shift.
   */
  lemma ZReportExact(actions: seq<Action>, shift: Id)
    requires Exec(Empty, actions).Some? && shift in Exec(Empty, actions).value.db.shifts
    requires !Exec(Empty, actions).value.db.shifts[shift].isOpen
    ensures var db, b := Exec(Empty, actions).value.db, BookOf(NewBook, actions);
            && db.shifts[shift].recordedCashSales == Some(CashTaken(b.totals, b.log, shift))
            && CashTaken(b.totals, b.log, shift) == CashSales(db.payments, shift)
  {
    RunAgrees(actions);
  }

  /** The row a call leaves: the call's own data, the shift it was taken on, and the tender split in two. */
  predicate RowFor(p: Payment, req: Request, shift: Id) {
    && p.order == req.order && p.methodId == req.methodId && p.tendered == req.tendered && p.key == req.key
    && p.cash == req.tender.cashLike && p.shift == shift
    && p.net + p.change == req.tender.gross && p.change >= 0 && (p.change > 0 ==> req.tender.cashLike)
  }

  lemma CommitRow(s: State, t: TxId, n: State)
    requires TxsInv(s) && KeysInv(s) && Step(s, CommitCollect(t)) == Some(n)
    ensures var req, shift := s.txs[t].req, s.txs[t].phase.shift;
            && s.txs[t].phase.RowInserted?
            && |n.db.payments| == |s.db.payments| + 1 && s.db.payments <= n.db.payments
            && n.successes == s.successes + [Success(req, n.db.payments[|s.db.payments|])]
            && RowFor(n.db.payments[|s.db.payments|], req, shift)
            && shift in s.db.shifts && s.db.shifts[shift].isOpen && s.db.shifts[shift].cashier == req.cashier
  {
    var tx := s.txs[t];
    CommitCollectIs(s, t, tx);
    assert TxInv(s, t, s.txs[t]);
    SettleExactly(s.db.orders[tx.req.order].total - Paid(s.db.payments, tx.req.order), tx.req.tender);
  }

  /**
   * Only a commit of a collection appends a payment, one row with the data of its call, on a shift that
   * is open at that moment and belongs to the calling cashier; and the call answers that row.
   */
  lemma PaymentsCommitOnOpenShifts(actions: seq<Action>, a: Action)
    requires Exec(Empty, actions).Some? && Step(Exec(Empty, actions).value, a).Some?
    ensures var s, n := Exec(Empty, actions).value, Step(Exec(Empty, actions).value, a).value;
            if a.CommitCollect? then
              var req, shift, row := s.txs[a.t].req, s.txs[a.t].phase.shift, n.db.payments[|n.db.payments| - 1];
              && n.db.payments == s.db.payments + [row] && n.successes == s.successes + [Success(req, row)]
              && row.order == req.order && row.methodId == req.methodId && row.tendered == req.tendered
              && row.key == req.key && row.cash == req.tender.cashLike && row.net + row.change == req.tender.gross
              && row.shift == shift
              && shift in s.db.shifts && s.db.shifts[shift].isOpen && s.db.shifts[shift].cashier == req.cashier
            else n.db.payments == s.db.payments
  {
    var s := Exec(Empty, actions).value;
    ExecKeeps(Empty, actions);
    if a.CommitCollect? {
      CommitRow(s, a.t, Step(s, a).value);
    } else {
      OnlyCollectAppends(s, a);
    }
  }

  lemma OnlyCollectAppends(s: State, a: Action)
    requires !a.CommitCollect? && Step(s, a).Some?
    ensures Step(s, a).value.db.payments == s.db.payments
  {
  }

  /**
   * One key, one row; every call that succeeded with the key returned that row, and its order,
   * method, tender and named change are the recorded ones.
   */
  lemma KeyIdentifiesOnePayment(actions: seq<Action>, key: string)
    requires Exec(Empty, actions).Some?
    ensures var s := Exec(Empty, actions).value;
            && (forall p, q :: p in s.db.payments && q in s.db.payments && p.key == Some(key) == q.key ==>
                p == q && p.id == q.id)
            && (forall x, y :: x in s.successes && y in s.successes && x.req.key == Some(key) == y.req.key ==>
                x.payment == y.payment)
            && (forall x :: x in s.successes && x.req.key == Some(key) ==>
                  && x.payment in s.db.payments && x.payment.key == Some(key)
                  && x.payment.order == x.req.order && x.payment.methodId == x.req.methodId
                  && x.payment.tendered == x.req.tendered
                  && (x.req.tender.explicitChange.Some? ==> x.payment.change == x.req.tender.explicitChange.value))
  {
    var s := Exec(Empty, actions).value;
    ExecKeeps(Empty, actions);
    forall p, q | p in s.db.payments && q in s.db.payments && p.key == Some(key) == q.key ensures p == q {
      OneRow(s.db, p, q);
    }
    forall x | x in s.successes ensures SuccessSound(s.db, x) {
    }
  }

  lemma OneRow(db: Db, p: Payment, q: Payment)
    requires PaymentsSound(db) && p in db.payments && q in db.payments && p.key.Some? && p.key == q.key
    ensures p == q
  {
    var i :| 0 <= i < |db.payments| && db.payments[i] == p;
    var j :| 0 <= j < |db.payments| && db.payments[j] == q;
  }

  predicate Carries(tx: Tx, key: string) { !tx.Close? && tx.req.key == Some(key) }

  /** The step is one of a call that carries the key. */
  predicate ActsFor(s: State, a: Action, key: string) {
    match a
    case CreateOrder(_, _) => false
    case OpenShift(_, _) => false
    case BeginClose(_, _) => false
    case BeginCollect(_, req) => req.key == Some(key)
    case _ => a.t in s.txs && Carries(s.txs[a.t], key)
  }

  /** The answers after a step: as before, or with one more, which is the recorded row. */
  ghost predicate AnswersWith(s: State, n: State, p: Payment) {
    n.successes == s.successes
    || exists x :: && n.successes == s.successes + [x] && x.payment == p
                   && x.req.order == p.order && x.req.methodId == p.methodId && x.req.tendered == p.tendered
                   && (x.req.tender.explicitChange.Some? ==> x.req.tender.explicitChange.value == p.change)
  }

  /** A pending key is free, so a taken key has no row waiting to be committed. */
  lemma TakenNotPending(s: State, t: TxId, p: Payment, key: string)
    requires KeysInv(s) && p in s.db.payments && p.key == Some(key) && t in s.txs
    ensures !PendingKey(s.txs[t], key)
  {
    ByKeyFinds(s.db.payments, key);
  }

  lemma ReplayAnswers(s: State, t: TxId, req: Request, payments: seq<Payment>, p: Payment, key: string)
    requires PaymentsSound(s.db) && payments <= s.db.payments && p in s.db.payments && p.key == Some(key)
    requires ByKey(payments, key).Some?
    ensures Replayed(s, t, req, ByKey(payments, key).value).db == s.db
    ensures AnswersWith(s, Replayed(s, t, req, ByKey(payments, key).value), p)
  {
    var q := ByKey(payments, key).value;
    ByKeyFinds(payments, key);
    PrefixMember(payments, s.db.payments, q);
    OneRow(s.db, p, q);
    var n := Replayed(s, t, req, q);
    if MatchesRecorded(req, q) {
      assert n.successes == s.successes + [Success(req, q)];
    }
  }

  /** Neither beginning a call nor locking, inserting or aborting under a taken key writes or answers. */
  lemma QuietUnderTakenKey(s: State, a: Action, n: State, key: string)
    requires Step(s, a) == Some(n) && ActsFor(s, a, key)
    requires !a.Replay? && !a.ReplayAfterConflict? && !a.CommitCollect?
    ensures n.db == s.db && n.successes == s.successes
  {
  }

  lemma TakenKeyStep(s: State, a: Action, n: State, p: Payment, key: string)
    requires Inv(s) && Step(s, a) == Some(n) && ActsFor(s, a, key)
    requires p in s.db.payments && p.key == Some(key)
    ensures n.db == s.db && AnswersWith(s, n, p)
  {
    match a
    case Replay(t) =>
      assert TxInv(s, t, s.txs[t]);
      ReplayAnswers(s, t, s.txs[t].req, s.txs[t].snap.payments, p, key);
    case ReplayAfterConflict(t) =>
      ByKeyFinds(s.db.payments, key);
      ReplayAnswers(s, t, s.txs[t].req, s.db.payments, p, key);
    case CommitCollect(t) => TakenNotPending(s, t, p, key);
    case _ => QuietUnderTakenKey(s, a, n, key);
  }

  /**
   * Once a row carries a key, in every reachable state and for every call with that key: no step of
   * the call changes the committed database, and all it can answer is that row.
   */
  lemma TakenKeyOnlyReplays(actions: seq<Action>, a: Action, p: Payment, key: string)
    requires Exec(Empty, actions).Some? && Step(Exec(Empty, actions).value, a).Some?
    requires p in Exec(Empty, actions).value.db.payments && p.key == Some(key)
    requires ActsFor(Exec(Empty, actions).value, a, key)
    ensures Step(Exec(Empty, actions).value, a).value.db == Exec(Empty, actions).value.db
    ensures AnswersWith(Exec(Empty, actions).value, Step(Exec(Empty, actions).value, a).value, p)
  {
    var s := Exec(Empty, actions).value;
    ExecKeeps(Empty, actions);
    TakenKeyStep(s, a, Step(s, a).value, p, key);
  }

  ghost predicate OneOpenShift(db: Db) {
    forall x, y ::
      && x in db.shifts && y in db.shifts && db.shifts[x].isOpen && db.shifts[y].isOpen
      && db.shifts[x].cashier == db.shifts[y].cashier
      ==> x == y
  }

  lemma StepOneOpenShift(s: State, a: Action, n: State)
    requires OneOpenShift(s.db) && Step(s, a) == Some(n)
    ensures OneOpenShift(n.db)
  {
  }

  lemma {:induction false} ExecOneOpenShift(s: State, actions: seq<Action>)
    requires OneOpenShift(s.db) && Exec(s, actions).Some?
    ensures OneOpenShift(Exec(s, actions).value.db)
    decreases |actions|
  {
    if actions != [] {
      StepOneOpenShift(s, actions[0], Step(s, actions[0]).value);
      ExecOneOpenShift(Step(s, actions[0]).value, actions[1..]);
    }
  }

  /** No interleaving leaves a cashier with two open shifts, so the shift a payment lands on is determined. */
  lemma OneOpenShiftPerCashier(actions: seq<Action>, x: Id, y: Id)
    requires Exec(Empty, actions).Some?
    ensures var shifts := Exec(Empty, actions).value.db.shifts;
            x in shifts && y in shifts && shifts[x].isOpen && shifts[y].isOpen && shifts[x].cashier == shifts[y].cashier
            ==> x == y
  {
    ExecOneOpenShift(Empty, actions);
  }

  // ------------------------------------------------------ calls left to themselves

  function CollectRun(t: TxId, req: Request, shift: Id): seq<Action> {
    [BeginCollect(t, req)] + ([LockOrder(t)] + ([LockShift(t, shift)] + ([Insert(t)] + ([CommitCollect(t)] + []))))
  }

  lemma ExecCons(s: State, a: Action, rest: seq<Action>)
    ensures Exec(s, [a] + rest) == match Step(s, a) case None => None case Some(n) => Exec(n, rest)
  {
    assert ([a] + rest)[1..] == rest;
  }

  /** Nobody holds what the call needs. */
  ghost predicate Uncontended(s: State, req: Request, shift: Id) {
    req.order !in s.orderLocks && shift !in s.shiftLocks && (req.key.Some? ==> !KeyPending(s, req.key.value))
  }

  /** What a collection needs of the committed database. */
  predicate Collectable(db: Db, req: Request, shift: Id) {
    && req.order in db.orders
    && shift in db.shifts && db.shifts[shift].isOpen && db.shifts[shift].cashier == req.cashier
    && (req.key.Some? ==> ByKey(db.payments, req.key.value).None?)
    && Settle(db.orders[req.order].total - Paid(db.payments, req.order), req.tender).Some?
  }

  lemma InsertCommits(s: State, t: TxId, req: Request, shift: Id)
    requires t in s.txs && s.txs[t] == Collect(req, s.db, ShiftLocked(shift))
    requires req.order in s.db.orders && shift in s.db.shifts && (req.key.Some? ==> !KeyPending(s, req.key.value))
    requires req.key.Some? ==> ByKey(s.db.payments, req.key.value).None?
    ensures Exec(s, [Insert(t)] + ([CommitCollect(t)] + [])).Some? <==>
              Settle(s.db.orders[req.order].total - Paid(s.db.payments, req.order), req.tender).Some?
  {
    ExecCons(s, Insert(t), [CommitCollect(t)] + []);
    ExecCons(StepInsert(s, t, s.txs[t]).value, CommitCollect(t), []);
  }

  lemma LockCommits(s: State, t: TxId, req: Request, shift: Id)
    requires t in s.txs && s.txs[t] == Collect(req, s.db, OrderLocked) && req.order in s.db.orders
    requires shift !in s.shiftLocks && (req.key.Some? ==> !KeyPending(s, req.key.value))
    ensures Exec(s, [LockShift(t, shift)] + ([Insert(t)] + ([CommitCollect(t)] + []))).Some? <==>
              Collectable(s.db, req, shift)
  {
    ExecCons(s, LockShift(t, shift), [Insert(t)] + ([CommitCollect(t)] + []));
    var open := shift in s.db.shifts && s.db.shifts[shift].isOpen && s.db.shifts[shift].cashier == req.cashier;
    if open && (req.key.Some? ==> ByKey(s.db.payments, req.key.value).None?) {
      var tx := Collect(req, s.db, ShiftLocked(shift));
      var n := s.(txs := s.txs[t := tx], shiftLocks := s.shiftLocks[shift := t]);
      NotPendingStill(s, n, t, req);
      InsertCommits(n, t, req, shift);
    }
  }

  lemma NotPendingStill(s: State, n: State, t: TxId, req: Request)
    requires forall u :: u in n.txs && u != t ==> u in s.txs && n.txs[u] == s.txs[u]
    requires t in n.txs ==> !(n.txs[t].Collect? && n.txs[t].phase.RowInserted?)
    requires req.key.Some? ==> !KeyPending(s, req.key.value)
    ensures req.key.Some? ==> !KeyPending(n, req.key.value)
  {
  }

  /**
   * Left to itself, a collection commits on a shift exactly when its order exists, the shift is the
   * cashier's own and open, its key is free, and the tender settles against the balance.
   */
  lemma CollectSucceedsExactlyWhen(s: State, t: TxId, req: Request, shift: Id)
    requires t !in s.txs && Uncontended(s, req, shift)
    ensures Exec(s, CollectRun(t, req, shift)).Some? <==> Collectable(s.db, req, shift)
  {
    var rest := [LockShift(t, shift)] + ([Insert(t)] + ([CommitCollect(t)] + []));
    var s1 := s.(txs := s.txs[t := Collect(req, s.db, Started)]);
    ExecCons(s, BeginCollect(t, req), [LockOrder(t)] + rest);
    ExecCons(s1, LockOrder(t), rest);
    if req.order in s.db.orders {
      var s2 := s1.(txs := s1.txs[t := Collect(req, s.db, OrderLocked)], orderLocks := s.orderLocks[req.order := t]);
      NotPendingStill(s, s2, t, req);
      LockCommits(s2, t, req, shift);
    } else {
      ExecCons(Finish(s1, t), LockShift(t, shift), [Insert(t)] + ([CommitCollect(t)] + []));
    }
  }

  /** A call whose snapshot shows its key never gets as far as a shift: all it can do is replay or give up. */
  lemma TakenKeyStopsEarly(s: State, t: TxId, shift: Id)
    requires t in s.txs && s.txs[t].Collect? && s.txs[t].req.key.Some?
    requires exists p :: p in s.txs[t].snap.payments && p.key == s.txs[t].req.key
    ensures Step(s, LockShift(t, shift)).None?
  {
    ByKeyFinds(s.txs[t].snap.payments, s.txs[t].req.key.value);
  }

  /** Left to itself, a close ends with the shift closed exactly when the shift exists. */
  lemma CloseSucceeds(s: State, t: TxId, shift: Id)
    requires t !in s.txs && shift !in s.shiftLocks
    ensures var run := Exec(s, [BeginClose(t, shift)] + ([LockShift(t, shift)] + ([CommitClose(t)] + [])));
            && (run.Some? <==> shift in s.db.shifts)
            && (run.Some? ==>
                  && shift in run.value.db.shifts && !run.value.db.shifts[shift].isOpen
                  && run.value.db.payments == s.db.payments && run.value.db.orders == s.db.orders
                  && (forall x :: x in s.db.shifts && x != shift ==>
                        x in run.value.db.shifts && run.value.db.shifts[x] == s.db.shifts[x]))
  {
    var s1 := s.(txs := s.txs[t := Close(shift, s.db, false)]);
    ExecCons(s, BeginClose(t, shift), [LockShift(t, shift)] + ([CommitClose(t)] + []));
    ExecCons(s1, LockShift(t, shift), [CommitClose(t)] + []);
    if shift in s.db.shifts {
      var s2 := s1.(txs := s1.txs[t := Close(shift, s.db, true)], shiftLocks := s.shiftLocks[shift := t]);
      ExecCons(s2, CommitClose(t), []);
    } else {
      ExecCons(Finish(s1, t), CommitClose(t), []);
    }
  }

  lemma KeyFinds(db: Db, p: Payment, key: string)
    requires PaymentsSound(db) && p in db.payments && p.key == Some(key)
    ensures ByKey(db.payments, key) == Some(p)
  {
    ByKeyFinds(db.payments, key);
    OneRow(db, p, ByKey(db.payments, key).value);
  }

  lemma RetrySteps(s: State, t: TxId, req: Request, s2: State)
    requires t !in s.txs && req.order in s.db.orders && req.order !in s.orderLocks
    requires s2 == s.(txs := s.txs[t := Collect(req, s.db, OrderLocked)], orderLocks := s.orderLocks[req.order := t])
    ensures Exec(s, [BeginCollect(t, req)] + ([LockOrder(t)] + ([Replay(t)] + []))) == Step(s2, Replay(t))
  {
    var s1 := s.(txs := s.txs[t := Collect(req, s.db, Started)]);
    assert s1.txs[t := Collect(req, s.db, OrderLocked)] == s2.txs;
    ExecCons(s, BeginCollect(t, req), [LockOrder(t)] + ([Replay(t)] + []));
    ExecCons(s1, LockOrder(t), [Replay(t)] + []);
    ExecCons(s2, Replay(t), []);
  }

  /** Left to itself, a call under a taken key answers the recorded row if it matches it, and nothing else. */
  lemma RetryAnswers(s: State, t: TxId, req: Request, p: Payment)
    requires PaymentsSound(s.db) && t !in s.txs && req.order in s.db.orders && req.order !in s.orderLocks
    requires p in s.db.payments && p.key.Some? && req.key == p.key
    ensures var run := Exec(s, [BeginCollect(t, req)] + ([LockOrder(t)] + ([Replay(t)] + [])));
            && run.Some? && run.value.db == s.db
            && run.value.successes == s.successes +
                 if p.order == req.order && p.methodId == req.methodId && p.tendered == req.tendered
                    && (req.tender.explicitChange.Some? ==> req.tender.explicitChange.value == p.change)
                 then [Success(req, p)] else []
  {
    var s2 := s.(txs := s.txs[t := Collect(req, s.db, OrderLocked)], orderLocks := s.orderLocks[req.order := t]);
    RetrySteps(s, t, req, s2);
    KeyFinds(s.db, p, req.key.value);
  }

  // -------------------------------------------------------- no waiting cycle

  /** The transaction needs a row lock that another one holds, or a key that another one has inserted. */
  predicate WaitsFor(s: State, t: TxId, u: TxId) {
    && t in s.txs && u in s.txs
    && match s.txs[t]
       case Collect(req, snap, Started) => req.order in s.orderLocks && s.orderLocks[req.order] == u
       case Collect(req, snap, OrderLocked) => exists x :: x in s.shiftLocks && s.shiftLocks[x] == u
       case Collect(req, snap, ShiftLocked(_)) => req.key.Some? && PendingKey(s.txs[u], req.key.value)
       case Close(shift, snap, false) => shift in s.shiftLocks && s.shiftLocks[shift] == u
       case _ => false
  }

  /** Locks are taken in one order: orders, then shifts, then the key of the inserted row. */
  function Rank(tx: Tx): nat {
    match tx
    case Collect(_, _, Started) => 0
    case Collect(_, _, OrderLocked) => 1
    case Collect(_, _, ShiftLocked(_)) => 2
    case Collect(_, _, RowInserted(_, _)) => 3
    case Close(_, _, locked) => if locked then 2 else 1
    case Conflicted(_) => 0
  }

  lemma {:induction false} WaitingRaisesRank(s: State, path: seq<TxId>)
    requires LockOwners(s) && |path| >= 2
    requires forall i :: 0 <= i < |path| - 1 ==> WaitsFor(s, path[i], path[i + 1])
    ensures path[0] in s.txs && path[|path| - 1] in s.txs
    ensures Rank(s.txs[path[0]]) < Rank(s.txs[path[|path| - 1]])
    decreases |path|
  {
    assert WaitsFor(s, path[0], path[1]);
    if |path| > 2 {
      WaitingRaisesRank(s, path[1..]);
    }
  }

  /** In no reachable state does a chain of waiting transactions come back to its start. */
  lemma NoDeadlock(actions: seq<Action>, path: seq<TxId>)
    requires Exec(Empty, actions).Some? && |path| >= 2
    requires forall i :: 0 <= i < |path| - 1 ==> WaitsFor(Exec(Empty, actions).value, path[i], path[i + 1])
    ensures path[0] != path[|path| - 1]
  {
    ExecKeeps(Empty, actions);
    WaitingRaisesRank(Exec(Empty, actions).value, path);
  }
}
