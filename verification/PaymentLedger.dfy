/** Foreign cash: one exact product, one banker's rounding. */
module Conversion {
  import opened Outcome
  import opened Rounding
  import opened DecimalText

  const MAX_MINOR_UNITS := 1_000_000_000_000_000_000
  const MAX_RATE_SCALE := 8

  datatype Rate = Rate(coefficient: nat, scale: nat)

  function ParseRateNumeric(text: string): Result<Rate> {
    match MatchCanonical(text)
    case NoMatch => Err(Validation)
    case Matched(integerPart, fractionPart) =>
      if |fractionPart| > MAX_RATE_SCALE || !AllDigits(integerPart + fractionPart) then Err(Validation)
      else if DigitsValue(integerPart + fractionPart) <= 0 then Err(Validation)
      else Ok(Rate(DigitsValue(integerPart + fractionPart), |fractionPart|))
  }

  predicate InMoneyRange(amount: int) { -MAX_MINOR_UNITS <= amount <= MAX_MINOR_UNITS }

  /** The amount in target minor units; the cap holds before and after. */
  function ConvertMoneyAtRate(amount: int, rateText: string, targetDigits: int, sourceDigits: int): Result<int> {
    if !InMoneyRange(amount) || !(0 <= sourceDigits <= 4) || !(0 <= targetDigits <= 4) then Err(Validation)
    else match ParseRateNumeric(rateText)
      case Err(e) => Err(e)
      case Ok(rate) =>
        match DivideRoundHalfToEven(amount * rate.coefficient * Pow10(targetDigits),
                                    Pow10(sourceDigits) * Pow10(rate.scale))
        case Err(e) => Err(e)
        case Ok(q) => if InMoneyRange(q) then Ok(q) else Err(Validation)
  }

  /** A rate is a positive decimal with at most eight decimals, read exactly. */
  lemma RateExactlyWhen(text: string, whole: string, fraction: string)
    requires IsDecimal(text, whole, fraction)
    ensures ParseRateNumeric(text) ==
            if |fraction| <= 8 && DigitsValue(whole + fraction) > 0 then
              Ok(Rate(DigitsValue(whole + fraction), |fraction|))
            else Err(Validation)
  {
    MatchExactlyWhen(text, whole, fraction);
  }

  lemma RateOnlyDecimals(text: string)
    ensures ParseRateNumeric(text).Ok? ==> exists whole, fraction :: IsDecimal(text, whole, fraction)
  {
    if ParseRateNumeric(text).Ok? {
      MatchedIsDecimal(text);
    }
  }

  /**
   * A conversion succeeds exactly when the amount is in range, both scales are 0 to 4, the rate parses
   * and a nearest target amount is in range; it is then that amount, the even one on a tie.
   */
  lemma ConversionIsNearest(amount: int, rateText: string, targetDigits: int, sourceDigits: int, v: int)
    ensures ConvertMoneyAtRate(amount, rateText, targetDigits, sourceDigits) == Ok(v) <==>
            && Abs(amount) <= 1_000_000_000_000_000_000 && Abs(v) <= 1_000_000_000_000_000_000
            && 0 <= sourceDigits <= 4 && 0 <= targetDigits <= 4 && ParseRateNumeric(rateText).Ok?
            && var rate := ParseRateNumeric(rateText).value;
               IsNearestEven(amount * rate.coefficient * Pow10(targetDigits), Pow10(sourceDigits) * Pow10(rate.scale),
                             v)
  {
    if 0 <= sourceDigits <= 4 && 0 <= targetDigits <= 4 && ParseRateNumeric(rateText).Ok? {
      var rate := ParseRateNumeric(rateText).value;
      var n, d := amount * rate.coefficient * Pow10(targetDigits), Pow10(sourceDigits) * Pow10(rate.scale);
      HalfToEvenIsNearest(n, d);
      if IsNearestEven(n, d, v) {
        NearestEvenUnique(n, d, v, DivideRoundHalfToEven(n, d).value);
      }
    }
  }
}

/** Collecting, voiding and refunding on one order whose lines and discounts stand still. */
module PaymentLedger {
  import opened Outcome
  import opened Sums
  import opened Rounding
  import opened DecimalText
  import opened Settlement
  import opened Conversion

  datatype MethodKind = Cash | ForeignCash(fixedExchangeRate: Option<string>, digits: Option<nat>) | NonCash

  datatype PaymentMethod = PaymentMethod(kind: MethodKind, usableHere: bool, clearingPurpose: string)

  datatype PaymentStatus = Completed | VoidedPayment | RefundedPayment

  /** A payment as the store returns it: amounts are decimal text. */
  datatype Payment = Payment(amountInBaseCurrency: string, changeGivenAmount: Option<string>, status: PaymentStatus)

  datatype OrderStatus = Open | Paid | Refunded | RefundPending | Voided

  datatype EntrySource = OfPayment | OfReversal

  datatype JournalLine = JournalLine(account: string, debit: int, credit: int)

  datatype JournalEntry = JournalEntry(source: EntrySource, payment: nat, lines: seq<JournalLine>)

  /** Payments are identified by their position. */
  datatype Ledger = Ledger(payments: seq<Payment>, status: OrderStatus, journal: seq<JournalEntry>)

  /** The order's total in minor units of its base currency, and that currency's digits. */
  datatype Order = Order(total: int, digits: nat)

  /** Active accounts by purpose. */
  type Accounts = map<string, seq<string>>

  datatype Request = Request(
    payMethod: PaymentMethod, amountText: string, explicitChange: Option<int>, shiftOpen: bool, accounts: Accounts)

  const SALES_REVENUE := "sales_revenue"

  // --------------------------------------------------------------- the figures

  function Reread(text: string, digits: nat): int {
    match DecimalTextToMinor(text, digits)
    case Ok(v) => v
    case Err(_) => 0
  }

  function NetOf(p: Payment, digits: nat): int { Reread(p.amountInBaseCurrency, digits) }

  function ChangeOf(p: Payment, digits: nat): int {
    if p.changeGivenAmount.None? then 0 else Reread(p.changeGivenAmount.value, digits)
  }

  function CompletedPart(p: Payment, digits: nat): int { if p.status.Completed? then NetOf(p, digits) else 0 }

  function CompletedTotal(payments: seq<Payment>, digits: nat): int {
    SumBy(payments, (p: Payment) => CompletedPart(p, digits))
  }

  function Remaining(order: Order, l: Ledger): int { order.total - CompletedTotal(l.payments, order.digits) }

  function NextOrderPaymentStatus(remaining: int, payments: seq<Payment>): OrderStatus {
    if remaining <= 0 then Paid
    else if payments != [] && forall p :: p in payments ==> p.status.RefundedPayment? then Refunded
    else Open
  }

  predicate CashLike(m: PaymentMethod) { m.kind.Cash? || m.kind.ForeignCash? }

  /** The tender in base minor units, parsed at the scale of the payment currency. */
  function GrossOf(m: PaymentMethod, amountText: string, baseDigits: nat): Result<int> {
    match m.kind
    case ForeignCash(rate, digits) =>
      if rate.None? || digits.None? then Err(Validation)
      else (match NonNegativeDecimalTextToMinor(amountText, digits.value)
            case Err(e) => Err(e)
            case Ok(tendered) => ConvertMoneyAtRate(tendered, rate.value, baseDigits, digits.value))
    case _ => NonNegativeDecimalTextToMinor(amountText, baseDigits)
  }

  // --------------------------------------------------------------- the journal

  function Posting(payment: nat, debitAccount: string, creditAccount: string, amount: int): JournalEntry {
    JournalEntry(OfPayment, payment, [JournalLine(debitAccount, amount, 0), JournalLine(creditAccount, 0, amount)])
  }

  function Swapped(line: JournalLine): JournalLine { JournalLine(line.account, line.credit, line.debit) }

  function Reversal(e: JournalEntry): JournalEntry {
    JournalEntry(OfReversal, e.payment, Apply(Swapped, e.lines))
  }

  function FindEntry(journal: seq<JournalEntry>, source: EntrySource, payment: nat): Option<JournalEntry> {
    if journal == [] then None
    else if journal[0].source == source && journal[0].payment == payment then Some(journal[0])
    else FindEntry(journal[1..], source, payment)
  }

  /** Exactly one clearing account and one revenue account must be active. */
  function PostPayment(journal: seq<JournalEntry>, payment: nat, purpose: string, amount: int,
                       accounts: Accounts): Result<seq<JournalEntry>> {
    if amount <= 0 then Err(Validation)
    else if FindEntry(journal, OfPayment, payment).Some? then Ok(journal)
    else if purpose !in accounts || SALES_REVENUE !in accounts || |accounts[purpose]| != 1
            || |accounts[SALES_REVENUE]| != 1 then Err(Conflict)
    else Ok(journal + [Posting(payment, accounts[purpose][0], accounts[SALES_REVENUE][0], amount)])
  }

  function PostReversal(journal: seq<JournalEntry>, payment: nat): Result<seq<JournalEntry>> {
    if FindEntry(journal, OfReversal, payment).Some? then Ok(journal)
    else match FindEntry(journal, OfPayment, payment)
      case None => Err(NotFound)
      case Some(e) => Ok(journal + [Reversal(e)])
  }

  // ------------------------------------------------------------ the operations

  function StoredPayment(settled: Settled, cashLike: bool, digits: nat): Payment
    requires digits <= STORAGE_MAX_FRACTION_DIGITS
  {
    var change := if cashLike && settled.change > 0 then Some(StoredText(settled.change, digits)) else None;
    Payment(StoredText(settled.net, digits), change, Completed)
  }

  /** Parses the tender and splits it against the balance. */
  function SettleRequest(r: Request, remaining: int, digits: nat): Option<Settled> {
    match GrossOf(r.payMethod, r.amountText, digits)
    case Err(_) => None
    case Ok(gross) => Settle(remaining, Tender(gross, CashLike(r.payMethod), r.explicitChange))
  }

  function Collect(order: Order, l: Ledger, r: Request): Result<Ledger>
    requires order.digits <= STORAGE_MAX_FRACTION_DIGITS
  {
    if l.status.Refunded? || l.status.RefundPending? || l.status.Voided? then Err(Validation)
    else if !r.payMethod.usableHere || !r.shiftOpen then Err(Validation)
    else if Remaining(order, l) <= 0 then Err(Validation)
    else match SettleRequest(r, Remaining(order, l), order.digits)
      case None => Err(Validation)
      case Some(settled) =>
        match PostPayment(l.journal, |l.payments|, r.payMethod.clearingPurpose, settled.net, r.accounts)
        case Err(e) => Err(e)
        case Ok(journal) =>
          Ok(Ledger(l.payments + [StoredPayment(settled, CashLike(r.payMethod), order.digits)],
                    if Remaining(order, l) - settled.net == 0 then Paid else l.status, journal))
  }

  /** Void or refund of one payment: completed ones only, and only on an open shift. */
  function LifecycleChange(order: Order, l: Ledger, payment: nat, next: PaymentStatus,
                           shiftOpen: bool): Result<Ledger> {
    if payment >= |l.payments| then Err(NotFound)
    else if !l.payments[payment].status.Completed? then Err(Conflict)
    else if !shiftOpen then Err(Validation)
    else match PostReversal(l.journal, payment)
      case Err(e) => Err(e)
      case Ok(journal) =>
        var payments := l.payments[payment := l.payments[payment].(status := next)];
        Ok(Ledger(payments, NextOrderPaymentStatus(order.total - CompletedTotal(payments, order.digits), payments),
                  journal))
  }

  datatype Action = Collecting(request: Request) | Voiding(payment: nat, shiftOpen: bool)
      | Refunding(payment: nat, shiftOpen: bool)

  /** A refused operation leaves everything as it was. */
  function Step(order: Order, l: Ledger, a: Action): Ledger
    requires order.digits <= STORAGE_MAX_FRACTION_DIGITS
  {
    var r := match a
      case Collecting(request) => Collect(order, l, request)
      case Voiding(payment, shiftOpen) => LifecycleChange(order, l, payment, VoidedPayment, shiftOpen)
      case Refunding(payment, shiftOpen) => LifecycleChange(order, l, payment, RefundedPayment, shiftOpen);
    if r.Ok? then r.value else l
  }

  const Empty := Ledger([], Open, [])

  function Exec(order: Order, actions: seq<Action>): Ledger
    requires order.digits <= STORAGE_MAX_FRACTION_DIGITS
  {
    if actions == [] then Empty else Step(order, Exec(order, actions[..|actions| - 1]), actions[|actions| - 1])
  }

  // ------------------------------------------------------------ the invariant

  ghost predicate RowOk(p: Payment, digits: nat) {
    NetOf(p, digits) > 0
  }

  ghost predicate AllRefunded(payments: seq<Payment>) {
    payments != [] && forall p :: p in payments ==> p.status.RefundedPayment?
  }

  /** Paid exactly at balance zero; refunded exactly when every payment is. */
  ghost predicate StatusOk(order: Order, l: Ledger) {
    && (l.status.Paid? <==> Remaining(order, l) == 0)
    && (l.status.Refunded? <==> AllRefunded(l.payments))
    && !l.status.RefundPending? && !l.status.Voided?
  }

  /** The posting of a payment: its net amount from revenue to clearing. */
  ghost predicate IsPosting(e: JournalEntry, payment: nat, amount: int) {
    exists debitAccount, creditAccount :: e == Posting(payment, debitAccount, creditAccount, amount)
  }

  /** One posting per payment, and one line-swapped reversal exactly when it is no longer completed. */
  ghost predicate Mirrored(journal: seq<JournalEntry>, i: nat, p: Payment, digits: nat) {
    && FindEntry(journal, OfPayment, i).Some?
    && IsPosting(FindEntry(journal, OfPayment, i).value, i, NetOf(p, digits))
    && FindEntry(journal, OfReversal, i)
       == if p.status.Completed? then None else Some(Reversal(FindEntry(journal, OfPayment, i).value))
  }

  predicate SameSlot(d: JournalEntry, e: JournalEntry) { d.source == e.source && d.payment == e.payment }

  ghost predicate UniqueEntries(journal: seq<JournalEntry>) {
    forall j, k :: 0 <= j < k < |journal| ==> !SameSlot(journal[j], journal[k])
  }

  function Debits(lines: seq<JournalLine>): int { SumBy(lines, (x: JournalLine) => x.debit) }

  function Credits(lines: seq<JournalLine>): int { SumBy(lines, (x: JournalLine) => x.credit) }

  function OpenDebit(journal: seq<JournalEntry>, e: JournalEntry): int {
    if e.source.OfPayment? && FindEntry(journal, OfReversal, e.payment).None? then Debits(e.lines) else 0
  }

  /** The debits of all payment entries that have not been reversed. */
  function UnreversedDebits(journal: seq<JournalEntry>): int {
    SumBy(journal, (e: JournalEntry) => OpenDebit(journal, e))
  }

  ghost predicate JournalOk(l: Ledger, digits: nat) {
    && UniqueEntries(l.journal)
    && (forall e :: e in l.journal ==> e.payment < |l.payments|)
    && (forall i {:trigger Mirrored(l.journal, i, l.payments[i], digits)} :: 0 <= i < |l.payments| ==>
        Mirrored(l.journal, i, l.payments[i], digits))
    && UnreversedDebits(l.journal) == CompletedTotal(l.payments, digits)
  }

  ghost predicate BalanceOk(order: Order, l: Ledger) {
    && (forall p :: p in l.payments ==> RowOk(p, order.digits))
    && 0 <= Remaining(order, l) <= order.total
  }

  ghost predicate Inv(order: Order, l: Ledger) {
    BalanceOk(order, l) && StatusOk(order, l) && JournalOk(l, order.digits)
  }

  // ---------------------------------------------------------------- the totals

  lemma TotalSnoc(payments: seq<Payment>, p: Payment, digits: nat)
    ensures CompletedTotal(payments + [p], digits) == CompletedTotal(payments, digits) + CompletedPart(p, digits)
  {
    SumBySnoc(payments, p, (p: Payment) => CompletedPart(p, digits));
  }

  lemma TotalUpdate(payments: seq<Payment>, i: nat, q: Payment, digits: nat)
    requires i < |payments|
    ensures CompletedTotal(payments[i := q], digits)
            == CompletedTotal(payments, digits) - CompletedPart(payments[i], digits) + CompletedPart(q, digits)
  {
    var f := (p: Payment) => CompletedPart(p, digits);
    SumByRemove(payments, i, f);
    SumByRemove(payments[i := q], i, f);
    UpdateAround(payments, i, q);
  }

  lemma UpdateAround<T>(s: seq<T>, i: nat, x: T)
    requires i < |s|
    ensures s[i := x][..i] + s[i := x][i + 1..] == s[..i] + s[i + 1..]
  {
  }

  lemma {:induction false} TotalNonNegative(payments: seq<Payment>, digits: nat)
    requires forall p :: p in payments ==> RowOk(p, digits)
    ensures CompletedTotal(payments, digits) >= 0
  {
    if payments != [] {
      assert RowOk(payments[0], digits);
      TotalNonNegative(payments[1..], digits);
    }
  }

  /** What was stored is what is read back. */
  lemma StoredFigures(settled: Settled, cashLike: bool, digits: nat)
    requires digits <= STORAGE_MAX_FRACTION_DIGITS
    ensures var p := StoredPayment(settled, cashLike, digits);
            && NetOf(p, digits) == settled.net
            && (settled.change >= 0 && (settled.change > 0 ==> cashLike) ==> ChangeOf(p, digits) == settled.change)
  {
    StoredRoundTrip(settled.net, digits);
    StoredRoundTrip(settled.change, digits);
  }

  // --------------------------------------------------------------- the journal

  lemma {:induction false} FindSnoc(journal: seq<JournalEntry>, e: JournalEntry, source: EntrySource, i: nat)
    ensures FindEntry(journal + [e], source, i)
            == if FindEntry(journal, source, i).Some? then FindEntry(journal, source, i)
               else if e.source == source && e.payment == i then Some(e) else None
  {
    if journal == [] {
      assert [e][1..] == [];
    } else {
      assert (journal + [e])[1..] == journal[1..] + [e];
      FindSnoc(journal[1..], e, source, i);
    }
  }

  lemma {:induction false} FindIs(journal: seq<JournalEntry>, source: EntrySource, i: nat)
    ensures FindEntry(journal, source, i).Some? ==> FindEntry(journal, source, i).value in journal
                                                    && FindEntry(journal, source, i).value.source == source
                                                    && FindEntry(journal, source, i).value.payment == i
    ensures FindEntry(journal, source, i).None? ==> forall e :: e in journal ==> !(e.source == source && e.payment == i)
  {
    if journal != [] && !(journal[0].source == source && journal[0].payment == i) {
      FindIs(journal[1..], source, i);
    }
  }

  lemma UniqueSnoc(journal: seq<JournalEntry>, e: JournalEntry)
    requires UniqueEntries(journal) && FindEntry(journal, e.source, e.payment).None?
    ensures UniqueEntries(journal + [e])
  {
    FindIs(journal, e.source, e.payment);
    forall j, k | 0 <= j < k < |journal + [e]| ensures !SameSlot((journal + [e])[j], (journal + [e])[k]) {
      assert journal[j] in journal;
    }
  }

  lemma PostingBalances(payment: nat, a: string, b: string, amount: int)
    ensures var e := Posting(payment, a, b, amount); Debits(e.lines) == amount == Credits(e.lines)
  {
    var x, y := JournalLine(a, amount, 0), JournalLine(b, 0, amount);
    assert Posting(payment, a, b, amount).lines == [x] + [y];
    SumByOne(x, (l: JournalLine) => l.debit);
    SumByOne(x, (l: JournalLine) => l.credit);
    SumBySnoc([x], y, (l: JournalLine) => l.debit);
    SumBySnoc([x], y, (l: JournalLine) => l.credit);
  }

  lemma {:induction false} SwappedTotals(lines: seq<JournalLine>)
    ensures Debits(Apply(Swapped, lines)) == Credits(lines) && Credits(Apply(Swapped, lines)) == Debits(lines)
  {
    if lines != [] {
      SwappedTotals(lines[1..]);
      assert Apply(Swapped, lines)[1..] == Apply(Swapped, lines[1..]);
    }
  }

  /** A new posting adds its debit. */
  lemma DebitsAfterPosting(journal: seq<JournalEntry>, e: JournalEntry)
    requires e.source.OfPayment? && FindEntry(journal, OfReversal, e.payment).None?
    ensures UnreversedDebits(journal + [e]) == UnreversedDebits(journal) + Debits(e.lines)
  {
    var after := journal + [e];
    forall x | x in after ensures OpenDebit(after, x) == OpenDebit(journal, x) {
      FindSnoc(journal, e, OfReversal, x.payment);
    }
    SumByEqual(after, (x: JournalEntry) => OpenDebit(after, x), (x: JournalEntry) => OpenDebit(journal, x));
    SumBySnoc(journal, e, (x: JournalEntry) => OpenDebit(journal, x));
  }

  /** Reversing one payment takes exactly its posting out of any stretch of the journal. */
  lemma {:induction false} ReversedPart(part: seq<JournalEntry>, journal: seq<JournalEntry>, reversal: JournalEntry)
    requires UniqueEntries(part) && reversal.source.OfReversal?
             && FindEntry(journal, OfReversal, reversal.payment).None?
    ensures SumBy(part, (x: JournalEntry) => OpenDebit(journal + [reversal], x))
            == SumBy(part, (x: JournalEntry) => OpenDebit(journal, x))
               - (match FindEntry(part, OfPayment, reversal.payment) case None => 0 case Some(e) => Debits(e.lines))
  {
    if part != [] {
      ReversedPart(part[1..], journal, reversal);
      FindSnoc(journal, reversal, OfReversal, part[0].payment);
      FindIs(part[1..], OfPayment, reversal.payment);
      if part[0].source.OfPayment? && part[0].payment == reversal.payment {
        forall x | x in part[1..] ensures !SameSlot(part[0], x) {
          var k :| 0 <= k < |part[1..]| && part[1..][k] == x;
          assert part[k + 1] == x;
        }
      }
    }
  }

  lemma DebitsAfterReversal(journal: seq<JournalEntry>, e: JournalEntry)
    requires UniqueEntries(journal) && FindEntry(journal, OfPayment, e.payment) == Some(e)
             && FindEntry(journal, OfReversal, e.payment).None?
    ensures UnreversedDebits(journal + [Reversal(e)]) == UnreversedDebits(journal) - Debits(e.lines)
  {
    var after := journal + [Reversal(e)];
    SumBySnoc(journal, Reversal(e), (x: JournalEntry) => OpenDebit(after, x));
    ReversedPart(journal, journal, Reversal(e));
  }

  lemma MirroredSnoc(journal: seq<JournalEntry>, e: JournalEntry, i: nat, p: Payment, digits: nat)
    requires Mirrored(journal, i, p, digits) && e.payment != i
    ensures Mirrored(journal + [e], i, p, digits)
  {
    FindSnoc(journal, e, OfPayment, i);
    FindSnoc(journal, e, OfReversal, i);
  }

  // ------------------------------------------------------ collecting keeps it

  lemma FreshSlots(l: Ledger, digits: nat)
    requires JournalOk(l, digits)
    ensures FindEntry(l.journal, OfPayment, |l.payments|).None? && FindEntry(l.journal, OfReversal, |l.payments|).None?
  {
    FindIs(l.journal, OfPayment, |l.payments|);
    FindIs(l.journal, OfReversal, |l.payments|);
  }

  lemma CollectJournal(l: Ledger, digits: nat, p: Payment, e: JournalEntry, status: OrderStatus)
    requires JournalOk(l, digits) && p.status.Completed? && IsPosting(e, |l.payments|, NetOf(p, digits))
    ensures JournalOk(Ledger(l.payments + [p], status, l.journal + [e]), digits)
  {
    var n := Ledger(l.payments + [p], status, l.journal + [e]);
    FreshSlots(l, digits);
    UniqueSnoc(l.journal, e);
    forall i | 0 <= i < |n.payments| ensures Mirrored(n.journal, i, n.payments[i], digits) {
      if i < |l.payments| {
        assert Mirrored(l.journal, i, l.payments[i], digits);
        MirroredSnoc(l.journal, e, i, l.payments[i], digits);
      } else {
        FindSnoc(l.journal, e, OfPayment, i);
        FindSnoc(l.journal, e, OfReversal, i);
      }
    }
    CollectDebits(l, digits, p, e);
  }

  lemma CollectDebits(l: Ledger, digits: nat, p: Payment, e: JournalEntry)
    requires UnreversedDebits(l.journal) == CompletedTotal(l.payments, digits)
             && FindEntry(l.journal, OfReversal, |l.payments|).None?
    requires p.status.Completed? && IsPosting(e, |l.payments|, NetOf(p, digits))
    ensures UnreversedDebits(l.journal + [e]) == CompletedTotal(l.payments + [p], digits)
  {
    var a, b :| e == Posting(|l.payments|, a, b, NetOf(p, digits));
    PostingBalances(|l.payments|, a, b, NetOf(p, digits));
    DebitsAfterPosting(l.journal, e);
    TotalSnoc(l.payments, p, digits);
  }

  lemma NotAllRefunded(payments: seq<Payment>, p: Payment)
    requires p in payments && !p.status.RefundedPayment?
    ensures !AllRefunded(payments)
  {
  }

  /** What a successful collection is made of. */
  lemma CollectParts(order: Order, l: Ledger, r: Request) returns (settled: Settled, e: JournalEntry)
    requires order.digits <= STORAGE_MAX_FRACTION_DIGITS && JournalOk(l, order.digits) && Collect(order, l, r).Ok?
    ensures GrossOf(r.payMethod, r.amountText, order.digits).Ok?
    ensures Settle(Remaining(order, l),
                   Tender(GrossOf(r.payMethod, r.amountText, order.digits).value, CashLike(r.payMethod),
                          r.explicitChange)) == Some(settled)
    ensures IsPosting(e, |l.payments|, settled.net)
    ensures Collect(order, l, r).value
            == Ledger(l.payments + [StoredPayment(settled, CashLike(r.payMethod), order.digits)],
                      if Remaining(order, l) - settled.net == 0 then Paid else l.status, l.journal + [e])
    ensures !l.status.Refunded? && Remaining(order, l) > 0
  {
    FreshSlots(l, order.digits);
    var gross := GrossOf(r.payMethod, r.amountText, order.digits).value;
    settled := Settle(Remaining(order, l), Tender(gross, CashLike(r.payMethod), r.explicitChange)).value;
    e := Posting(|l.payments|, r.accounts[r.payMethod.clearingPurpose][0], r.accounts[SALES_REVENUE][0], settled.net);
  }

  lemma CollectBalance(order: Order, l: Ledger, p: Payment, status: OrderStatus, journal: seq<JournalEntry>)
    requires BalanceOk(order, l) && StatusOk(order, l) && !l.status.Refunded? && Remaining(order, l) > 0
    requires p.status.Completed? && 0 < NetOf(p, order.digits) <= Remaining(order, l)
    requires status == if Remaining(order, l) - NetOf(p, order.digits) == 0 then Paid else l.status
    ensures BalanceOk(order, Ledger(l.payments + [p], status, journal))
            && StatusOk(order, Ledger(l.payments + [p], status, journal))
  {
    TotalSnoc(l.payments, p, order.digits);
    NotAllRefunded(l.payments + [p], p);
  }

  lemma CollectKeeps(order: Order, l: Ledger, r: Request)
    requires order.digits <= STORAGE_MAX_FRACTION_DIGITS && Inv(order, l) && Collect(order, l, r).Ok?
    ensures Inv(order, Collect(order, l, r).value)
  {
    var settled, e := CollectParts(order, l, r);
    var p := StoredPayment(settled, CashLike(r.payMethod), order.digits);
    StoredFigures(settled, CashLike(r.payMethod), order.digits);
    var n := Collect(order, l, r).value;
    CollectBalance(order, l, p, n.status, n.journal);
    CollectJournal(l, order.digits, p, e, n.status);
  }

  // ------------------------------------------------------- reversing keeps it

  lemma ReverseParts(order: Order, l: Ledger, i: nat, next: PaymentStatus, shiftOpen: bool) returns (e: JournalEntry)
    requires JournalOk(l, order.digits) && LifecycleChange(order, l, i, next, shiftOpen).Ok?
    ensures i < |l.payments| && l.payments[i].status.Completed?
    ensures FindEntry(l.journal, OfPayment, i) == Some(e) && FindEntry(l.journal, OfReversal, i).None? && e.payment == i
    ensures IsPosting(e, i, NetOf(l.payments[i], order.digits))
    ensures var payments := l.payments[i := l.payments[i].(status := next)];
            LifecycleChange(order, l, i, next, shiftOpen).value
            == Ledger(payments, NextOrderPaymentStatus(order.total - CompletedTotal(payments, order.digits), payments),
                      l.journal + [Reversal(e)])
  {
    assert Mirrored(l.journal, i, l.payments[i], order.digits);
    e := FindEntry(l.journal, OfPayment, i).value;
  }

  lemma ReverseJournal(l: Ledger, digits: nat, i: nat, next: PaymentStatus, e: JournalEntry, status: OrderStatus)
    requires JournalOk(l, digits) && i < |l.payments| && l.payments[i].status.Completed? && !next.Completed?
    requires FindEntry(l.journal, OfPayment, i) == Some(e) && FindEntry(l.journal, OfReversal, i).None?
             && e.payment == i
    requires IsPosting(e, i, NetOf(l.payments[i], digits))
    ensures JournalOk(Ledger(l.payments[i := l.payments[i].(status := next)], status, l.journal + [Reversal(e)]),
                      digits)
  {
    var n := Ledger(l.payments[i := l.payments[i].(status := next)], status, l.journal + [Reversal(e)]);
    UniqueSnoc(l.journal, Reversal(e));
    forall k | 0 <= k < |n.payments| ensures Mirrored(n.journal, k, n.payments[k], digits) {
      assert Mirrored(l.journal, k, l.payments[k], digits);
      if k != i {
        MirroredSnoc(l.journal, Reversal(e), k, l.payments[k], digits);
      } else {
        FindSnoc(l.journal, Reversal(e), OfPayment, i);
        FindSnoc(l.journal, Reversal(e), OfReversal, i);
      }
    }
    ReverseDebits(l, digits, i, next, e);
  }

  lemma ReverseDebits(l: Ledger, digits: nat, i: nat, next: PaymentStatus, e: JournalEntry)
    requires UniqueEntries(l.journal) && UnreversedDebits(l.journal) == CompletedTotal(l.payments, digits)
    requires i < |l.payments| && l.payments[i].status.Completed? && !next.Completed?
    requires FindEntry(l.journal, OfPayment, i) == Some(e) && FindEntry(l.journal, OfReversal, i).None?
             && e.payment == i
    requires IsPosting(e, i, NetOf(l.payments[i], digits))
    ensures UnreversedDebits(l.journal + [Reversal(e)])
            == CompletedTotal(l.payments[i := l.payments[i].(status := next)], digits)
  {
    var a, b :| e == Posting(i, a, b, NetOf(l.payments[i], digits));
    PostingBalances(i, a, b, NetOf(l.payments[i], digits));
    DebitsAfterReversal(l.journal, e);
    TotalUpdate(l.payments, i, l.payments[i].(status := next), digits);
  }

  lemma ReverseBalance(order: Order, l: Ledger, i: nat, next: PaymentStatus, journal: seq<JournalEntry>)
    requires BalanceOk(order, l) && i < |l.payments| && l.payments[i].status.Completed? && !next.Completed?
    ensures var payments := l.payments[i := l.payments[i].(status := next)];
            var n := Ledger(payments,
                            NextOrderPaymentStatus(order.total - CompletedTotal(payments, order.digits), payments),
                            journal);
            BalanceOk(order, n) && StatusOk(order, n)
  {
    var payments := l.payments[i := l.payments[i].(status := next)];
    TotalUpdate(l.payments, i, l.payments[i].(status := next), order.digits);
    assert RowOk(l.payments[i], order.digits);
    forall p | p in payments ensures RowOk(p, order.digits) {
      var k :| 0 <= k < |payments| && payments[k] == p;
      assert l.payments[k] in l.payments && RowOk(l.payments[k], order.digits);
    }
    TotalNonNegative(payments, order.digits);
  }

  lemma ReverseKeeps(order: Order, l: Ledger, i: nat, next: PaymentStatus, shiftOpen: bool)
    requires Inv(order, l) && !next.Completed? && LifecycleChange(order, l, i, next, shiftOpen).Ok?
    ensures Inv(order, LifecycleChange(order, l, i, next, shiftOpen).value)
  {
    var e := ReverseParts(order, l, i, next, shiftOpen);
    var n := LifecycleChange(order, l, i, next, shiftOpen).value;
    ReverseJournal(l, order.digits, i, next, e, n.status);
    ReverseBalance(order, l, i, next, n.journal);
  }

  // ------------------------------------------------------------- the tender

  /**
   * What a tender is worth in the base currency. Foreign cash: the text read at the foreign currency's own
   * scale, times the rate, rounded once to the base currency. Anything else: the text at the base scale.
   */
  lemma GrossExactlyWhen(m: PaymentMethod, amountText: string, baseDigits: nat, gross: int)
    ensures GrossOf(m, amountText, baseDigits) == Ok(gross) <==>
            if m.kind.ForeignCash? then
              && m.kind.fixedExchangeRate.Some? && m.kind.digits.Some?
              && NonNegativeDecimalTextToMinor(amountText, m.kind.digits.value).Ok?
              && var tendered := NonNegativeDecimalTextToMinor(amountText, m.kind.digits.value).value;
                 ConvertedTo(tendered, m.kind.digits.value, m.kind.fixedExchangeRate.value, baseDigits, gross)
            else NonNegativeDecimalTextToMinor(amountText, baseDigits) == Ok(gross)
  {
    if m.kind.ForeignCash? && m.kind.fixedExchangeRate.Some? && m.kind.digits.Some? {
      var digits := m.kind.digits.value;
      var tendered := NonNegativeDecimalTextToMinor(amountText, digits);
      if tendered.Ok? {
        ConversionIsNearest(tendered.value, m.kind.fixedExchangeRate.value, baseDigits, digits, gross);
      }
    }
  }

  /** Within the limits, the base amount nearest to amount times rate, ties to even. */
  ghost predicate ConvertedTo(amount: int, digits: nat, rateText: string, baseDigits: nat, base: int) {
    && Abs(amount) <= 1_000_000_000_000_000_000 && Abs(base) <= 1_000_000_000_000_000_000
    && digits <= 4 && baseDigits <= 4 && ParseRateNumeric(rateText).Ok?
    && var rate := ParseRateNumeric(rateText).value;
       IsNearestEven(amount * rate.coefficient * Pow10(baseDigits), Pow10(digits) * Pow10(rate.scale), base)
  }

  // ------------------------------------------------------------ over every run

  lemma StepKeeps(order: Order, l: Ledger, a: Action)
    requires order.digits <= STORAGE_MAX_FRACTION_DIGITS && Inv(order, l)
    ensures Inv(order, Step(order, l, a))
  {
    match a
    case Collecting(request) =>
      if Collect(order, l, request).Ok? {
        CollectKeeps(order, l, request);
      }
    case Voiding(payment, shiftOpen) =>
      if LifecycleChange(order, l, payment, VoidedPayment, shiftOpen).Ok? {
        ReverseKeeps(order, l, payment, VoidedPayment, shiftOpen);
      }
    case Refunding(payment, shiftOpen) =>
      if LifecycleChange(order, l, payment, RefundedPayment, shiftOpen).Ok? {
        ReverseKeeps(order, l, payment, RefundedPayment, shiftOpen);
      }
  }

  lemma {:induction false} ExecKeeps(order: Order, actions: seq<Action>)
    requires order.digits <= STORAGE_MAX_FRACTION_DIGITS && order.total > 0
    ensures Inv(order, Exec(order, actions))
  {
    if actions != [] {
      ExecKeeps(order, actions[..|actions| - 1]);
      StepKeeps(order, Exec(order, actions[..|actions| - 1]), actions[|actions| - 1]);
    }
  }

  /** The balance stays between zero and the total, and the status always says where it stands. */
  lemma BalanceAndStatus(order: Order, actions: seq<Action>)
    requires order.digits <= STORAGE_MAX_FRACTION_DIGITS && order.total > 0
    ensures var l := Exec(order, actions);
            && 0 <= Remaining(order, l) <= order.total
            && (l.status.Paid? <==> Remaining(order, l) == 0)
            && (l.status.Refunded? <==> l.payments != [] && forall p :: p in l.payments ==> p.status.RefundedPayment?)
            && (l.status.Paid? || l.status.Refunded? || l.status.Open?)
  {
    ExecKeeps(order, actions);
  }

  /** The new payment: tender is net plus change, and the balance falls by the net. */
  ghost predicate Splits(order: Order, l: Ledger, gross: int, cashLike: bool, n: Ledger) {
    && |n.payments| == |l.payments| + 1 && l.payments == n.payments[..|l.payments|]
    && var p := n.payments[|l.payments|];
       var net, change := NetOf(p, order.digits), ChangeOf(p, order.digits);
       && gross == net + change
       && 0 < net <= Remaining(order, l) && change >= 0 && (change > 0 ==> cashLike)
       && Remaining(order, n) == Remaining(order, l) - net
  }

  lemma SplitsAt(order: Order, l: Ledger, tender: Tender, n: Ledger, settled: Settled)
    requires order.digits <= STORAGE_MAX_FRACTION_DIGITS && Settle(Remaining(order, l), tender) == Some(settled)
    requires n.payments == l.payments + [StoredPayment(settled, tender.cashLike, order.digits)]
    ensures Splits(order, l, tender.gross, tender.cashLike, n)
  {
    StoredFigures(settled, tender.cashLike, order.digits);
    TotalSnoc(l.payments, StoredPayment(settled, tender.cashLike, order.digits), order.digits);
  }

  /** A collected tender splits into net and change, and the net is what the balance falls by. */
  lemma CollectSplits(order: Order, actions: seq<Action>, r: Request)
    requires order.digits <= STORAGE_MAX_FRACTION_DIGITS && order.total > 0
             && Collect(order, Exec(order, actions), r).Ok?
    ensures GrossOf(r.payMethod, r.amountText, order.digits).Ok?
    ensures Splits(order, Exec(order, actions), GrossOf(r.payMethod, r.amountText, order.digits).value,
                   !r.payMethod.kind.NonCash?, Collect(order, Exec(order, actions), r).value)
  {
    ExecKeeps(order, actions);
    var l := Exec(order, actions);
    var settled, e := CollectParts(order, l, r);
    var tender := Tender(GrossOf(r.payMethod, r.amountText, order.digits).value, CashLike(r.payMethod),
                         r.explicitChange);
    SplitsAt(order, l, tender, Collect(order, l, r).value, settled);
  }

  /** One active clearing account for the purpose and one active revenue account. */
  predicate AccountsResolve(accounts: Accounts, purpose: string) {
    purpose in accounts && SALES_REVENUE in accounts && |accounts[purpose]| == 1 && |accounts[SALES_REVENUE]| == 1
  }

  /** A tender that the balance can take: all of it, or more of it as cash, with any named change exact. */
  predicate Acceptable(remaining: int, gross: int, cashLike: bool, explicitChange: Option<int>) {
    && remaining > 0 && gross > 0 && (gross <= remaining || cashLike)
    && (explicitChange.Some? ==> explicitChange.value == if gross > remaining then gross - remaining else 0)
  }

  /** Exactly which collections succeed, whatever happened on the order before. */
  lemma CollectAcceptedExactlyWhen(order: Order, actions: seq<Action>, r: Request)
    requires order.digits <= STORAGE_MAX_FRACTION_DIGITS && order.total > 0
    ensures var l := Exec(order, actions);
            Collect(order, l, r).Ok? <==>
              && !l.status.Refunded? && r.payMethod.usableHere && r.shiftOpen
              && GrossOf(r.payMethod, r.amountText, order.digits).Ok?
              && Acceptable(Remaining(order, l), GrossOf(r.payMethod, r.amountText, order.digits).value,
                            !r.payMethod.kind.NonCash?, r.explicitChange)
              && AccountsResolve(r.accounts, r.payMethod.clearingPurpose)
  {
    ExecKeeps(order, actions);
    var l := Exec(order, actions);
    FreshSlots(l, order.digits);
    if GrossOf(r.payMethod, r.amountText, order.digits).Ok? {
      SettleExactly(Remaining(order, l),
                    Tender(GrossOf(r.payMethod, r.amountText, order.digits).value, CashLike(r.payMethod),
                           r.explicitChange));
    }
  }

  /** A collection debits the clearing account of its method and credits revenue, both by the net amount. */
  lemma CollectPosts(order: Order, actions: seq<Action>, r: Request)
    requires order.digits <= STORAGE_MAX_FRACTION_DIGITS && order.total > 0
             && Collect(order, Exec(order, actions), r).Ok?
    ensures var l := Exec(order, actions);
            var n := Collect(order, l, r).value;
            && |n.payments| == |l.payments| + 1 && |n.journal| == |l.journal| + 1
            && n.journal[..|l.journal|] == l.journal
            && var e := n.journal[|l.journal|];
               && e.source.OfPayment? && e.payment == |l.payments| && |e.lines| == 2
               && r.accounts[r.payMethod.clearingPurpose] == [e.lines[0].account]
               && r.accounts[SALES_REVENUE] == [e.lines[1].account]
               && e.lines[0].debit == NetOf(n.payments[|l.payments|], order.digits) == e.lines[1].credit
               && e.lines[0].credit == 0 == e.lines[1].debit
  {
    ExecKeeps(order, actions);
    CollectAcceptedExactlyWhen(order, actions, r);
    var settled, e := CollectParts(order, Exec(order, actions), r);
    StoredFigures(settled, CashLike(r.payMethod), order.digits);
    FreshSlots(Exec(order, actions), order.digits);
  }

  /** Every payment has its balanced posting, and its swapped reversal exactly when it no longer counts. */
  lemma JournalMirrorsPayments(order: Order, actions: seq<Action>, i: nat)
    requires order.digits <= STORAGE_MAX_FRACTION_DIGITS && order.total > 0 && i < |Exec(order, actions).payments|
    ensures var l := Exec(order, actions);
            && Mirrored(l.journal, i, l.payments[i], order.digits) && UniqueEntries(l.journal)
            && var e := FindEntry(l.journal, OfPayment, i).value;
               && Debits(e.lines) == NetOf(l.payments[i], order.digits) == Credits(e.lines)
               && Debits(Reversal(e).lines) == Credits(e.lines) && Credits(Reversal(e).lines) == Debits(e.lines)
  {
    ExecKeeps(order, actions);
    var l := Exec(order, actions);
    assert Mirrored(l.journal, i, l.payments[i], order.digits);
    var e := FindEntry(l.journal, OfPayment, i).value;
    var a, b :| e == Posting(i, a, b, NetOf(l.payments[i], order.digits));
    PostingBalances(i, a, b, NetOf(l.payments[i], order.digits));
    SwappedTotals(e.lines);
  }

  /** The status after a change: paid while covered, refunded when every payment is, open otherwise. */
  lemma NextStatusExactlyWhen(remaining: int, payments: seq<Payment>)
    ensures var status := NextOrderPaymentStatus(remaining, payments);
            && (status.Paid? <==> remaining <= 0)
            && (status.Refunded? <==>
                remaining > 0 && payments != [] && forall p :: p in payments ==> p.status.RefundedPayment?)
            && (status.Paid? || status.Refunded? || status.Open?)
  {
  }

  /** The reversal of a posting: the same two accounts, debit and credit exchanged. */
  ghost predicate Undoes(e: JournalEntry, posting: JournalEntry) {
    && e.source.OfReversal? && posting.source.OfPayment? && e.payment == posting.payment
    && |e.lines| == |posting.lines| == 2
    && forall k :: 0 <= k < 2 ==>
         && e.lines[k].account == posting.lines[k].account
         && e.lines[k].debit == posting.lines[k].credit && e.lines[k].credit == posting.lines[k].debit
  }

  /** One payment changed its status, its net amount is due again, and one entry undoes its posting. */
  ghost predicate Changed(order: Order, l: Ledger, i: nat, next: PaymentStatus, n: Ledger)
    requires i < |l.payments|
  {
    && |n.payments| == |l.payments|
    && (forall k :: 0 <= k < |l.payments| && k != i ==> n.payments[k] == l.payments[k])
    && n.payments[i].amountInBaseCurrency == l.payments[i].amountInBaseCurrency
    && n.payments[i].changeGivenAmount == l.payments[i].changeGivenAmount && n.payments[i].status == next
    && Remaining(order, n) == Remaining(order, l) + NetOf(l.payments[i], order.digits)
    && |n.journal| == |l.journal| + 1 && n.journal[..|l.journal|] == l.journal
    && exists posting :: posting in l.journal && posting.payment == i && Undoes(n.journal[|l.journal|], posting)
  }

  /**
   * After any history a payment is voided or refunded exactly when it exists, is completed and the shift is
   * open; a refused change leaves everything as it was.
   */
  lemma ChangeExactlyWhen(order: Order, actions: seq<Action>, i: nat, shiftOpen: bool)
    requires order.digits <= STORAGE_MAX_FRACTION_DIGITS && order.total > 0
    ensures var l := Exec(order, actions);
            var voided, refunded := Step(order, l, Voiding(i, shiftOpen)), Step(order, l, Refunding(i, shiftOpen));
            if i < |l.payments| && l.payments[i].status.Completed? && shiftOpen then
              Changed(order, l, i, VoidedPayment, voided) && Changed(order, l, i, RefundedPayment, refunded)
            else voided == l && refunded == l
  {
    ExecKeeps(order, actions);
    var l := Exec(order, actions);
    if i < |l.payments| && l.payments[i].status.Completed? && shiftOpen {
      ReversalFound(order, l, i);
      ChangeDone(order, l, i, VoidedPayment, shiftOpen);
      ChangeDone(order, l, i, RefundedPayment, shiftOpen);
    }
  }

  lemma ReversalFound(order: Order, l: Ledger, i: nat)
    requires JournalOk(l, order.digits) && i < |l.payments| && l.payments[i].status.Completed?
    ensures forall next :: LifecycleChange(order, l, i, next, true).Ok?
  {
    assert Mirrored(l.journal, i, l.payments[i], order.digits);
  }

  lemma ChangeDone(order: Order, l: Ledger, i: nat, next: PaymentStatus, shiftOpen: bool)
    requires Inv(order, l) && !next.Completed? && LifecycleChange(order, l, i, next, shiftOpen).Ok?
    ensures i < |l.payments| && Changed(order, l, i, next, LifecycleChange(order, l, i, next, shiftOpen).value)
  {
    var e := ReverseParts(order, l, i, next, shiftOpen);
    TotalUpdate(l.payments, i, l.payments[i].(status := next), order.digits);
    FindIs(l.journal, OfPayment, i);
    ReversalUndoes(e, i, NetOf(l.payments[i], order.digits));
  }

  lemma ReversalUndoes(e: JournalEntry, i: nat, amount: int)
    requires IsPosting(e, i, amount)
    ensures Undoes(Reversal(e), e)
  {
  }

  /** The unreversed debits are the completed payments as their stored text reads. */
  lemma DebitsAreCompletedPayments(order: Order, actions: seq<Action>)
    requires order.digits <= STORAGE_MAX_FRACTION_DIGITS && order.total > 0
    ensures var l := Exec(order, actions); UnreversedDebits(l.journal) == CompletedTotal(l.payments, order.digits)
  {
    ExecKeeps(order, actions);
  }

  // --------------------------------------------------------- the transactions

  /** One order's rows as the engine writes them; a refusal rolls back. */
  class PaymentsEngine {
    const order: Order
    var payments: seq<Payment>
    var status: OrderStatus
    var journal: seq<JournalEntry>

    function Rows(): Ledger
      reads this
    {
      Ledger(payments, status, journal)
    }

    constructor (order: Order)
      ensures this.order == order && Rows() == Empty
    {
      this.order := order;
      payments, status, journal := [], Open, [];
    }

    /** The snapshot's sum of completed payments, read back from their text. */
    method LoadCompleted(rows: seq<Payment>) returns (completedMinor: int)
      ensures completedMinor == CompletedTotal(rows, order.digits)
    {
      completedMinor := 0;
      for i := 0 to |rows|
        invariant completedMinor == CompletedTotal(rows[..i], order.digits)
      {
        PrefixSnoc(rows, i);
        TotalSnoc(rows[..i], rows[i], order.digits);
        if rows[i].status.Completed? {
          completedMinor := completedMinor + Reread(rows[i].amountInBaseCurrency, order.digits);
        }
      }
      assert rows[..|rows|] == rows;
    }

    method RecordPayment(r: Request) returns (ok: bool)
      requires order.digits <= STORAGE_MAX_FRACTION_DIGITS
      modifies this
      ensures ok <==> Collect(order, old(Rows()), r).Ok?
      ensures Rows() == if ok then Collect(order, old(Rows()), r).value else old(Rows())
    {
      if status.Refunded? || status.RefundPending? || status.Voided? {
        return false;
      }
      if !r.payMethod.usableHere || !r.shiftOpen {
        return false;
      }
      var completed := LoadCompleted(payments);
      var remaining := order.total - completed;
      assert remaining == Remaining(order, Rows());
      if remaining <= 0 {
        return false;
      }
      var settled := SettleRequest(r, remaining, order.digits);
      if settled.None? {
        return false;
      }
      var posted := PostPayment(journal, |payments|, r.payMethod.clearingPurpose, settled.value.net, r.accounts);
      if posted.Err? {
        return false;
      }
      payments := payments + [StoredPayment(settled.value, CashLike(r.payMethod), order.digits)];
      journal := posted.value;
      if remaining - settled.value.net == 0 {
        status := Paid;
      }
      return true;
    }

    method ChangePayment(payment: nat, next: PaymentStatus, shiftOpen: bool) returns (ok: bool)
      requires next.VoidedPayment? || next.RefundedPayment?
      modifies this
      ensures ok <==> LifecycleChange(order, old(Rows()), payment, next, shiftOpen).Ok?
      ensures Rows() == if ok then LifecycleChange(order, old(Rows()), payment, next, shiftOpen).value else old(Rows())
    {
      if payment >= |payments| || !payments[payment].status.Completed? || !shiftOpen {
        return false;
      }
      var reversed := PostReversal(journal, payment);
      if reversed.Err? {
        return false;
      }
      payments := payments[payment := payments[payment].(status := next)];
      journal := reversed.value;
      var completed := LoadCompleted(payments);
      status := NextOrderPaymentStatus(order.total - completed, payments);
      return true;
    }
  }
}