/** What a gateway answer means for an order, and what one handler's transaction does to the tables
    (app/services/settlement.py, app/api/routes/shop.py, app/worker/payment_reconciler.py). */
module Settlement {
  import opened Base
  import opened Money

  datatype OrderStatus = Initiated | Pending | Paid | Failed | Cancelled | Refunded

  datatype Product = Product(pricePaisa: nat, rideCount: Option<int>, validityDays: nat, active: bool)

  datatype Order = Order(
    student: nat,
    product: nat,
    amountPaisa: nat,
    currency: string,
    idempotencyKey: string,
    tranId: string,
    createdAt: real,
    status: OrderStatus,
    payload: Option<Validation>,
    valId: Option<string>,
    bankTranId: Option<string>,
    cardType: Option<string>,
    paidAt: Option<real>)

  datatype Ticket = Ticket(
    order: nat, student: nat, product: nat,
    ridesTotal: Option<int>, ridesRemaining: Option<int>, validFrom: real, validTo: real)

  datatype Shop = Shop(products: map<nat, Product>, orders: map<nat, Order>, tickets: seq<Ticket>)

  const DAY_S := 86400.0
  const ABANDON_S := 24.0 * 3600.0
  const BATCH := 50

  datatype Outcome = PaidUp | NotPaid | AmountMismatch | UnderReview

  /** The three checks, as one condition on an answer for an order. */
  predicate Passes(v: Validation, o: Order) {
    PaymentSucceeded(v) && AmountMatches(v, o.amountPaisa, o.currency) && !RiskFlagged(v)
  }

  /** Success first, then the money, then the risk; the answer is kept in every case. */
  function Judge(v: Validation, o: Order): Outcome {
    if !PaymentSucceeded(v) then NotPaid
    else if !AmountMatches(v, o.amountPaisa, o.currency) then AmountMismatch
    else if RiskFlagged(v) then UnderReview
    else PaidUp
  }

  function Field(v: Validation, key: string): Option<string> {
    if key in v then Some(v[key]) else None
  }

  function Validated(o: Order, v: Validation, now: real): Order {
    var kept := o.(
      payload := Some(v),
      valId := if Get(v, "val_id") != "" then Some(v["val_id"]) else o.valId,
      bankTranId := Field(v, "bank_tran_id"),
      cardType := Field(v, "card_type"));
    match Judge(v, o)
    case PaidUp => kept.(status := Paid, paidAt := Some(now))
    case UnderReview => kept.(status := Pending)
    case _ => kept.(status := Failed)
  }

  function TicketFor(id: nat, o: Order, p: Product, now: real): Ticket {
    Ticket(id, o.student, o.product, p.rideCount, p.rideCount, now, now + p.validityDays as real * DAY_S)
  }

  // ----- one transaction: orders loaded, orders as changed in the session, tickets to insert

  datatype Txn = Txn(snap: map<nat, Order>, work: map<nat, Order>, staged: seq<Ticket>)

  /** What a handler decides about one order it has loaded. */
  datatype Decision =
    | Close(cancelled: bool)             // an unverified FAILED or CANCELLED report
    | Answer(validation: Validation)     // what the gateway says
    | Abandon                            // the gateway knows of no money and the order is old
    | Leave
    | Checkout                           // a payment session was opened

  function Decided(o: Order, d: Decision, now: real): Order {
    match d
    case Close(cancelled) => o.(status := if cancelled then Cancelled else Failed)
    case Answer(v) => Validated(o, v, now)
    case Abandon => if o.status == Cancelled then o else o.(status := Failed)
    case Leave => o
    case Checkout => o.(status := Pending)
  }

  predicate Issues(o: Order, d: Decision) {
    d.Answer? && Passes(d.validation, o)
  }

  function Load(shop: Shop, ids: seq<nat>): Txn
    requires forall id :: id in ids ==> id in shop.orders
  {
    var loaded := map id | id in ids :: shop.orders[id];
    Txn(loaded, loaded, [])
  }

  function Apply(shop: Shop, t: Txn, id: nat, d: Decision, now: real): Txn
    requires id in t.work && t.work[id].product in shop.products
  {
    var o := t.work[id];
    Txn(t.snap, t.work[id := Decided(o, d, now)],
        if Issues(o, d) then t.staged + [TicketFor(id, o, shop.products[o.product], now)] else t.staged)
  }

  predicate HasTicket(tickets: seq<Ticket>, id: nat) {
    exists i :: 0 <= i < |tickets| && tickets[i].order == id
  }

  predicate OneTicketPerOrder(tickets: seq<Ticket>) {
    forall i, j :: 0 <= i < j < |tickets| ==> tickets[i].order != tickets[j].order
  }

  /** The unique constraint on `tickets.order_id` refuses the flush. */
  predicate Refused(shop: Shop, t: Txn) {
    !OneTicketPerOrder(shop.tickets + t.staged)
  }

  /** A column is written only when the session changed it from what was loaded. */
  function Column<T(==)>(current: T, loaded: T, changed: T): T {
    if changed == loaded then current else changed
  }

  function Written(current: Order, loaded: Order, changed: Order): Order {
    current.(
      status := Column(current.status, loaded.status, changed.status),
      payload := Column(current.payload, loaded.payload, changed.payload),
      valId := Column(current.valId, loaded.valId, changed.valId),
      bankTranId := Column(current.bankTranId, loaded.bankTranId, changed.bankTranId),
      cardType := Column(current.cardType, loaded.cardType, changed.cardType),
      paidAt := Column(current.paidAt, loaded.paidAt, changed.paidAt))
  }

  /** All or nothing: the changed columns and the new tickets, or the tables as they were. */
  function Commit(shop: Shop, t: Txn): Shop {
    if Refused(shop, t) then shop
    else shop.(
      orders := map id | id in shop.orders ::
        if id in t.snap && id in t.work then Written(shop.orders[id], t.snap[id], t.work[id]) else shop.orders[id],
      tickets := shop.tickets + t.staged)
  }

  // ----- the reconciler's selection

  /** Orders the gateway never confirmed: open, or closed on an unverified report. */
  predicate Unconfirmed(o: Order) {
    || o.status == Initiated || o.status == Pending
    || ((o.status == Failed || o.status == Cancelled) && o.payload.None?)
  }

  predicate Unsettled(o: Order, cutoff: real) {
    o.createdAt < cutoff && Unconfirmed(o)
  }

  /** Money taken, with the handle the gateway knows it by. */
  predicate IsSettled(v: Validation) {
    PaymentSucceeded(v) && Get(v, "val_id") != ""
  }

  /** The first settled element, if there is any. */
  function SuccessfulElement(elements: seq<Validation>): (e: Option<Validation>)
    ensures e.Some? ==> exists i :: 0 <= i < |elements| && elements[i] == e.value && IsSettled(elements[i])
                                  && forall j :: 0 <= j < i ==> !IsSettled(elements[j])
    ensures e.None? <==> forall j :: 0 <= j < |elements| ==> !IsSettled(elements[j])
  {
    if elements == [] then None
    else if IsSettled(elements[0]) then Some(elements[0])
    else
      var e := SuccessfulElement(elements[1..]);
      assert e.Some? ==> exists i :: 1 <= i < |elements| && elements[i] == e.value && IsSettled(elements[i])
                                  && forall j :: 0 <= j < i ==> !IsSettled(elements[j]) by {
        if e.Some? {
          var i :| 0 <= i < |elements[1..]| && elements[1..][i] == e.value && IsSettled(elements[1..][i])
                && forall j :: 0 <= j < i ==> !IsSettled(elements[1..][j]);
          assert elements[i + 1] == e.value;
          forall j | 0 <= j < i + 1 ensures !IsSettled(elements[j]) {
            assert j > 0 ==> elements[j] == elements[1..][j - 1];
          }
        }
      }
      assert forall j :: 1 <= j < |elements| ==> elements[j] == elements[1..][j - 1];
      e
  }

  /** What the reconciler decides from the gateway's records; `None` when the gateway could not be asked. */
  function PassDecision(o: Order, elements: Option<seq<Validation>>, now: real): Decision {
    match elements
    case None => Leave
    case Some(es) =>
      match SuccessfulElement(es)
      case Some(v) => Answer(v)
      case None => if now - o.createdAt >= ABANDON_S then Abandon else Leave
  }

  // ----- the decision, read backwards

  /** An answer pays an order exactly when it passes all three checks, and only a paid order gets a ticket. */
  lemma PaidIffPasses(o: Order, d: Decision, now: real)
    requires o.status != Paid
    ensures Decided(o, d, now).status == Paid <==> Issues(o, d)
    ensures Issues(o, d) ==> Decided(o, d, now).payload == Some(d.validation) && Passes(d.validation, o)
  {}
}
