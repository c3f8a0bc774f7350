/** The payment handlers in their own form: tables as fields, a session worked on in sequence, then commit or
    rollback. */
module ShopService {
  import opened Base
  import opened Money
  import opened Settlement
  import Payments
  import opened SettlementGuarantees
  import opened Reports
  import opened Reconciler

  datatype Reply =
    | MissingTranId | UnknownTransaction | AlreadyPaid | Closed(status: OrderStatus) | MissingValId | GatewayDown
    | Settled(outcome: Outcome) | IssuedConcurrently

  datatype CheckoutReply = KeyTaken | OrderAlreadyPaid | ProductUnavailable | SessionFailed(id: nat) | Opened(id: nat)

  /** A paid order first; then a text reading cancelled or failed; then the handle; then the gateway. */
  predicate RepliesTo(o: Order, f: Fields, answer: Option<Validation>, reply: Reply) {
    if o.status == Paid then reply == AlreadyPaid
    else if Spells(f.status, "CANCELLED") then reply == Closed(Cancelled)
    else if Spells(f.status, "FAILED") then reply == Closed(Failed)
    else if f.valId == "" then reply == MissingValId
    else if answer.None? then reply == GatewayDown
    else reply.Settled? || reply.IssuedConcurrently?
  }

  function NewOrder(student: nat, product: nat, price: nat, key: string, tranId: string, now: real): Order {
    Order(student, product, price, "BDT", key, tranId, now, Initiated, None, None, None, None, None)
  }

  /** A key already used gives back its own order: to its owner, with the status moved only when a session opened. */
  predicate Retried(was: map<nat, Order>, id: nat, student: nat, key: string, session: bool,
                    orders: map<nat, Order>, reply: CheckoutReply)
  {
    && id in was && was[id].idempotencyKey == key
    && var refused := was[id].student != student || was[id].status == Paid;
    && reply == (if was[id].student != student then KeyTaken
                 else if was[id].status == Paid then OrderAlreadyPaid
                 else if session then Opened(id) else SessionFailed(id))
    && orders == if refused || !session then was else was[id := was[id].(status := Pending)]
  }

  /** A new key makes one order at the product's price now, or none. */
  predicate Ordered(shop: Shop, was: map<nat, Order>, newId: nat, student: nat, product: nat, key: string,
                    tranId: string, session: bool, now: real, reply: CheckoutReply)
  {
    if product !in shop.products || !shop.products[product].active then
      reply == ProductUnavailable && shop.orders == was
    else
      && reply == (if session then Opened(newId) else SessionFailed(newId))
      && shop.orders == was[newId :=
           Order(student, product, shop.products[product].pricePaisa, "BDT", key, tranId, now,
                 if session then Pending else Initiated, None, None, None, None, None)]
  }

  /** A new order under the same key, as another request would commit it. */
  predicate IsRival(products: map<nat, Product>, orders: map<nat, Order>, id: nat, order: Order, key: string) {
    && id !in orders && order.idempotencyKey == key && order.product in products
    && forall k :: k in orders ==> orders[k].tranId != order.tranId
  }

  /** A lost race adds no order of its own: the rival's is in the table, opened whatever its status. */
  predicate Overtaken(shop: Shop, was: map<nat, Order>, id: nat, order: Order, product: nat, session: bool,
                      reply: CheckoutReply)
  {
    if product !in shop.products || !shop.products[product].active then
      reply == ProductUnavailable && shop.orders == was
    else
      && reply == (if session then Opened(id) else SessionFailed(id))
      && shop.orders == was[id := if session then order.(status := Pending) else order]
  }

  class Database {
    var products: map<nat, Product>
    var orders: map<nat, Order>
    var tickets: seq<Ticket>

    constructor (products: map<nat, Product>)
      ensures Value() == Shop(products, map[], [])
    {
      this.products, this.orders, this.tickets := products, map[], [];
    }

    function Value(): (shop: Shop)
      reads this
    {
      Shop(products, orders, tickets)
    }

    /** Every order names a product that exists, and no two share an idempotency key or a transaction id. */
    ghost predicate Valid()
      reads this
    {
      && Payments.DistinctKeys(orders)
      && forall id :: id in orders ==> orders[id].product in products
    }

    /** Settles a loaded order by an answer and stages its ticket; commits nothing. */
    method ApplyValidation(id: nat, o: Order, v: Validation, now: real)
      returns (changed: Order, staged: seq<Ticket>, outcome: Outcome)
      requires o.product in products
      ensures changed == Decided(o, Answer(v), now) && outcome == Judge(v, o)
      ensures staged == if Issues(o, Answer(v)) then [TicketFor(id, o, products[o.product], now)] else []
      ensures SettledBy(o, v, now, changed)
      ensures Sells(id, o, products[o.product], v, now, staged)
    {
      AnswerSettles(id, o, products[o.product], v, now);
      changed, staged := o.(payload := Some(v)), [];
      if Get(v, "val_id") != "" {
        changed := changed.(valId := Some(v["val_id"]));
      }
      changed := changed.(bankTranId := Field(v, "bank_tran_id"));
      changed := changed.(cardType := Field(v, "card_type"));
      if !PaymentSucceeded(v) {
        changed := changed.(status := Failed);
        return changed, staged, NotPaid;
      }
      if !AmountMatches(v, o.amountPaisa, o.currency) {
        changed := changed.(status := Failed);
        return changed, staged, AmountMismatch;
      }
      if RiskFlagged(v) {
        changed := changed.(status := Pending);
        return changed, staged, UnderReview;
      }
      changed := changed.(status := Paid, paidAt := Some(now));
      staged := [TicketFor(id, o, products[o.product], now)];
      outcome := PaidUp;
    }

    method CommitSession(t: Txn) returns (ok: bool)
      modifies this
      ensures Value() == Commit(old(Value()), t) && ok == !Refused(old(Value()), t)
    {
      ok := !Refused(Value(), t);
      if ok {
        var shop := Commit(Value(), t);
        orders, tickets := shop.orders, shop.tickets;
      }
    }

    /** The return and IPN handlers' common core: find the order by our own reference, then settle it. */
    method Settle(f: Fields, answer: Option<Validation>, now: real) returns (reply: Reply, ghost found: Option<nat>)
      requires Valid()
      modifies this
      ensures f.tranId == "" || found.None? ==> Value() == old(Value())
      ensures f.tranId != "" ==>
        (found.None? <==> forall id :: id in old(orders) ==> old(orders)[id].tranId != f.tranId)
      ensures found.Some? ==> found.value in old(orders) && old(orders)[found.value].tranId == f.tranId
      ensures found.Some? ==> Value() == Reported(old(Value()), found.value, f, answer, now)
    {
      found := None;
      if f.tranId == "" {
        return MissingTranId, None;
      }
      if !exists id :: id in orders && orders[id].tranId == f.tranId {
        return UnknownTransaction, None;
      }
      var id :| id in orders && orders[id].tranId == f.tranId;
      found := Some(id);
      reply := SettleOrder(id, f, answer, now);
    }

    method SettleOrder(id: nat, f: Fields, answer: Option<Validation>, now: real) returns (reply: Reply)
      requires id in orders && orders[id].product in products
      modifies this
      ensures Value() == Reported(old(Value()), id, f, answer, now)
      ensures reply.AlreadyPaid? <==> old(orders)[id].status == Paid
      ensures reply.IssuedConcurrently? ==> Value() == old(Value())
      ensures OneTicketPerOrder(old(tickets)) ==> ReportLeft(old(Value()), Value(), id, f, answer, now)
      ensures RepliesTo(old(orders)[id], f, answer, reply)
    {
      StatusReads(f);
      var order := orders[id];
      if OneTicketPerOrder(tickets) {
        ReportLeaves(Value(), id, f, answer, now);
      }
      if order.status == Paid {
        return AlreadyPaid;
      }
      var status := Upper(f.status);
      if status == "FAILED" || status == "CANCELLED" {
        var closed := if status == "CANCELLED" then Cancelled else Failed;
        LoadOne(Value(), id, order.(status := closed));
        var ok := CommitSession(Txn(map[id := order], map[id := order.(status := closed)], []));
        return Closed(closed);
      }
      if f.valId == "" {
        return MissingValId;
      }
      if answer.None? {
        return GatewayDown;
      }
      reply := SettleAnswered(id, f, answer.value, now);
    }

    method SettleAnswered(id: nat, f: Fields, answer: Validation, now: real) returns (reply: Reply)
      requires id in orders && orders[id].product in products
      modifies this
      ensures var v := if "val_id" in answer then answer else answer["val_id" := f.valId];
        Value() == Commit(old(Value()), Apply(old(Value()), Load(old(Value()), [id]), id, Answer(v), now))
      ensures reply.Settled? || (reply.IssuedConcurrently? && Value() == old(Value()))
      ensures var v := if "val_id" in answer then answer else answer["val_id" := f.valId];
        reply.Settled? ==> reply.outcome == Judge(v, old(orders)[id])
    {
      var order, validation := orders[id], answer;
      if "val_id" !in validation {
        validation := validation["val_id" := f.valId];
      }
      var changed, staged, outcome := ApplyValidation(id, order, validation, now);
      AnswerTxn(Value(), id, order, Answer(validation), changed, staged, now);
      var ok := CommitSession(Txn(map[id := order], map[id := changed], staged));
      reply := if ok then Settled(outcome) else IssuedConcurrently;
    }

    /** What the pass does with one order once the gateway has been asked. */
    method ReconcileOrder(id: nat, o: Order, elements: Option<seq<Validation>>, now: real, before: Tally)
      returns (order: Order, staged: seq<Ticket>, tally: Tally)
      requires o.product in products
      ensures var d := PassDecision(o, elements, now);
        && order == Decided(o, d, now)
        && staged == (if Issues(o, d) then [TicketFor(id, o, products[o.product], now)] else [])
      ensures tally == Counted(before, o, PassDecision(o, elements, now))
    {
      tally := before.(checked := before.checked + 1);
      order, staged := o, [];
      if elements.None? {
        tally := tally.(stillOpen := tally.stillOpen + 1);
        return;
      }
      var taken := SuccessfulElement(elements.value);
      if taken.None? {
        if now - o.createdAt >= ABANDON_S {
          if o.status != Cancelled {
            order := order.(status := Failed);
          }
          tally := tally.(abandoned := tally.abandoned + 1);
        } else {
          tally := tally.(stillOpen := tally.stillOpen + 1);
        }
        return;
      }
      var outcome;
      order, staged, outcome := ApplyValidation(id, o, taken.value, now);
      if outcome == PaidUp {
        tally := tally.(settled := tally.settled + 1);
      } else if outcome == AmountMismatch {
        tally := tally.(mismatch := tally.mismatch + 1);
      }
    }

    /** One turn of the pass: the k-th order, in the session as it stands. */
    method ReconcileNext(ids: seq<nat>, k: nat, session: Txn, before: Tally, records: Records, now: real)
      returns (further: Txn, tally: Tally)
      requires k < |ids| && Known(Value(), ids) && session == PassTxn(Value(), ids, k, records, now)
      requires before == PassTally(Value(), ids, k, records, now) && before.settled == |session.staged|
      ensures further == PassTxn(Value(), ids, k + 1, records, now)
      ensures tally == PassTally(Value(), ids, k + 1, records, now) && tally.settled == |further.staged|
    {
      var o := session.work[ids[k]];
      var order, staged;
      order, staged, tally := ReconcileOrder(ids[k], o, records(ids[k]), now, before);
      SettledIsIssued(before, o, PassDecision(o, records(ids[k]), now));
      OneOrderFurther(Value(), ids, k, records, now, order, staged, tally);
      further := Txn(session.snap, session.work[ids[k] := order], session.staged + staged);
    }

    /** One pass over the selected orders, one gateway answer each, one commit for all. */
    method ReconcileOnce(ids: seq<nat>, records: Records, now: real) returns (tally: Tally)
      requires Valid() && forall id :: id in ids ==> id in orders
      modifies this
      ensures Value() == Commit(old(Value()), PassTxn(old(Value()), ids, |ids|, records, now))
      ensures tally == PassTally(old(Value()), ids, |ids|, records, now)
      ensures tally.settled == |PassTxn(old(Value()), ids, |ids|, records, now).staged|
      ensures Distinct(ids) ==>
        && Tallied(old(Value()), ids, records, now, tally)
        && if Clear(old(Value()), ids, records) then PassLeft(old(Value()), Value(), ids, records, now)
           else Value() == old(Value())
    {
      tally := Tally(0, 0, 0, 0, 0);
      ghost var shop := Value();
      if Distinct(ids) {
        PassLeaves(shop, ids, records, now);
        PassTallies(shop, ids, records, now);
      }
      var session := Load(Value(), ids);
      for k := 0 to |ids|
        invariant Value() == shop && session == PassTxn(shop, ids, k, records, now)
        invariant tally == PassTally(shop, ids, k, records, now) && tally.settled == |session.staged|
      {
        session, tally := ReconcileNext(ids, k, session, tally, records, now);
      }
      var ok := CommitSession(session);
    }

    /** `POST /shop/orders`: one order per idempotency key, whatever is retried or raced. `rival` is the row an
        identical request commits between the look-up and the insert, if one does. */
    method CreateOrder(student: nat, product: nat, key: string, newId: nat, tranId: string,
        rival: Option<(nat, Order)>, session: bool, now: real)
      returns (reply: CheckoutReply)
      requires Valid() && newId !in orders && forall id :: id in orders ==> orders[id].tranId != tranId
      requires rival.Some? ==> IsRival(products, orders, rival.value.0, rival.value.1, key)
      modifies this`orders
      ensures Valid()
      ensures (exists id :: id in old(orders) && old(orders)[id].idempotencyKey == key) ==>
        exists id :: Retried(old(orders), id, student, key, session, orders, reply)
      ensures (forall id :: id in old(orders) ==> old(orders)[id].idempotencyKey != key) ==>
        if rival.None? then Ordered(Value(), old(orders), newId, student, product, key, tranId, session, now, reply)
        else Overtaken(Value(), old(orders), rival.value.0, rival.value.1, product, session, reply)
    {
      if exists id :: id in orders && orders[id].idempotencyKey == key {
        var id :| id in orders && orders[id].idempotencyKey == key;
        reply := RetryOrder(id, student, session);
        assert Retried(old(orders), id, student, key, session, orders, reply);
      } else if product !in products || !products[product].active {
        reply := ProductUnavailable;
      } else if rival.Some? {
        reply := LoseInsertRace(rival.value.0, rival.value.1, key, session);
      } else {
        reply := InsertOrder(student, product, key, newId, tranId, session, now);
      }
    }

    /** The insert is refused and rolled back; the winner is found by the key and its session opened. */
    method LoseInsertRace(id: nat, order: Order, key: string, session: bool) returns (reply: CheckoutReply)
      requires Valid() && IsRival(products, orders, id, order, key)
      requires forall k :: k in orders ==> orders[k].idempotencyKey != key
      modifies this`orders
      ensures Valid()
      ensures reply == if session then Opened(id) else SessionFailed(id)
      ensures orders == old(orders)[id := if session then order.(status := Pending) else order]
    {
      RivalKeepsKeys(products, orders, id, order, key);
      orders := orders[id := order];
      var winner := FindByKey(key, id);
      reply := OpenCheckout(winner, session);
    }

    method FindByKey(key: string, ghost id: nat) returns (found: nat)
      requires id in orders && orders[id].idempotencyKey == key && Payments.DistinctKeys(orders)
      ensures found == id
    {
      var k :| k in orders && orders[k].idempotencyKey == key;
      found := k;
    }

    method RetryOrder(id: nat, student: nat, session: bool) returns (reply: CheckoutReply)
      requires Valid() && id in orders
      modifies this`orders
      ensures Valid()
      ensures Retried(old(orders), id, student, old(orders)[id].idempotencyKey, session, orders, reply)
    {
      if orders[id].student != student {
        return KeyTaken;
      }
      if orders[id].status == Paid {
        return OrderAlreadyPaid;
      }
      reply := OpenCheckout(id, session);
    }

    method InsertOrder(student: nat, product: nat, key: string, newId: nat, tranId: string, session: bool, now: real)
      returns (reply: CheckoutReply)
      requires Valid() && newId !in orders
      requires forall id :: id in orders ==> orders[id].idempotencyKey != key && orders[id].tranId != tranId
      requires product in products && products[product].active
      modifies this`orders
      ensures Valid()
      ensures Ordered(Value(), old(orders), newId, student, product, key, tranId, session, now, reply)
    {
      orders := orders[newId := NewOrder(student, product, products[product].pricePaisa, key, tranId, now)];
      reply := OpenCheckout(newId, session);
    }

    method OpenCheckout(id: nat, session: bool) returns (reply: CheckoutReply)
      requires id in orders
      modifies this`orders
      ensures orders == if session then old(orders)[id := old(orders)[id].(status := Pending)] else old(orders)
      ensures reply == if session then Opened(id) else SessionFailed(id)
    {
      if !session {
        return SessionFailed(id);
      }
      orders := orders[id := orders[id].(status := Pending)];
      reply := Opened(id);
    }
  }

  lemma LoadOne(shop: Shop, id: nat, changed: Order)
    requires id in shop.orders
    ensures Load(shop, [id]) == Txn(map[id := shop.orders[id]], map[id := shop.orders[id]], [])
    ensures Load(shop, [id]).work[id := changed] == map[id := changed]
  {
    assert Load(shop, [id]).snap == map[id := shop.orders[id]];
  }

  lemma AnswerTxn(shop: Shop, id: nat, o: Order, d: Decision, changed: Order, staged: seq<Ticket>, now: real)
    requires id in shop.orders && shop.orders[id] == o && o.product in shop.products
    requires changed == Decided(o, d, now)
    requires staged == if Issues(o, d) then [TicketFor(id, o, shop.products[o.product], now)] else []
    ensures Apply(shop, Load(shop, [id]), id, d, now) == Txn(map[id := o], map[id := changed], staged)
  {
    LoadOne(shop, id, changed);
    assert [] + staged == staged;
  }

  lemma RivalKeepsKeys(products: map<nat, Product>, orders: map<nat, Order>, id: nat, order: Order, key: string)
    requires IsRival(products, orders, id, order, key) && Payments.DistinctKeys(orders)
    requires forall k :: k in orders ==> orders[k].idempotencyKey != key
    ensures Payments.DistinctKeys(orders[id := order])
  {}
}
