/** A browser return or an IPN: what the report decides, and the tables its one transaction leaves
    (app/api/routes/shop.py). */
module Reports {
  import opened Base
  import opened Money
  import opened Settlement
  import opened Payments
  import opened SettlementGuarantees

  /** The form fields a browser return or an IPN carries. */
  datatype Fields = Fields(tranId: string, status: string, valId: string)

  /** What a report on an unpaid order leads to; `None` when it is answered without touching the order. */
  function ReportDecision(f: Fields, answer: Option<Validation>): Option<Decision> {
    var status := Upper(f.status);
    if status == "CANCELLED" then Some(Close(true))
    else if status == "FAILED" then Some(Close(false))
    else if f.valId == "" || answer.None? then None
    else Some(Answer(if "val_id" in answer.value then answer.value else answer.value["val_id" := f.valId]))
  }

  /** One report as one transaction. */
  function Reported(shop: Shop, id: nat, f: Fields, answer: Option<Validation>, now: real): Shop
    requires id in shop.orders && shop.orders[id].product in shop.products
  {
    if shop.orders[id].status == Paid then shop
    else
      match ReportDecision(f, answer)
      case None => shop
      case Some(d) => Commit(shop, Apply(shop, Load(shop, [id]), id, d, now))
  }

  // ----- the tables, told without the transaction

  /** The gateway's answer with its handle, the reported one when the answer names none. */
  predicate WithHandle(f: Fields, answer: Validation, v: Validation) {
    && "val_id" in v && v["val_id"] == (if "val_id" in answer then answer["val_id"] else f.valId)
    && v.Keys == answer.Keys + {"val_id"}
    && forall key :: key in answer && key != "val_id" ==> v[key] == answer[key]
  }

  /** One order settled by an answer, a ticket added when it pays; nothing at all when that order already has one. */
  predicate SettledAlone(was: Shop, shop: Shop, id: nat, v: Validation, now: real)
    requires id in was.orders && was.orders[id].product in was.products
  {
    var o := was.orders[id];
    if Pays(v, o) && HasTicket(was.tickets, id) then shop == was
    else
      && shop.products == was.products && id in shop.orders && shop.orders == was.orders[id := shop.orders[id]]
      && SettledBy(o, v, now, shop.orders[id])
      && |was.tickets| <= |shop.tickets| && shop.tickets[..|was.tickets|] == was.tickets
      && Sells(id, o, was.products[o.product], v, now, shop.tickets[|was.tickets|..])
  }

  /** A paid order is left alone; a report reading cancelled or failed closes it as that, without a question; any other
      needs a handle and an answer, and is settled by the answer. */
  ghost predicate ReportLeft(was: Shop, shop: Shop, id: nat, f: Fields, answer: Option<Validation>, now: real)
    requires id in was.orders && was.orders[id].product in was.products
  {
    var o := was.orders[id];
    if o.status == Paid then shop == was
    else if Spells(f.status, "CANCELLED") then shop == was.(orders := was.orders[id := o.(status := Cancelled)])
    else if Spells(f.status, "FAILED") then shop == was.(orders := was.orders[id := o.(status := Failed)])
    else if f.valId == "" || answer.None? then shop == was
    else exists v :: WithHandle(f, answer.value, v) && SettledAlone(was, shop, id, v, now)
  }

  lemma OneTicketMore(tickets: seq<Ticket>, t: Ticket)
    requires OneTicketPerOrder(tickets)
    ensures OneTicketPerOrder(tickets + [t]) <==> !HasTicket(tickets, t.order)
  {
    if i :| 0 <= i < |tickets| && tickets[i].order == t.order {
      assert (tickets + [t])[i].order == (tickets + [t])[|tickets|].order;
    }
  }

  lemma CommitsRow(shop: Shop, id: nat, d: Decision, now: real)
    requires id in shop.orders && shop.orders[id].product in shop.products
    requires !Refused(shop, Apply(shop, Load(shop, [id]), id, d, now))
    ensures Commit(shop, Apply(shop, Load(shop, [id]), id, d, now)).orders
      == shop.orders[id := Decided(shop.orders[id], d, now)]
  {
    WrittenBack(shop.orders[id], Decided(shop.orders[id], d, now));
  }

  /** One order's transaction: its row and its ticket, if the constraint lets them through. */
  lemma CommitsAlone(shop: Shop, id: nat, d: Decision, now: real)
    requires id in shop.orders && shop.orders[id].product in shop.products && OneTicketPerOrder(shop.tickets)
    ensures var o := shop.orders[id];
      var added := if Issues(o, d) then [TicketFor(id, o, shop.products[o.product], now)] else [];
      Commit(shop, Apply(shop, Load(shop, [id]), id, d, now))
        == if Issues(o, d) && HasTicket(shop.tickets, id) then shop
           else shop.(orders := shop.orders[id := Decided(o, d, now)], tickets := shop.tickets + added)
  {
    var o := shop.orders[id];
    var t := Apply(shop, Load(shop, [id]), id, d, now);
    if Issues(o, d) {
      OneTicketMore(shop.tickets, TicketFor(id, o, shop.products[o.product], now));
      assert t.staged == [TicketFor(id, o, shop.products[o.product], now)];
    } else {
      assert t.staged == [] && shop.tickets + [] == shop.tickets;
    }
    if !Refused(shop, t) {
      CommitsRow(shop, id, d, now);
    }
  }

  lemma AnswerLeaves(shop: Shop, id: nat, v: Validation, now: real)
    requires id in shop.orders && shop.orders[id].product in shop.products && OneTicketPerOrder(shop.tickets)
    ensures SettledAlone(shop, Commit(shop, Apply(shop, Load(shop, [id]), id, Answer(v), now)), id, v, now)
  {
    var o := shop.orders[id];
    AnswerSettles(id, o, shop.products[o.product], v, now);
    PassesIsPays(v, o);
    CommitsAlone(shop, id, Answer(v), now);
  }

  lemma CloseLeaves(shop: Shop, id: nat, cancelled: bool, now: real)
    requires id in shop.orders && shop.orders[id].product in shop.products && OneTicketPerOrder(shop.tickets)
    ensures Commit(shop, Apply(shop, Load(shop, [id]), id, Close(cancelled), now))
      == shop.(orders := shop.orders[id := shop.orders[id].(status := if cancelled then Cancelled else Failed)])
  {
    CommitsAlone(shop, id, Close(cancelled), now);
    assert shop.tickets + [] == shop.tickets;
  }

  lemma StatusReads(f: Fields)
    ensures Upper(f.status) == "CANCELLED" <==> Spells(f.status, "CANCELLED")
    ensures Upper(f.status) == "FAILED" <==> Spells(f.status, "FAILED")
  {
    UpperSpells(f.status, "CANCELLED");
    UpperSpells(f.status, "FAILED");
  }

  /** A report on any order leaves the tables so. */
  lemma ReportLeaves(shop: Shop, id: nat, f: Fields, answer: Option<Validation>, now: real)
    requires id in shop.orders && shop.orders[id].product in shop.products && OneTicketPerOrder(shop.tickets)
    ensures ReportLeft(shop, Reported(shop, id, f, answer, now), id, f, answer, now)
  {
    StatusReads(f);
    var d := ReportDecision(f, answer);
    if shop.orders[id].status != Paid && d.Some? {
      if d.value.Close? {
        CloseLeaves(shop, id, d.value.cancelled, now);
      } else {
        assert WithHandle(f, answer.value, d.value.validation);
        AnswerLeaves(shop, id, d.value.validation, now);
      }
    }
  }
}
