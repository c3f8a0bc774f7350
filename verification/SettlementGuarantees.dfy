/** What settlement does, read from the gateway's own words: which answers pay, what a ticket is, what a report says. */
module SettlementGuarantees {
  import opened Base
  import opened Money
  import opened Settlement
  import opened Payments
  import opened PaymentGuarantees
  import LedgerRuns
  import Ledger
  import Runs

  // ----- which answers pay

  predicate Risky(v: Validation) {
    "risk_level" in v && v["risk_level"] == "1"
  }

  /** The money was taken, it is the right money, and nobody asks for review. */
  predicate Pays(v: Validation, o: Order) {
    SaysTaken(v) && Agrees(v, o.amountPaisa, o.currency) && !Risky(v)
  }

  lemma PassesIsPays(v: Validation, o: Order)
    ensures Passes(v, o) <==> Pays(v, o)
  {
    SucceededSaysTaken(v);
    MatchesAgrees(v, o.amountPaisa, o.currency);
  }

  /** What an answer makes of an order: paid only when it pays, held only for review, failed for every other status or
      sum; the answer is kept, and its handles, and what was agreed stays. */
  predicate SettledBy(o: Order, v: Validation, now: real, after: Order) {
    && after.status == (if Pays(v, o) then Paid
                        else if SaysTaken(v) && Agrees(v, o.amountPaisa, o.currency) then Pending
                        else Failed)
    && after.payload == Some(v)
    && after.paidAt == (if Pays(v, o) then Some(now) else o.paidAt)
    && after.valId == (if "val_id" in v && v["val_id"] != "" then Some(v["val_id"]) else o.valId)
    && after.bankTranId == (if "bank_tran_id" in v then Some(v["bank_tran_id"]) else None)
    && after.cardType == (if "card_type" in v then Some(v["card_type"]) else None)
    && SameDeal(after, o)
  }

  /** What settling sells: the order's product to the order's student, all rides left, valid from now for the product's
      whole days. */
  predicate TicketOf(id: nat, o: Order, p: Product, now: real, t: Ticket) {
    && t.order == id && t.student == o.student && t.product == o.product
    && t.ridesTotal == p.rideCount && t.ridesRemaining == p.rideCount
    && t.validFrom == now && t.validTo == now + p.validityDays as real * 86400.0
  }

  /** One ticket is staged when the answer pays, none when it does not. */
  predicate Sells(id: nat, o: Order, p: Product, v: Validation, now: real, staged: seq<Ticket>) {
    if Pays(v, o) then |staged| == 1 && TicketOf(id, o, p, now, staged[0]) else staged == []
  }

  lemma AnswerSettles(id: nat, o: Order, p: Product, v: Validation, now: real)
    ensures SettledBy(o, v, now, Decided(o, Answer(v), now))
    ensures Sells(id, o, p, v, now, if Issues(o, Answer(v)) then [TicketFor(id, o, p, now)] else [])
  {
    PassesIsPays(v, o);
    SucceededSaysTaken(v);
    MatchesAgrees(v, o.amountPaisa, o.currency);
  }

  /** So an unpaid order is paid and ticketed if and only if the status reads valid or validated, amount and currency
      agree and the risk level is not 1. */
  lemma PaidIffTheAnswerSaysSo(shop: Shop, id: nat, v: Validation, now: real)
    requires id in shop.orders && shop.orders[id].product in shop.products && shop.orders[id].status != Paid
    ensures var o, t := shop.orders[id], Apply(shop, Load(shop, [id]), id, Answer(v), now);
      && id in t.work
      && (t.work[id].status == Paid <==> SaysTaken(v) && Agrees(v, o.amountPaisa, o.currency) && !Risky(v))
      && |t.staged| == (if t.work[id].status == Paid then 1 else 0)
      && (!SaysTaken(v) ==> t.work[id].status == Failed && t.staged == [])
  {
    AnswerSettles(id, shop.orders[id], shop.products[shop.orders[id].product], v, now);
  }

  /** Under any interleaving, every ticketed order heard an answer that says the money was taken, in the right sum,
      without risk. */
  lemma TicketsHeardMoney(s: State, i: nat)
    requires Reachable(false, s) && i < |s.shop.tickets|
    ensures var id := s.shop.tickets[i].order;
      && id in s.shop.orders
      && exists v :: (id, v) in s.heard && Pays(v, s.shop.orders[id])
  {
    TicketsArePaidFor(s);
    var id := s.shop.tickets[i].order;
    assert TicketPaidFor(s, s.shop.tickets[i]);
    var v :| (id, v) in s.heard && Passes(v, s.shop.orders[id]);
    PassesIsPays(v, s.shop.orders[id]);
  }

  // ----- what a ticket is

  predicate WholeDays(t: Ticket, days: nat) {
    t.validTo == t.validFrom + days as real * 86400.0
  }

  /** It carries its order's student and product, all its rides, and some number of whole days. */
  ghost predicate Fair(orders: map<nat, Order>, t: Ticket) {
    && t.order in orders && t.student == orders[t.order].student && t.product == orders[t.order].product
    && t.ridesRemaining == t.ridesTotal
    && exists days :: WholeDays(t, days)
  }

  ghost predicate AllFair(orders: map<nat, Order>, tickets: seq<Ticket>) {
    forall i :: 0 <= i < |tickets| ==> Fair(orders, tickets[i])
  }

  ghost predicate TicketsFair(s: State) {
    AllFair(s.shop.orders, s.shop.tickets) && forall j :: j in s.jobs ==> AllFair(s.shop.orders, s.jobs[j].txn.staged)
  }

  lemma FairStays(s: State, t: State, tickets: seq<Ticket>)
    requires AllFair(s.shop.orders, tickets) && Grows(s, t)
    ensures AllFair(t.shop.orders, tickets)
  {
    forall i | 0 <= i < |tickets| ensures Fair(t.shop.orders, tickets[i]) {
      assert Fair(s.shop.orders, tickets[i]);
    }
  }

  lemma StepGrows(s: State, a: Action)
    requires Inv(s) && Enabled(false, s, a)
    ensures Grows(s, Next(s, a))
  {
    match a
    case Finish(job) => FinishGrows(s, Next(s, a), job);
    case Decide(job, id, d, now) => DecideGrows(s, Next(s, a), job, id, d, now);
    case _ =>
  }

  lemma IssuedIsFair(orders: map<nat, Order>, id: nat, o: Order, p: Product, now: real)
    requires id in orders && SameDeal(o, orders[id])
    ensures Fair(orders, TicketFor(id, o, p, now))
  {
    assert WholeDays(TicketFor(id, o, p, now), p.validityDays);
  }

  lemma DecideFair(s: State, job: nat, id: nat, d: Decision, now: real)
    requires Inv(s) && TicketsFair(s) && Enabled(false, s, Decide(job, id, d, now))
    ensures TicketsFair(Next(s, Decide(job, id, d, now)))
  {
    var t := Next(s, Decide(job, id, d, now));
    DecideGrows(s, t, job, id, d, now);
    var o := s.jobs[job].txn.work[id];
    assert JobMakesSense(s, s.jobs[job]) && OrderInJob(s, s.jobs[job], id);
    IssuedIsFair(s.shop.orders, id, o, s.shop.products[o.product], now);
    forall j | j in t.jobs ensures AllFair(t.shop.orders, t.jobs[j].txn.staged) {
      assert AllFair(s.shop.orders, s.jobs[j].txn.staged);
    }
  }

  lemma FairStep(s: State, a: Action)
    requires Inv(s) && TicketsFair(s) && Enabled(false, s, a)
    ensures TicketsFair(Next(s, a))
  {
    if a.Decide? {
      DecideFair(s, a.job, a.id, a.decision, a.now);
    } else {
      var t := Next(s, a);
      StepGrows(s, a);
      FairStays(s, t, s.shop.tickets);
      forall j | j in s.jobs ensures AllFair(t.shop.orders, s.jobs[j].txn.staged) {
        FairStays(s, t, s.jobs[j].txn.staged);
      }
    }
  }

  /** Every ticket of every reachable shop is its order's: same student and product, sold full, for whole days. */
  lemma TicketsAreFair(s: State, i: nat)
    requires Reachable(false, s) && i < |s.shop.tickets|
    ensures Fair(s.shop.orders, s.shop.tickets[i])
  {
    var s0, actions :|
      Init(s0) && Runs.Legal(Enabling(false), Next, s0, actions) && s == Runs.After(Next, s0, actions);
    var inv := (t: State) => Inv(t) && TicketsFair(t);
    forall t, a | inv(t) && Enabling(false)(t, a) ensures inv(Next(t, a)) {
      NextInv(t, a);
      FairStep(t, a);
    }
    Runs.InvariantOverRuns(inv, Enabling(false), Next, s0, actions);
  }

  /** The ticket as boarding knows it: active, under the public half of its own key. */
  function ForBoarding(t: Ticket, publicKey: string): Ledger.Ticket {
    Ledger.Ticket(t.ridesTotal, t.ridesRemaining, t.validFrom, t.validTo, publicKey, Ledger.Active)
  }

  /** What settlement sells is what the ledger takes as issued, for every product of at least one ride. */
  lemma SoldIsIssued(s: State, i: nat, publicKey: string)
    requires Reachable(false, s) && i < |s.shop.tickets|
    requires s.shop.tickets[i].ridesTotal.Some? ==> s.shop.tickets[i].ridesTotal.value >= 1
    ensures LedgerRuns.AsIssued(ForBoarding(s.shop.tickets[i], publicKey))
  {
    TicketsAreFair(s, i);
    var days :| WholeDays(s.shop.tickets[i], days);
  }

  // ----- what one answer leaves in the tables

  /** What a session loaded and nobody else touched is written as the session left it. */
  lemma WrittenBack(o: Order, after: Order)
    requires SameDeal(after, o)
    ensures Written(o, o, after) == after
  {}
}
