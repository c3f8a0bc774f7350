/** What settlement guarantees: always, when handlers overlap, and when they do not. */
module PaymentGuarantees {
  import opened Base
  import opened Money
  import opened Settlement
  import opened Payments
  import Runs

  // ----- handlers interleaved arbitrarily

  /** No order ever gets two tickets; every ticket's order had a gateway answer that passes; a paid order has its
      ticket. */
  lemma TicketsArePaidFor(s: State)
    requires Reachable(false, s)
    ensures OneTicketPerOrder(s.shop.tickets)
    ensures forall i :: 0 <= i < |s.shop.tickets| ==> TicketPaidFor(s, s.shop.tickets[i])
    ensures forall id :: id in s.shop.orders && s.shop.orders[id].status == Paid ==> HasTicket(s.shop.tickets, id)
    ensures DistinctKeys(s.shop.orders)
  {
    ReachableInv(false, s);
    forall id | id in s.shop.orders && s.shop.orders[id].status == Paid ensures HasTicket(s.shop.tickets, id) {
      assert OrderSafe(s, id);
    }
  }

  predicate Raced(a: seq<Ticket>, b: seq<Ticket>, id: nat) {
    HasTicket(a, id) && HasTicket(b, id)
  }

  lemma ConstraintFails(a: seq<Ticket>, b: seq<Ticket>)
    requires OneTicketPerOrder(a) && OneTicketPerOrder(b)
    ensures !OneTicketPerOrder(a + b) <==> exists id :: Raced(a, b, id)
  {
    forall i, j | 0 <= i < |a| && 0 <= j < |b| && a[i].order == b[j].order
      ensures Raced(a, b, a[i].order) && !OneTicketPerOrder(a + b)
    {
      assert (a + b)[i].order == (a + b)[|a| + j].order;
    }
    if id :| Raced(a, b, id) {
      var i :| 0 <= i < |a| && a[i].order == id;
      var j :| 0 <= j < |b| && b[j].order == id;
    }
  }

  /** A commit is refused exactly when an order it would ticket has one already, and then changes nothing: the loser
      of a race leaves the winner's paid order alone. */
  lemma LoserRollsBack(s: State, job: nat)
    requires Reachable(false, s) && Enabled(false, s, Finish(job))
    ensures Refused(s.shop, s.jobs[job].txn) <==> exists id :: Raced(s.shop.tickets, s.jobs[job].txn.staged, id)
    ensures Refused(s.shop, s.jobs[job].txn) ==> Next(s, Finish(job)).shop == s.shop
    ensures !Refused(s.shop, s.jobs[job].txn) ==> forall id :: HasTicket(s.jobs[job].txn.staged, id) ==>
      && id in s.shop.orders && Next(s, Finish(job)).shop.orders[id].status == Paid
      && HasTicket(Next(s, Finish(job)).shop.tickets, id)
  {
    ReachableInv(false, s);
    var txn := s.jobs[job].txn;
    assert JobMakesSense(s, s.jobs[job]);
    ConstraintFails(s.shop.tickets, txn.staged);
    forall id | HasTicket(txn.staged, id) && !Refused(s.shop, txn)
      ensures id in s.shop.orders && Next(s, Finish(job)).shop.orders[id].status == Paid
      ensures HasTicket(Next(s, Finish(job)).shop.tickets, id)
    {
      WinnerCommits(s, job, id);
    }
  }

  lemma WinnerCommits(s: State, job: nat, id: nat)
    requires job in s.jobs && JobMakesSense(s, s.jobs[job]) && HasTicket(s.jobs[job].txn.staged, id)
    requires !Refused(s.shop, s.jobs[job].txn)
    ensures id in s.shop.orders && Next(s, Finish(job)).shop.orders[id].status == Paid
    ensures HasTicket(Next(s, Finish(job)).shop.tickets, id)
  {
    assert OrderInJob(s, s.jobs[job], id);
    MoreTickets(s.shop.tickets, s.jobs[job].txn.staged, id);
  }

  ghost predicate PaidIffTicketed(shop: Shop) {
    forall id :: id in shop.orders ==> (shop.orders[id].status == Paid <==> HasTicket(shop.tickets, id))
  }

  /** The session changed this order's status without ticketing it, while another handler ticketed it. */
  predicate Overwrites(shop: Shop, t: Txn, id: nat) {
    && id in shop.orders && id in t.snap && id in t.work && t.work[id].status != t.snap[id].status
    && !HasTicket(t.staged, id) && HasTicket(shop.tickets, id)
  }

  /** Under interleaving "paid exactly when ticketed" survives a commit if and only if the commit is refused or writes
      the status of no order that was ticketed behind its back. */
  lemma CommitKeepsEquivalenceIff(s: State, job: nat)
    requires Reachable(false, s) && Enabled(false, s, Finish(job)) && PaidIffTicketed(s.shop)
    ensures PaidIffTicketed(Next(s, Finish(job)).shop)
      <==> Refused(s.shop, s.jobs[job].txn) || forall id :: !Overwrites(s.shop, s.jobs[job].txn, id)
  {
    ReachableInv(false, s);
    var txn, shop' := s.jobs[job].txn, Next(s, Finish(job)).shop;
    if !Refused(s.shop, txn) {
      assert JobMakesSense(s, s.jobs[job]);
      forall id | id in s.shop.orders
        ensures (shop'.orders[id].status == Paid <==> HasTicket(shop'.tickets, id)) <==> !Overwrites(s.shop, txn, id)
      {
        CommittedStatus(s, job, id);
      }
    }
  }

  lemma CommittedStatus(s: State, job: nat, id: nat)
    requires job in s.jobs && JobMakesSense(s, s.jobs[job]) && id in s.shop.orders
    requires !Refused(s.shop, s.jobs[job].txn) && OneTicketPerOrder(s.shop.tickets)
    requires s.shop.orders[id].status == Paid <==> HasTicket(s.shop.tickets, id)
    ensures var shop' := Commit(s.shop, s.jobs[job].txn);
      (shop'.orders[id].status == Paid <==> HasTicket(shop'.tickets, id))
        <==> !Overwrites(s.shop, s.jobs[job].txn, id)
  {
    var txn := s.jobs[job].txn;
    MoreTickets(s.shop.tickets, txn.staged, id);
    ConstraintFails(s.shop.tickets, txn.staged);
    assert !Raced(s.shop.tickets, txn.staged, id);
    assert id in txn.snap ==> OrderInJob(s, s.jobs[job], id);
  }

  /** Whatever the interleaving, an order the reconciler no longer selects is paid or has had a gateway answer. */
  lemma OutOfReachMeansPaidOrAnswered(atomic: bool, s: State, id: nat)
    requires Reachable(atomic, s) && id in s.shop.orders && !Unconfirmed(s.shop.orders[id])
    ensures s.shop.orders[id].status == Paid || exists v :: (id, v) in s.heard && s.shop.orders[id].payload == Some(v)
  {
    ReachableInv(atomic, s);
    assert OrderSafe(s, id);
  }

  /** The session closed the order on no answer of its own, and the tables hold an answer by now. */
  predicate ClosesAnswered(shop: Shop, t: Txn, id: nat)
    requires id in shop.orders && id in t.snap && id in t.work
  {
    var before, after := t.snap[id], t.work[id];
    && after.status != before.status && (after.status == Failed || after.status == Cancelled)
    && shop.orders[id].payload.Some?
  }

  /** A commit that brings an order neither an answer nor a ticket takes it out of the reconciler's reach if and only
      if it closes it while the row, whatever the session had loaded, holds an earlier answer. */
  lemma LostByCommitIff(s: State, job: nat, id: nat)
    requires Reachable(false, s) && Enabled(false, s, Finish(job))
    requires var txn := s.jobs[job].txn;
      && !Refused(s.shop, txn) && id in txn.snap && id in txn.work
      && id in s.shop.orders && Unconfirmed(s.shop.orders[id])
      && txn.work[id].payload == txn.snap[id].payload && !HasTicket(txn.staged, id)
    ensures id in Next(s, Finish(job)).shop.orders
    ensures Unconfirmed(Next(s, Finish(job)).shop.orders[id]) <==> !ClosesAnswered(s.shop, s.jobs[job].txn, id)
  {
    ReachableInv(false, s);
    assert OrderInJob(s, s.jobs[job], id);
    AnswerlessWrite(s.shop.orders[id], s.jobs[job].txn.snap[id], s.jobs[job].txn.work[id]);
  }

  lemma AnswerlessWrite(current: Order, loaded: Order, changed: Order)
    requires Unconfirmed(current) && changed.payload == loaded.payload
    requires changed.status == loaded.status || (changed.status != Paid && changed.status != Refunded)
    ensures Unconfirmed(Written(current, loaded, changed))
      <==> || changed.status == loaded.status || current.payload.None?
           || !(changed.status == Failed || changed.status == Cancelled)
  {}

  // ----- handlers one at a time

  /** The open handler, if any, works on the tables as they are, and every paid order keeps the answer that paid it. */
  ghost predicate AtomicInv(s: State) {
    && Inv(s)
    && PaidIffTicketed(s.shop)
    && Alone(s)
    && (forall id :: id in s.shop.orders ==> PaidWithProof(s.shop.orders[id]))
  }

  /** At most one handler is open, and it loaded what the tables still hold. */
  ghost predicate Alone(s: State) {
    && (forall j, k :: j in s.jobs && k in s.jobs ==> j == k)
    && (forall j, id :: j in s.jobs && id in s.jobs[j].txn.snap ==>
          id in s.shop.orders && s.jobs[j].txn.snap[id] == s.shop.orders[id])
    && (forall j :: j in s.jobs ==> s.jobs[j].kind != Overtaken)
  }

  ghost predicate PaidWithProof(o: Order) {
    o.status == Paid ==> o.payload.Some? && Passes(o.payload.value, o)
  }

  ghost predicate PaidStays(s: State, t: State) {
    forall id :: id in s.shop.orders && s.shop.orders[id].status == Paid ==>
      id in t.shop.orders && t.shop.orders[id] == s.shop.orders[id]
  }

  lemma AtomicFinish(s: State, job: nat)
    requires AtomicInv(s) && Enabled(true, s, Finish(job))
    ensures !Refused(s.shop, s.jobs[job].txn)
    ensures AtomicInv(Next(s, Finish(job))) && PaidStays(s, Next(s, Finish(job)))
  {
    var t := Next(s, Finish(job));
    NextInv(s, Finish(job));
    StagedAreNew(s, job);
    FinishedOrders(s, t, job);
    assert t.jobs == map[];
  }

  lemma FinishedOrders(s: State, t: State, job: nat)
    requires AtomicInv(s) && job in s.jobs && !Refused(s.shop, s.jobs[job].txn) && t == Next(s, Finish(job))
    ensures PaidIffTicketed(t.shop) && PaidStays(s, t)
    ensures forall id :: id in t.shop.orders ==> PaidWithProof(t.shop.orders[id])
  {
    forall id | id in s.shop.orders ensures FinishedRight(s.shop, t.shop, id) {
      FinishedOrder(s, job, id);
    }
    AllFinishedRight(s, t);
  }

  lemma AllFinishedRight(s: State, t: State)
    requires forall id :: id in s.shop.orders ==> FinishedRight(s.shop, t.shop, id)
    requires t.shop.orders.Keys == s.shop.orders.Keys
    ensures PaidIffTicketed(t.shop) && PaidStays(s, t)
    ensures forall id :: id in t.shop.orders ==> PaidWithProof(t.shop.orders[id])
  {
    forall id | id in t.shop.orders
      ensures PaidWithProof(t.shop.orders[id])
        && (t.shop.orders[id].status == Paid <==> HasTicket(t.shop.tickets, id))
    {
      assert FinishedRight(s.shop, t.shop, id);
    }
  }

  lemma StagedAreNew(s: State, job: nat)
    requires AtomicInv(s) && job in s.jobs
    ensures !Refused(s.shop, s.jobs[job].txn)
  {
    assert JobMakesSense(s, s.jobs[job]);
    var a: seq<Ticket>, b: seq<Ticket> := s.shop.tickets, s.jobs[job].txn.staged;
    forall i, j | 0 <= i < j < |a + b| ensures (a + b)[i].order != (a + b)[j].order {
      if i < |a| <= j {
        var id := b[j - |a|].order;
        assert OrderInJob(s, s.jobs[job], id);
        assert a[i].order == id ==> HasTicket(a, id);
      }
    }
  }

  lemma FinishedOrder(s: State, job: nat, id: nat)
    requires AtomicInv(s) && job in s.jobs && id in s.shop.orders
    requires !Refused(s.shop, s.jobs[job].txn)
    ensures FinishedRight(s.shop, Commit(s.shop, s.jobs[job].txn), id)
  {
    var j := s.jobs[job];
    assert JobMakesSense(s, j) && PaidWithProof(s.shop.orders[id]);
    assert id in j.txn.snap ==> OrderInJob(s, j, id);
    OneOrderFinished(s, j, id);
  }

  /** Afterwards an order is paid exactly when ticketed, on a passing answer, and one that was paid is as it was. */
  ghost predicate FinishedRight(shop: Shop, shop': Shop, id: nat)
    requires id in shop.orders
  {
    && id in shop'.orders
    && (shop'.orders[id].status == Paid <==> HasTicket(shop'.tickets, id))
    && PaidWithProof(shop'.orders[id])
    && (shop.orders[id].status == Paid ==> shop'.orders[id] == shop.orders[id])
  }

  lemma OneOrderFinished(s: State, j: Job, id: nat)
    requires id in s.shop.orders && PaidWithProof(s.shop.orders[id]) && !Refused(s.shop, j.txn)
    requires s.shop.orders[id].status == Paid <==> HasTicket(s.shop.tickets, id)
    requires HasTicket(j.txn.staged, id) ==> id in j.txn.snap
    requires id in j.txn.snap ==>
      id in j.txn.work && j.txn.snap[id] == s.shop.orders[id] && j.kind != Overtaken && OrderInJob(s, j, id)
    ensures FinishedRight(s.shop, Commit(s.shop, j.txn), id)
  {
    MoreTickets(s.shop.tickets, j.txn.staged, id);
  }

  lemma AtomicDecide(s: State, job: nat, id: nat, d: Decision, now: real)
    requires AtomicInv(s) && Enabled(true, s, Decide(job, id, d, now))
    ensures var t := Next(s, Decide(job, id, d, now)); t.shop == s.shop && AtomicInv(t)
  {
    var t := Next(s, Decide(job, id, d, now));
    DecideInv(s, job, id, d, now);
    DecideGrows(s, t, job, id, d, now);
    StillAlone(s, t);
  }

  /** Deciding, and what happens outside every handler, leave the open handler's load as it was. */
  lemma StillAlone(s: State, t: State)
    requires Alone(s)
    requires forall id :: id in s.shop.orders ==> id in t.shop.orders && t.shop.orders[id] == s.shop.orders[id]
    requires forall j :: j in t.jobs ==>
      j in s.jobs && t.jobs[j].txn.snap == s.jobs[j].txn.snap && t.jobs[j].kind == s.jobs[j].kind
    ensures Alone(t)
  {}

  lemma AtomicBegin(s: State, job: nat, kind: Kind, ids: seq<nat>, cutoff: real)
    requires AtomicInv(s) && Enabled(true, s, Begin(job, kind, ids, cutoff))
    ensures var t := Next(s, Begin(job, kind, ids, cutoff)); t.shop == s.shop && AtomicInv(t)
  {
    BeginInv(s, job, kind, ids, cutoff);
  }

  lemma AtomicOutside(s: State, a: Action)
    requires AtomicInv(s) && Enabled(true, s, a) && (a.PutProduct? || a.NewOrder? || a.Drop?)
    ensures AtomicInv(Next(s, a)) && PaidStays(s, Next(s, a))
  {
    OutsideInv(s, a);
    NewOrderUnticketed(s);
    OrdersOutside(s, Next(s, a), a);
    StillAlone(s, Next(s, a));
  }

  lemma OrdersOutside(s: State, t: State, a: Action)
    requires PaidIffTicketed(s.shop) && forall id :: id in s.shop.orders ==> PaidWithProof(s.shop.orders[id])
    requires Enabled(true, s, a) && (a.PutProduct? || a.NewOrder? || a.Drop?) && t == Next(s, a)
    requires forall id :: id !in s.shop.orders ==> !HasTicket(s.shop.tickets, id)
    ensures PaidIffTicketed(t.shop) && PaidStays(s, t)
    ensures forall id :: id in t.shop.orders ==> PaidWithProof(t.shop.orders[id])
  {}

  lemma AtomicNext(s: State, a: Action)
    requires AtomicInv(s) && Enabled(true, s, a)
    ensures AtomicInv(Next(s, a)) && PaidStays(s, Next(s, a))
  {
    match a
    case Finish(job) => AtomicFinish(s, job);
    case Decide(job, id, d, now) => AtomicDecide(s, job, id, d, now);
    case Begin(job, kind, ids, cutoff) => AtomicBegin(s, job, kind, ids, cutoff);
    case _ => AtomicOutside(s, a);
  }

  lemma NewOrderUnticketed(s: State)
    requires Safe(s)
    ensures forall id :: id !in s.shop.orders ==> !HasTicket(s.shop.tickets, id)
  {
    forall i | 0 <= i < |s.shop.tickets| ensures s.shop.tickets[i].order in s.shop.orders {
      assert TicketPaidFor(s, s.shop.tickets[i]);
    }
  }

  lemma AtomicReachable(s: State)
    requires Reachable(true, s)
    ensures AtomicInv(s)
  {
    var s0, actions :|
      Init(s0) && Runs.Legal(Enabling(true), Next, s0, actions) && s == Runs.After(Next, s0, actions);
    forall t, a | AtomicInv(t) && Enabling(true)(t, a) ensures AtomicInv(Next(t, a)) {
      AtomicNext(t, a);
    }
    Runs.InvariantOverRuns(AtomicInv, Enabling(true), Next, s0, actions);
  }

  /** With handlers atomic an order is paid exactly when it has a ticket, and then exactly one, and the answer stored
      with it passes every check. */
  lemma PaidExactlyWhenTicketed(s: State, id: nat)
    requires Reachable(true, s) && id in s.shop.orders
    ensures s.shop.orders[id].status == Paid <==> HasTicket(s.shop.tickets, id)
    ensures OneTicketPerOrder(s.shop.tickets)
    ensures s.shop.orders[id].status == Paid ==>
      s.shop.orders[id].payload.Some? && Passes(s.shop.orders[id].payload.value, s.shop.orders[id])
  {
    AtomicReachable(s);
    assert PaidWithProof(s.shop.orders[id]);
  }

  /** With handlers atomic no step touches a paid order and no commit, a whole reconciler pass included, is refused. */
  lemma PaidIsFinal(s: State, a: Action)
    requires Reachable(true, s) && Enabled(true, s, a)
    ensures PaidStays(s, Next(s, a))
    ensures a.Finish? ==> !Refused(s.shop, s.jobs[a.job].txn)
  {
    AtomicReachable(s);
    AtomicNext(s, a);
    if a.Finish? {
      StagedAreNew(s, a.job);
    }
  }
}
