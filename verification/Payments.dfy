/** Order settlement as a protocol: browser returns, IPNs, reconciler passes and checkout retries, each a transaction
    that reads orders, asks the gateway, and commits. `atomic` says whether handlers may overlap. */
module Payments {
  import opened Money
  import opened Settlement
  import Runs

  /** A retry found its order by idempotency key; an overtaken creation lost the insert race and opens a session for the
      order that won, without looking at its status. */
  datatype Kind = Report | Pass | Retry | Overtaken

  /** A handler between its read and its commit; `todo` are the orders it has yet to decide. */
  datatype Job = Job(kind: Kind, txn: Txn, todo: set<nat>)

  datatype State = State(shop: Shop, jobs: map<nat, Job>, heard: set<(nat, Validation)>)

  datatype Action =
    | PutProduct(product: nat, details: Product)
    | NewOrder(id: nat, order: Order)
    | Begin(job: nat, kind: Kind, ids: seq<nat>, cutoff: real)
    | Decide(job: nat, id: nat, decision: Decision, now: real)
    | Finish(job: nat)
    | Drop(job: nat)               // the request dies before its commit

  ghost predicate Init(s: State) {
    s.shop.orders == map[] && s.shop.tickets == [] && s.jobs == map[] && s.heard == {}
  }

  /** Which decisions each kind of handler can take. */
  predicate Allowed(kind: Kind, d: Decision) {
    match kind
    case Report => d.Close? || d.Answer?
    case Pass => d.Answer? || d.Abandon? || d.Leave?
    case Retry => d.Checkout?
    case Overtaken => d.Checkout?
  }

  /** A report stops at a paid order, a retry refuses one, a pass never selects one. */
  predicate Readable(kind: Kind, o: Order, cutoff: real) {
    match kind
    case Report => o.status != Paid
    case Pass => Unsettled(o, cutoff)
    case Retry => o.status != Paid
    case Overtaken => true
  }

  ghost predicate Enabled(atomic: bool, s: State, a: Action) {
    match a
    case PutProduct(_, _) => true
    case NewOrder(id, o) =>
      && id !in s.shop.orders && o.product in s.shop.products && s.shop.products[o.product].active
      && o.amountPaisa == s.shop.products[o.product].pricePaisa && o.currency == "BDT"
      && o.status == Initiated && o.payload.None? && o.paidAt.None?
      && forall k :: k in s.shop.orders ==>
           s.shop.orders[k].idempotencyKey != o.idempotencyKey && s.shop.orders[k].tranId != o.tranId
    case Begin(job, kind, ids, cutoff) =>
      && job !in s.jobs && (atomic ==> s.jobs == map[] && kind != Overtaken)
      && (kind == Pass ==> |ids| <= BATCH) && (kind != Pass ==> |ids| == 1)
      && forall id :: id in ids ==> id in s.shop.orders && Readable(kind, s.shop.orders[id], cutoff)
    case Decide(job, id, d, now) => job in s.jobs && id in s.jobs[job].todo && Allowed(s.jobs[job].kind, d)
    case Finish(job) => job in s.jobs && s.jobs[job].todo == {}
    case Drop(job) => job in s.jobs
  }

  function Next(s: State, a: Action): State {
    match a
    case PutProduct(product, details) =>
      s.(shop := s.shop.(products := s.shop.products[product := details]))
    case NewOrder(id, o) => s.(shop := s.shop.(orders := s.shop.orders[id := o]))
    case Begin(job, kind, ids, _) =>
      if exists id :: id in ids && id !in s.shop.orders then s
      else s.(jobs := s.jobs[job := Job(kind, Load(s.shop, ids), set id | id in ids)])
    case Decide(job, id, d, now) =>
      if job !in s.jobs || id !in s.jobs[job].txn.work
        || s.jobs[job].txn.work[id].product !in s.shop.products then s
      else
        var j := s.jobs[job];
        s.(jobs := s.jobs[job := j.(txn := Apply(s.shop, j.txn, id, d, now), todo := j.todo - {id})],
           heard := if d.Answer? then s.heard + {(id, d.validation)} else s.heard)
    case Finish(job) =>
      if job !in s.jobs then s
      else s.(shop := Commit(s.shop, s.jobs[job].txn), jobs := s.jobs - {job})
    case Drop(job) => s.(jobs := s.jobs - {job})
  }

  ghost function Enabling(atomic: bool): (State, Action) -> bool {
    (s, a) => Enabled(atomic, s, a)
  }

  ghost predicate Reachable(atomic: bool, s: State) {
    exists s0, actions ::
      Init(s0) && Runs.Legal(Enabling(atomic), Next, s0, actions) && s == Runs.After(Next, s0, actions)
  }

  // ----- what holds under any interleaving

  /** What an order agreed to never changes. */
  predicate SameDeal(o: Order, p: Order) {
    && o.student == p.student && o.product == p.product && o.amountPaisa == p.amountPaisa
    && o.currency == p.currency && o.idempotencyKey == p.idempotencyKey && o.tranId == p.tranId
    && o.createdAt == p.createdAt
  }

  predicate Staged(t: Txn, id: nat) {
    HasTicket(t.staged, id)
  }

  /** One loaded order: undecided as loaded, or decided; a ticket is staged exactly when it was decided paid, and then
      on an answer that passes and was heard. */
  ghost predicate OrderInJob(s: State, j: Job, id: nat)
    requires id in j.txn.snap && id in j.txn.work
  {
    var before, after := j.txn.snap[id], j.txn.work[id];
    && id in s.shop.orders && SameDeal(before, s.shop.orders[id]) && SameDeal(after, before)
    && (before.status == Paid ==> j.kind == Overtaken) && before.status != Refunded && after.status != Refunded
    && (id in j.todo ==> after == before)
    && (Staged(j.txn, id) <==> after.status == Paid && before.status != Paid)
    && (after.payload.Some? ==> (id, after.payload.value) in s.heard)
    && (Staged(j.txn, id) ==> after.payload.Some? && Passes(after.payload.value, after))
  }

  ghost predicate JobMakesSense(s: State, j: Job) {
    && j.txn.work.Keys == j.txn.snap.Keys && j.todo <= j.txn.snap.Keys
    && (forall id :: id in j.txn.snap ==> OrderInJob(s, j, id))
    && (forall i :: 0 <= i < |j.txn.staged| ==> j.txn.staged[i].order in j.txn.snap)
    && OneTicketPerOrder(j.txn.staged)
  }

  /** A ticket belongs to an order for which some gateway answer passed all checks. */
  ghost predicate TicketPaidFor(s: State, t: Ticket) {
    && t.order in s.shop.orders
    && exists v :: (t.order, v) in s.heard && Passes(v, s.shop.orders[t.order])
  }

  ghost predicate OrderSafe(s: State, id: nat)
    requires id in s.shop.orders
  {
    var o := s.shop.orders[id];
    && o.product in s.shop.products && o.status != Refunded
    && (o.payload.Some? ==> (id, o.payload.value) in s.heard)
    && (o.status == Paid ==> HasTicket(s.shop.tickets, id))
  }

  ghost predicate Safe(s: State) {
    && OneTicketPerOrder(s.shop.tickets)
    && (forall i :: 0 <= i < |s.shop.tickets| ==> TicketPaidFor(s, s.shop.tickets[i]))
    && (forall id :: id in s.shop.orders ==> OrderSafe(s, id))
    && DistinctKeys(s.shop.orders)
  }

  /** No two orders share an idempotency key or a transaction id. */
  ghost predicate DistinctKeys(orders: map<nat, Order>) {
    forall id, k :: id in orders && k in orders && id != k ==>
      orders[id].idempotencyKey != orders[k].idempotencyKey && orders[id].tranId != orders[k].tranId
  }

  ghost predicate Inv(s: State) {
    Safe(s) && forall j :: j in s.jobs ==> JobMakesSense(s, s.jobs[j])
  }

  /** Orders and answers only accumulate, and deals stay as they are. */
  ghost predicate Grows(s: State, t: State) {
    && (forall id :: id in s.shop.orders ==> id in t.shop.orders && SameDeal(s.shop.orders[id], t.shop.orders[id]))
    && s.heard <= t.heard
  }

  lemma JobKept(s: State, t: State, j: Job)
    requires JobMakesSense(s, j) && Grows(s, t)
    ensures JobMakesSense(t, j)
  {
    forall id | id in j.txn.snap ensures OrderInJob(t, j, id) {
      assert OrderInJob(s, j, id);
    }
  }

  lemma BeginJob(s: State, kind: Kind, ids: seq<nat>, cutoff: real)
    requires Safe(s)
    requires forall id :: id in ids ==> id in s.shop.orders && Readable(kind, s.shop.orders[id], cutoff)
    ensures JobMakesSense(s, Job(kind, Load(s.shop, ids), set id | id in ids))
  {
    var j := Job(kind, Load(s.shop, ids), set id | id in ids);
    forall id | id in j.txn.snap ensures OrderInJob(s, j, id) {
      LoadedOrder(s, j, id, cutoff);
    }
  }

  lemma LoadedOrder(s: State, j: Job, id: nat, cutoff: real)
    requires id in s.shop.orders && OrderSafe(s, id) && Readable(j.kind, s.shop.orders[id], cutoff)
    requires id in j.txn.snap && id in j.txn.work && j.txn.snap[id] == j.txn.work[id] == s.shop.orders[id]
    requires j.txn.staged == []
    ensures OrderInJob(s, j, id)
  {}

  lemma DecideJob(s: State, t: State, job: nat, id: nat, d: Decision, now: real)
    requires job in s.jobs && JobMakesSense(s, s.jobs[job]) && Enabled(false, s, Decide(job, id, d, now))
    requires s.jobs[job].txn.work[id].product in s.shop.products
    requires t == Next(s, Decide(job, id, d, now))
    ensures JobMakesSense(t, t.jobs[job])
  {
    var j, j' := s.jobs[job], t.jobs[job];
    var o := j.txn.work[id];
    var ticket := TicketFor(id, o, s.shop.products[o.product], now);
    StagedAfter(j.txn.staged, ticket);
    assert OrderInJob(s, j, id);
    DecidedOrder(s, t, j, j', id, d, now);
    forall k | k in j'.txn.snap && k != id ensures OrderInJob(t, j', k) {
      assert OrderInJob(s, j, k);
      OtherOrder(s, t, j, j', id, k);
    }
    assert !HasTicket(j.txn.staged, id);
  }

  lemma DecidedOrder(s: State, t: State, j: Job, j': Job, id: nat, d: Decision, now: real)
    requires id in j.todo && id in j.txn.snap && id in j.txn.work && OrderInJob(s, j, id)
    requires Allowed(j.kind, d) && j'.kind == j.kind
    requires j'.txn.snap == j.txn.snap && id in j'.txn.work && id !in j'.todo
    requires j'.txn.work[id] == Decided(j.txn.work[id], d, now)
    requires HasTicket(j'.txn.staged, id) <==> Issues(j.txn.work[id], d)
    requires t.shop == s.shop && t.heard == if d.Answer? then s.heard + {(id, d.validation)} else s.heard
    ensures OrderInJob(t, j', id)
  {
    if j.txn.work[id].status != Paid {
      PaidIffPasses(j.txn.work[id], d, now);
    }
  }

  lemma OtherOrder(s: State, t: State, j: Job, j': Job, id: nat, k: nat)
    requires k != id && k in j.txn.snap && k in j.txn.work && OrderInJob(s, j, k) && j'.kind == j.kind
    requires j'.txn.snap == j.txn.snap && k in j'.txn.work && j'.txn.work[k] == j.txn.work[k]
    requires j'.todo <= j.todo && (HasTicket(j'.txn.staged, k) <==> HasTicket(j.txn.staged, k))
    requires t.shop == s.shop && s.heard <= t.heard
    ensures OrderInJob(t, j', k)
  {}

  lemma StagedAfter(staged: seq<Ticket>, t: Ticket)
    ensures forall k :: HasTicket(staged + [t], k) <==> HasTicket(staged, k) || k == t.order
  {
    forall k | HasTicket(staged, k) ensures HasTicket(staged + [t], k) {
      var i :| 0 <= i < |staged| && staged[i].order == k;
      assert (staged + [t])[i].order == k;
    }
    assert (staged + [t])[|staged|].order == t.order;
  }

  lemma FinishGrows(s: State, t: State, job: nat)
    requires job in s.jobs && JobMakesSense(s, s.jobs[job]) && t == Next(s, Finish(job))
    ensures Grows(s, t)
    ensures DistinctKeys(s.shop.orders) ==> DistinctKeys(t.shop.orders)
  {}

  lemma FinishOrders(s: State, t: State, j: Job)
    requires (forall id :: id in s.shop.orders ==> OrderSafe(s, id)) && JobMakesSense(s, j)
    requires t.shop == Commit(s.shop, j.txn) && t.heard == s.heard
    ensures forall id :: id in t.shop.orders ==> OrderSafe(t, id)
  {
    if Refused(s.shop, j.txn) {
      OrdersKept(s, t);
    } else {
      forall id | id in t.shop.orders ensures OrderSafe(t, id) {
        CommittedOrderSafe(s, t, j, id);
      }
    }
  }

  lemma FinishTickets(s: State, t: State, job: nat)
    requires Safe(s) && job in s.jobs && JobMakesSense(s, s.jobs[job]) && t == Next(s, Finish(job)) && Grows(s, t)
    ensures forall i :: 0 <= i < |t.shop.tickets| ==> TicketPaidFor(t, t.shop.tickets[i])
  {
    if Refused(s.shop, s.jobs[job].txn) {
      GrownTicketsPaidFor(s, t);
    } else {
      forall i | 0 <= i < |t.shop.tickets| ensures TicketPaidFor(t, t.shop.tickets[i]) {
        CommittedTicketPaidFor(s, t, job, i);
      }
    }
  }

  lemma FinishSafe(s: State, t: State, job: nat)
    requires Safe(s) && job in s.jobs && JobMakesSense(s, s.jobs[job]) && t == Next(s, Finish(job))
    ensures Safe(t) && Grows(s, t)
  {
    FinishGrows(s, t, job);
    FinishOrders(s, t, s.jobs[job]);
    FinishTickets(s, t, job);
  }

  lemma MoreTickets(a: seq<Ticket>, b: seq<Ticket>, id: nat)
    ensures HasTicket(a + b, id) <==> HasTicket(a, id) || HasTicket(b, id)
  {
    forall i | 0 <= i < |b| ensures (a + b)[|a| + i] == b[i] {}
    forall i | 0 <= i < |a| ensures (a + b)[i] == a[i] {}
  }

  lemma CommittedOrderSafe(s: State, t: State, j: Job, id: nat)
    requires id in s.shop.orders && OrderSafe(s, id) && JobMakesSense(s, j) && !Refused(s.shop, j.txn)
    requires t.shop == Commit(s.shop, j.txn) && t.heard == s.heard
    ensures OrderSafe(t, id)
  {
    MoreTickets(s.shop.tickets, j.txn.staged, id);
    assert id in j.txn.snap ==> OrderInJob(s, j, id);
  }

  lemma OldTicketPaidFor(s: State, t: State, ticket: Ticket)
    requires TicketPaidFor(s, ticket) && Grows(s, t)
    ensures TicketPaidFor(t, ticket)
  {
    var v :| (ticket.order, v) in s.heard && Passes(v, s.shop.orders[ticket.order]);
    assert Passes(v, t.shop.orders[ticket.order]);
  }

  lemma NewTicketPaidFor(s: State, t: State, j: Job, ticket: Ticket)
    requires ticket in j.txn.staged && ticket.order in j.txn.snap && ticket.order in j.txn.work
    requires OrderInJob(s, j, ticket.order) && Grows(s, t)
    ensures TicketPaidFor(t, ticket)
  {
    assert HasTicket(j.txn.staged, ticket.order);
    var v := j.txn.work[ticket.order].payload.value;
    assert Passes(v, t.shop.orders[ticket.order]);
  }

  lemma CommittedTicketPaidFor(s: State, t: State, job: nat, i: nat)
    requires Safe(s) && job in s.jobs && JobMakesSense(s, s.jobs[job]) && t == Next(s, Finish(job)) && Grows(s, t)
    requires !Refused(s.shop, s.jobs[job].txn) && i < |t.shop.tickets|
    ensures TicketPaidFor(t, t.shop.tickets[i])
  {
    var txn := s.jobs[job].txn;
    if i < |s.shop.tickets| {
      OldTicketPaidFor(s, t, s.shop.tickets[i]);
    } else {
      NewTicketPaidFor(s, t, s.jobs[job], txn.staged[i - |s.shop.tickets|]);
    }
  }

  lemma GrownTicketsPaidFor(s: State, t: State)
    requires Safe(s) && Grows(s, t) && t.shop.tickets == s.shop.tickets
    ensures forall i :: 0 <= i < |t.shop.tickets| ==> TicketPaidFor(t, t.shop.tickets[i])
  {
    forall i | 0 <= i < |t.shop.tickets| ensures TicketPaidFor(t, t.shop.tickets[i]) {
      OldTicketPaidFor(s, t, s.shop.tickets[i]);
    }
  }

  lemma GrownSafe(s: State, t: State)
    requires Safe(s) && Grows(s, t) && t.shop.tickets == s.shop.tickets && DistinctKeys(t.shop.orders)
    requires forall id :: id in t.shop.orders ==> OrderSafe(t, id)
    ensures Safe(t)
  {
    GrownTicketsPaidFor(s, t);
  }

  /** Hearing more about orders that stay as they are harms none. */
  lemma OrdersKept(s: State, t: State)
    requires t.shop == s.shop && s.heard <= t.heard
    requires forall id :: id in s.shop.orders ==> OrderSafe(s, id)
    ensures forall id :: id in t.shop.orders ==> OrderSafe(t, id)
  {
    forall id | id in t.shop.orders ensures OrderSafe(t, id) {
      assert OrderSafe(s, id);
    }
  }

  lemma JobsKept(s: State, t: State, job: int)
    requires Grows(s, t) && forall j :: j in s.jobs ==> JobMakesSense(s, s.jobs[j])
    requires forall j :: j in t.jobs && j != job ==> j in s.jobs && t.jobs[j] == s.jobs[j]
    requires job in t.jobs ==> JobMakesSense(t, t.jobs[job])
    ensures forall j :: j in t.jobs ==> JobMakesSense(t, t.jobs[j])
  {
    forall j | j in t.jobs ensures JobMakesSense(t, t.jobs[j]) {
      if j != job {
        JobKept(s, t, s.jobs[j]);
      }
    }
  }

  lemma DecidesInSession(s: State, t: State, job: nat, id: nat, d: Decision, now: real)
    requires job in s.jobs && id in s.jobs[job].txn.work && t == Next(s, Decide(job, id, d, now))
    ensures t.shop == s.shop && s.heard <= t.heard && t.jobs.Keys == s.jobs.Keys
    ensures forall j :: j in s.jobs && j != job ==> t.jobs[j] == s.jobs[j]
  {}

  /** A decision is taken in the session: only what was heard and the session itself change. */
  lemma DecideGrows(s: State, t: State, job: nat, id: nat, d: Decision, now: real)
    requires Inv(s) && Enabled(false, s, Decide(job, id, d, now)) && t == Next(s, Decide(job, id, d, now))
    ensures id in s.jobs[job].txn.work && s.jobs[job].txn.work[id].product in s.shop.products
    ensures t.shop == s.shop && Grows(s, t) && t.jobs.Keys == s.jobs.Keys
    ensures forall j :: j in s.jobs && j != job ==> t.jobs[j] == s.jobs[j]
  {
    assert JobMakesSense(s, s.jobs[job]);
    assert OrderInJob(s, s.jobs[job], id) && OrderSafe(s, id);
    DecidesInSession(s, t, job, id, d, now);
  }

  lemma DecideInv(s: State, job: nat, id: nat, d: Decision, now: real)
    requires Inv(s) && Enabled(false, s, Decide(job, id, d, now))
    ensures Inv(Next(s, Decide(job, id, d, now)))
  {
    var t := Next(s, Decide(job, id, d, now));
    DecideGrows(s, t, job, id, d, now);
    OrdersKept(s, t);
    DecideJob(s, t, job, id, d, now);
    GrownSafe(s, t);
    JobsKept(s, t, job);
  }

  lemma BeginInv(s: State, job: nat, kind: Kind, ids: seq<nat>, cutoff: real)
    requires Inv(s) && Enabled(false, s, Begin(job, kind, ids, cutoff))
    ensures Inv(Next(s, Begin(job, kind, ids, cutoff)))
  {
    var t := Next(s, Begin(job, kind, ids, cutoff));
    BeginJob(s, kind, ids, cutoff);
    OrdersKept(s, t);
    GrownSafe(s, t);
    JobKept(s, t, t.jobs[job]);
    JobsKept(s, t, job);
  }

  /** New products and orders, and requests that die: nothing committed changes. */
  lemma OutsideInv(s: State, a: Action)
    requires Inv(s) && Enabled(false, s, a) && (a.PutProduct? || a.NewOrder? || a.Drop?)
    ensures Inv(Next(s, a))
  {
    var t := Next(s, a);
    forall k | k in t.shop.orders ensures OrderSafe(t, k) {
      assert k in s.shop.orders ==> OrderSafe(s, k);
    }
    GrownSafe(s, t);
    JobsKept(s, t, -1);
  }

  lemma NextInv(s: State, a: Action)
    requires Inv(s) && Enabled(false, s, a)
    ensures Inv(Next(s, a))
  {
    match a
    case Finish(job) =>
      FinishSafe(s, Next(s, a), job);
      JobsKept(s, Next(s, a), job);
    case Decide(job, id, d, now) => DecideInv(s, job, id, d, now);
    case Begin(job, kind, ids, cutoff) => BeginInv(s, job, kind, ids, cutoff);
    case _ => OutsideInv(s, a);
  }

  lemma ReachableInv(atomic: bool, s: State)
    requires Reachable(atomic, s)
    ensures Inv(s)
  {
    var s0, actions :|
      Init(s0) && Runs.Legal(Enabling(atomic), Next, s0, actions) && s == Runs.After(Next, s0, actions);
    forall t, a | Inv(t) && Enabling(atomic)(t, a) ensures Inv(Next(t, a)) {
      NextInv(t, a);
    }
    Runs.InvariantOverRuns(Inv, Enabling(atomic), Next, s0, actions);
  }
}
