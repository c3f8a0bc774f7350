/** What overlapping handlers can do to a paid order, and what that does to a reconciler pass. */
module PaymentRaces {
  import opened Base
  import opened Money
  import opened Settlement
  import opened Payments
  import opened PaymentGuarantees
  import Runs

  // ----- a late write over a payment

  const PRODUCT := Product(3000, Some(10), 30, true)
  const ORDER :=
    Order(1, 1, 3000, "BDT", "key-0001", "UT-1", 0.0, Initiated, None, None, None, None, None)

  /** The handler that commits last: what it is, what it decides and the status it writes. */
  datatype Latecomer = Latecomer(kind: Kind, decision: Decision, status: OrderStatus)

  const FAILURE := Latecomer(Report, Close(false), Failed)
  const CHECKOUT := Latecomer(Retry, Checkout, Pending)

  /** One order at a time, no answer of its own, and a status that is neither the first nor the paid one. */
  predicate Overwriter(l: Latecomer) {
    && (l.kind == Report || l.kind == Retry) && Allowed(l.kind, l.decision) && !l.decision.Answer?
    && Decided(ORDER, l.decision, 61.0) == ORDER.(status := l.status) && l.status != Initiated && l.status != Paid
  }

  /** The latecomer reads the order, the IPN pays it with answer `v`, and the latecomer commits. */
  function LateWrite(l: Latecomer, v: Validation): seq<Action> {
    [PutProduct(1, PRODUCT), NewOrder(1, ORDER),
     Begin(1, l.kind, [1], 0.0), Begin(2, Report, [1], 0.0),
     Decide(2, 1, Answer(v), 60.0), Finish(2),
     Decide(1, 1, l.decision, 61.0), Finish(1)]
  }

  const TICKET := TicketFor(1, ORDER, PRODUCT, 60.0)

  function JobOn(kind: Kind, work: Order, staged: seq<Ticket>, todo: set<nat>): Job {
    Job(kind, Txn(map[1 := ORDER], map[1 := work], staged), todo)
  }

  /** The state before the k-th action of `LateWrite`; `paid` is the order as the answer leaves it. */
  function Trace(l: Latecomer, v: Validation, paid: Order, k: nat): State
    requires k <= 8
  {
    var order := if k < 6 then ORDER else if k < 8 then paid else paid.(status := l.status);
    var first := if k < 7 then JobOn(l.kind, ORDER, [], {1}) else JobOn(l.kind, ORDER.(status := l.status), [], {});
    var second := if k < 5 then JobOn(Report, ORDER, [], {1}) else JobOn(Report, paid, [TICKET], {});
    State(
      Shop(if k == 0 then map[] else map[1 := PRODUCT],
           if k < 2 then map[] else map[1 := order],
           if k < 6 then [] else [TICKET]),
      if k < 3 || k == 8 then map[] else if k == 4 || k == 5 then map[1 := first, 2 := second] else map[1 := first],
      if k < 5 then {} else {(1, v)})
  }

  ghost predicate StepOfTrace(l: Latecomer, v: Validation, paid: Order, k: nat)
    requires k < 8
  {
    && Enabled(false, Trace(l, v, paid, k), LateWrite(l, v)[k])
    && Next(Trace(l, v, paid, k), LateWrite(l, v)[k]) == Trace(l, v, paid, k + 1)
  }

  lemma SetupStep(l: Latecomer, v: Validation, paid: Order, k: nat)
    requires k < 2
    ensures StepOfTrace(l, v, paid, k)
  {
    if k == 0 {} else {}
  }

  lemma LoadsTheOrder(shop: Shop, kind: Kind)
    requires shop.orders == map[1 := ORDER]
    ensures Job(kind, Load(shop, [1]), set id | id in [1]) == JobOn(kind, ORDER, [], {1})
  {
    assert Load(shop, [1]).snap == map[1 := ORDER];
    assert (set id | id in [1]) == {1};
  }

  lemma BothRead(l: Latecomer, v: Validation, paid: Order, k: nat)
    requires Overwriter(l) && 2 <= k < 4
    ensures StepOfTrace(l, v, paid, k)
  {
    LoadsTheOrder(Trace(l, v, paid, k).shop, if k == 2 then l.kind else Report);
    if k == 2 {} else {}
  }

  lemma DecidesTheOrder(shop: Shop, d: Decision, now: real)
    requires shop.products == map[1 := PRODUCT]
    ensures Apply(shop, Txn(map[1 := ORDER], map[1 := ORDER], []), 1, d, now)
      == Txn(map[1 := ORDER], map[1 := Decided(ORDER, d, now)],
             if Issues(ORDER, d) then [TicketFor(1, ORDER, PRODUCT, now)] else [])
  {
    assert map[1 := ORDER][1 := Decided(ORDER, d, now)] == map[1 := Decided(ORDER, d, now)];
  }

  lemma AnswerPays(l: Latecomer, v: Validation, paid: Order)
    requires Issues(ORDER, Answer(v)) && paid == Decided(ORDER, Answer(v), 60.0)
    ensures StepOfTrace(l, v, paid, 4)
  {
    var s, j := Trace(l, v, paid, 4), JobOn(Report, ORDER, [], {1});
    DecidesTheOrder(s.shop, Answer(v), 60.0);
    Deciding(s, 2, j, 1, Answer(v), 60.0);
    assert {1} - {1} == {};
    assert Next(s, Decide(2, 1, Answer(v), 60.0)).jobs
      == map[1 := JobOn(l.kind, ORDER, [], {1}), 2 := JobOn(Report, paid, [TICKET], {})];
  }

  /** `Decide`, spelled out for a known job. */
  lemma Deciding(s: State, job: nat, j: Job, id: nat, d: Decision, now: real)
    requires job in s.jobs && s.jobs[job] == j && id in j.txn.work && j.txn.work[id].product in s.shop.products
    ensures Next(s, Decide(job, id, d, now)) == State(
      s.shop, s.jobs[job := Job(j.kind, Apply(s.shop, j.txn, id, d, now), j.todo - {id})],
      if d.Answer? then s.heard + {(id, d.validation)} else s.heard)
  {}

  lemma WinnerWrites(paid: Order)
    requires SameDeal(paid, ORDER)
    ensures Commit(Shop(map[1 := PRODUCT], map[1 := ORDER], []), JobOn(Report, paid, [TICKET], {}).txn)
      == Shop(map[1 := PRODUCT], map[1 := paid], [TICKET])
  {
    assert [] + [TICKET] == [TICKET];
    assert Written(ORDER, ORDER, paid) == paid;
  }

  lemma WinnerFinishes(l: Latecomer, v: Validation, paid: Order)
    requires SameDeal(paid, ORDER)
    ensures StepOfTrace(l, v, paid, 5)
  {
    var first := JobOn(l.kind, ORDER, [], {1});
    WinnerWrites(paid);
    assert map[1 := first, 2 := JobOn(Report, paid, [TICKET], {})] - {2} == map[1 := first];
  }

  lemma LateDecides(l: Latecomer, v: Validation, paid: Order)
    requires Overwriter(l)
    ensures StepOfTrace(l, v, paid, 6)
  {
    var s := Trace(l, v, paid, 6);
    DecidesTheOrder(s.shop, l.decision, 61.0);
    Deciding(s, 1, JobOn(l.kind, ORDER, [], {1}), 1, l.decision, 61.0);
    assert {1} - {1} == {};
    assert Next(s, Decide(1, 1, l.decision, 61.0)).jobs == map[1 := JobOn(l.kind, ORDER.(status := l.status), [], {})];
  }

  lemma LateCommit(l: Latecomer, v: Validation, paid: Order)
    requires SameDeal(paid, ORDER) && Overwriter(l)
    ensures StepOfTrace(l, v, paid, 7)
  {
    var s, t := Trace(l, v, paid, 7), Trace(l, v, paid, 8);
    var txn := s.jobs[1].txn;
    assert s.shop.tickets + txn.staged == [TICKET];
    assert Commit(s.shop, txn).orders == t.shop.orders;
    assert Next(s, Finish(1)).jobs == map[];
  }

  lemma {:induction false} TraceIsARun(l: Latecomer, v: Validation, paid: Order, k: nat)
    requires Overwriter(l) && k <= 8 && Issues(ORDER, Answer(v)) && paid == Decided(ORDER, Answer(v), 60.0)
    ensures Runs.Legal(Enabling(false), Next, Trace(l, v, paid, 0), LateWrite(l, v)[..k])
    ensures Runs.After(Next, Trace(l, v, paid, 0), LateWrite(l, v)[..k]) == Trace(l, v, paid, k)
  {
    if 0 < k {
      var i := k - 1;
      TraceIsARun(l, v, paid, i);
      assert StepOfTrace(l, v, paid, i) by {
        if i < 2 { SetupStep(l, v, paid, i); }
        else if i < 4 { BothRead(l, v, paid, i); }
        else if i == 4 { AnswerPays(l, v, paid); }
        else if i == 5 { WinnerFinishes(l, v, paid); }
        else if i == 6 { LateDecides(l, v, paid); }
        else { LateCommit(l, v, paid); }
      }
      Runs.Extend(Enabling(false), Next, Trace(l, v, paid, 0), LateWrite(l, v)[..i], LateWrite(l, v)[i]);
      assert LateWrite(l, v)[..k] == LateWrite(l, v)[..i] + [LateWrite(l, v)[i]];
    }
  }

  lemma SomeAnswerPasses() returns (v: Validation)
    ensures Passes(v, ORDER)
  {
    v := map["status" := "VALID", "currency_amount" := Render(3000), "currency_type" := "BDT"];
    UpperOfCapitals("VALID");
    RenderedAmountMatchesOnlyItself(v, 3000, 3000, "BDT");
  }

  lemma LatecomerWins(l: Latecomer) returns (s: State)
    requires Overwriter(l)
    ensures Reachable(false, s) && s.jobs == map[] && 1 in s.shop.orders && s.shop.orders[1].createdAt == 0.0
    ensures s.shop.orders[1].status == l.status && HasTicket(s.shop.tickets, 1)
  {
    var v := SomeAnswerPasses();
    var paid := Decided(ORDER, Answer(v), 60.0);
    TraceIsARun(l, v, paid, 8);
    assert LateWrite(l, v)[..8] == LateWrite(l, v);
    assert Init(Trace(l, v, paid, 0));
    s := Trace(l, v, paid, 8);
    assert s.shop.tickets[0].order == 1;
  }

  /** With overlapping handlers an order can hold its ticket and yet be marked failed. */
  lemma LateFailureOverwritesPaid() returns (s: State)
    ensures Reachable(false, s) && 1 in s.shop.orders
    ensures s.shop.orders[1].status == Failed && HasTicket(s.shop.tickets, 1)
  {
    s := LatecomerWins(FAILURE);
  }

  // ----- a ticketed order in a reconciler pass

  /** Or be marked pending by a checkout, and then the reconciler selects it. */
  lemma LateCheckoutReopensPaid(cutoff: real) returns (s: State)
    requires cutoff > 0.0
    ensures Reachable(false, s) && s.jobs == map[] && 1 in s.shop.orders
    ensures Unsettled(s.shop.orders[1], cutoff) && HasTicket(s.shop.tickets, 1)
  {
    s := LatecomerWins(CHECKOUT);
  }

  /** This handler would ticket an order that has a ticket. */
  ghost predicate Doomed(s: State, job: nat, id: nat) {
    job in s.jobs && Raced(s.shop.tickets, s.jobs[job].txn.staged, id)
  }

  /** Hearing a passing answer for a ticketed order that does not read as paid dooms the handler. */
  lemma HearingDooms(s: State, job: nat, id: nat, v: Validation, now: real)
    requires Reachable(false, s) && Enabled(false, s, Decide(job, id, Answer(v), now))
    requires HasTicket(s.shop.tickets, id) && id in s.jobs[job].txn.work && Passes(v, s.jobs[job].txn.work[id])
    ensures Doomed(Next(s, Decide(job, id, Answer(v), now)), job, id)
  {
    ReachableInv(false, s);
    var t := Next(s, Decide(job, id, Answer(v), now));
    DecideGrows(s, t, job, id, Answer(v), now);
    var o := s.jobs[job].txn.work[id];
    StagedAfter(s.jobs[job].txn.staged, TicketFor(id, o, s.shop.products[o.product], now));
  }

  /** Nothing anyone does saves a doomed handler. */
  lemma DoomedStaysDoomed(s: State, a: Action, job: nat, id: nat)
    requires Enabled(false, s, a) && Doomed(s, job, id) && job in Next(s, a).jobs
    ensures Doomed(Next(s, a), job, id)
  {
    match a
    case Finish(j) => MoreTickets(s.shop.tickets, s.jobs[j].txn.staged, id);
    case Decide(j, k, d, now) =>
      if j in s.jobs && k in s.jobs[j].txn.work && s.jobs[j].txn.work[k].product in s.shop.products {
        var o := s.jobs[j].txn.work[k];
        StagedAfter(s.jobs[j].txn.staged, TicketFor(k, o, s.shop.products[o.product], now));
      }
    case _ =>
  }

  /** Steps that do not end this handler. */
  ghost function Sparing(job: nat): (State, Action) -> bool {
    (s, a) => Enabled(false, s, a) && !((a.Finish? || a.Drop?) && a.job == job)
  }

  lemma SparedStaysOpen(s: State, a: Action, job: nat)
    requires job in s.jobs && Sparing(job)(s, a)
    ensures job in Next(s, a).jobs
  {}

  lemma DoomedStep(s: State, a: Action, job: nat, id: nat)
    requires Inv(s) && Doomed(s, job, id) && Sparing(job)(s, a)
    ensures Inv(Next(s, a)) && Doomed(Next(s, a), job, id)
  {
    SparedStaysOpen(s, a, job);
    NextInv(s, a);
    DoomedStaysDoomed(s, a, job, id);
  }

  lemma DoomedForGood(s: State, run: seq<Action>, job: nat, id: nat)
    requires Inv(s) && Doomed(s, job, id) && Runs.Legal(Sparing(job), Next, s, run)
    ensures var t := Runs.After(Next, s, run); Inv(t) && Doomed(t, job, id)
  {
    var inv := (u: State) => Inv(u) && Doomed(u, job, id);
    forall u, a | inv(u) && Sparing(job)(u, a) ensures inv(Next(u, a)) {
      DoomedStep(u, a, job, id);
    }
    Runs.InvariantOverRuns(inv, Sparing(job), Next, s, run);
  }

  lemma RacedIsRefused(shop: Shop, t: Txn, id: nat)
    requires Raced(shop.tickets, t.staged, id)
    ensures Commit(shop, t) == shop
  {
    var i :| 0 <= i < |shop.tickets| && shop.tickets[i].order == id;
    var j :| 0 <= j < |t.staged| && t.staged[j].order == id;
    var all := shop.tickets + t.staged;
    assert all[i].order == all[|shop.tickets| + j].order;
  }

  lemma FinishCommits(s: State, job: nat)
    requires job in s.jobs
    ensures Next(s, Finish(job)).shop == Commit(s.shop, s.jobs[job].txn)
  {}

  /** Whatever happens before it commits and whatever else it decides, its commit changes nothing: the other orders of a
      reconciler pass are left as they were. */
  lemma DoomedCommitsNothing(s: State, run: seq<Action>, job: nat, id: nat)
    requires Inv(s) && Doomed(s, job, id) && Runs.Legal(Sparing(job), Next, s, run)
    ensures var t := Runs.After(Next, s, run); Next(t, Finish(job)).shop == t.shop
  {
    DoomedForGood(s, run, job, id);
    var t := Runs.After(Next, s, run);
    RacedIsRefused(t.shop, t.jobs[job].txn, id);
    FinishCommits(t, job);
  }

  /** The two together: an order that has its ticket but reads as unpaid, heard paid in a pass, undoes the whole pass.
      */
  lemma HearingUndoesThePass(s: State, run: seq<Action>, job: nat, id: nat, v: Validation, now: real)
    requires Reachable(false, s) && Enabled(false, s, Decide(job, id, Answer(v), now))
    requires HasTicket(s.shop.tickets, id) && id in s.jobs[job].txn.work && Passes(v, s.jobs[job].txn.work[id])
    requires Runs.Legal(Sparing(job), Next, Next(s, Decide(job, id, Answer(v), now)), run)
    ensures var t := Runs.After(Next, Next(s, Decide(job, id, Answer(v), now)), run);
      Next(t, Finish(job)).shop == t.shop
  {
    ReachableInv(false, s);
    NextInv(s, Decide(job, id, Answer(v), now));
    HearingDooms(s, job, id, v, now);
    DoomedCommitsNothing(Next(s, Decide(job, id, Answer(v), now)), run, job, id);
  }
}
