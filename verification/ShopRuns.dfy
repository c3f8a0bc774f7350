/** The handlers' transactions, run alone, are runs of the settlement protocol: what is proved about every run of the
    protocol holds of the tables the handlers leave. */
module ShopRuns {
  import opened Base
  import opened Settlement
  import opened Payments
  import opened Reports
  import opened Reconciler
  import opened ShopService
  import PaymentGuarantees
  import Runs

  /** With handlers atomic, `run` is legal from s and leads to t. */
  ghost predicate LeadsTo(s: State, run: seq<Action>, t: State) {
    Runs.Legal(Enabling(true), Next, s, run) && Runs.After(Next, s, run) == t
  }

  lemma OneMore(s: State, run: seq<Action>, t: State, a: Action)
    requires LeadsTo(s, run, t) && Enabled(true, t, a)
    ensures LeadsTo(s, run + [a], Next(t, a))
  {
    Runs.Extend(Enabling(true), Next, s, run, a);
  }

  lemma FirstStep(s: State, a: Action)
    requires Enabled(true, s, a)
    ensures LeadsTo(s, [a], Next(s, a))
  {
    OneMore(s, [], s, a);
    assert [] + [a] == [a];
  }

  function ReportSteps(job: nat, id: nat, d: Decision, now: real): seq<Action> {
    [Begin(job, Report, [id], 0.0), Decide(job, id, d, now), Finish(job)]
  }

  /** The orders a handler has still to decide after the first n. */
  function Undecided(ids: seq<nat>, n: nat): set<nat>
    requires n <= |ids|
  {
    set id | id in ids[n..]
  }

  lemma BeginOne(s: State, job: nat, kind: Kind, ids: seq<nat>, cutoff: real)
    requires s.jobs == map[] && forall id :: id in ids ==> id in s.shop.orders
    ensures var t := Next(s, Begin(job, kind, ids, cutoff));
      t.shop == s.shop && t.jobs == map[job := Job(kind, Load(s.shop, ids), Undecided(ids, 0))]
  {
    var j := Job(kind, Load(s.shop, ids), Undecided(ids, 0));
    assert ids[0..] == ids;
    assert s.jobs[job := j] == map[job := j];
  }

  lemma DecideOne(s: State, job: nat, j: Job, id: nat, d: Decision, now: real)
    requires s.jobs == map[job := j] && id in j.txn.work && j.txn.work[id].product in s.shop.products
    ensures var t := Next(s, Decide(job, id, d, now));
      t.shop == s.shop && t.jobs == map[job := Job(j.kind, Apply(s.shop, j.txn, id, d, now), j.todo - {id})]
  {
    var done := Job(j.kind, Apply(s.shop, j.txn, id, d, now), j.todo - {id});
    assert s.jobs[job := done] == map[job := done];
  }

  lemma FinishOne(s: State, job: nat, j: Job)
    requires s.jobs == map[job := j]
    ensures Next(s, Finish(job)).shop == Commit(s.shop, j.txn) && Next(s, Finish(job)).jobs == map[]
  {
    assert s.jobs - {job} == map[];
  }

  /** A return or IPN handled on its own is three steps of the protocol. */
  lemma ReportIsARun(s: State, job: nat, id: nat, f: Fields, answer: Option<Money.Validation>, now: real)
    returns (t: State)
    requires s.jobs == map[] && id in s.shop.orders && s.shop.orders[id].product in s.shop.products
    requires s.shop.orders[id].status != Paid && ReportDecision(f, answer).Some?
    ensures LeadsTo(s, ReportSteps(job, id, ReportDecision(f, answer).value, now), t)
    ensures t.shop == Reported(s.shop, id, f, answer, now) && t.jobs == map[]
  {
    var d := ReportDecision(f, answer).value;
    var run := ReportSteps(job, id, d, now);
    assert Undecided([id], 0) == {id} && {id} - {id} == {};
    BeginOne(s, job, Report, [id], 0.0);
    FirstStep(s, run[0]);
    var s1 := Next(s, run[0]);
    DecideOne(s1, job, Job(Report, Load(s.shop, [id]), {id}), id, d, now);
    OneMore(s, [run[0]], s1, run[1]);
    var s2 := Next(s1, run[1]);
    FinishOne(s2, job, s2.jobs[job]);
    OneMore(s, [run[0]] + [run[1]], s2, run[2]);
    t := Next(s2, run[2]);
    assert [run[0]] + [run[1]] + [run[2]] == run;
  }

  function CheckoutSteps(job: nat, id: nat, now: real): seq<Action> {
    [Begin(job, Retry, [id], 0.0), Decide(job, id, Checkout, now), Finish(job)]
  }

  function Opened(shop: Shop, id: nat): Shop
    requires id in shop.orders
  {
    shop.(orders := shop.orders[id := shop.orders[id].(status := Pending)])
  }

  lemma OpeningCommits(shop: Shop, id: nat, now: real)
    requires id in shop.orders && shop.orders[id].product in shop.products && OneTicketPerOrder(shop.tickets)
    ensures Commit(shop, Apply(shop, Load(shop, [id]), id, Checkout, now)) == Opened(shop, id)
  {
    var t := Apply(shop, Load(shop, [id]), id, Checkout, now);
    assert shop.tickets + t.staged == shop.tickets;
    assert Commit(shop, t).orders == Opened(shop, id).orders;
  }

  /** Opening a payment session alone is a retry run alone. */
  lemma CheckoutIsARun(s: State, job: nat, id: nat, now: real) returns (t: State)
    requires s.jobs == map[] && id in s.shop.orders && s.shop.orders[id].product in s.shop.products
    requires s.shop.orders[id].status != Paid && OneTicketPerOrder(s.shop.tickets)
    ensures LeadsTo(s, CheckoutSteps(job, id, now), t)
    ensures t.shop == Opened(s.shop, id) && t.jobs == map[]
  {
    var run := CheckoutSteps(job, id, now);
    assert Undecided([id], 0) == {id} && {id} - {id} == {};
    BeginOne(s, job, Retry, [id], 0.0);
    FirstStep(s, run[0]);
    var s1 := Next(s, run[0]);
    DecideOne(s1, job, Job(Retry, Load(s.shop, [id]), {id}), id, Checkout, now);
    OneMore(s, [run[0]], s1, run[1]);
    var s2 := Next(s1, run[1]);
    FinishOne(s2, job, s2.jobs[job]);
    OneMore(s, [run[0]] + [run[1]], s2, run[2]);
    t := Next(s2, run[2]);
    OpeningCommits(s.shop, id, now);
    assert [run[0]] + [run[1]] + [run[2]] == run;
  }

  /** A purchase under a new key is one insert, followed by a checkout when a session opens. */
  lemma PurchaseIsARun(s: State, job: nat, shop: Shop, id: nat, student: nat, product: nat, key: string,
      tranId: string, session: bool, now: real, reply: CheckoutReply) returns (run: seq<Action>, t: State)
    requires s.jobs == map[] && OneTicketPerOrder(s.shop.tickets) && id !in s.shop.orders
    requires forall k :: k in s.shop.orders ==>
      s.shop.orders[k].idempotencyKey != key && s.shop.orders[k].tranId != tranId
    requires shop.products == s.shop.products && shop.tickets == s.shop.tickets
    requires Ordered(shop, s.shop.orders, id, student, product, key, tranId, session, now, reply)
    ensures LeadsTo(s, run, t) && t.shop == shop && t.jobs == map[]
  {
    if product !in shop.products || !shop.products[product].active {
      return [], s;
    }
    var order := ShopService.NewOrder(student, product, shop.products[product].pricePaisa, key, tranId, now);
    var a := Action.NewOrder(id, order);
    var u := Next(s, a);
    if session {
      t := CheckoutIsARun(u, job, id, now);
      run := [a] + CheckoutSteps(job, id, now);
      Runs.Prepend(Enabling(true), Next, s, a, CheckoutSteps(job, id, now));
      assert t.shop.orders == shop.orders;
    } else {
      run, t := [a], u;
      FirstStep(s, a);
    }
  }

  /** What the pass decides about its m-th order. */
  function Turn(shop: Shop, ids: seq<nat>, m: nat, records: Records, now: real): (d: Decision)
    requires m < |ids| && Known(shop, ids)
    ensures Allowed(Pass, d)
  {
    PassDecision(PassTxn(shop, ids, m, records, now).work[ids[m]], records(ids[m]), now)
  }

  /** The first n decisions of a reconciler pass, as protocol steps. */
  function PassSteps(shop: Shop, job: nat, ids: seq<nat>, n: nat, cutoff: real, records: Records, now: real)
    : seq<Action>
    requires n <= |ids| && Known(shop, ids)
  {
    if n == 0 then [Begin(job, Pass, ids, cutoff)]
    else
      PassSteps(shop, job, ids, n - 1, cutoff, records, now)
        + [Decide(job, ids[n - 1], Turn(shop, ids, n - 1, records, now), now)]
  }

  /** A pass underway: the session as decided so far, nothing committed. */
  ghost predicate Underway(s: State, t: State, job: nat, ids: seq<nat>, n: nat, records: Records, now: real)
    requires n <= |ids| && Known(s.shop, ids)
  {
    t.shop == s.shop && t.jobs == map[job := Job(Pass, PassTxn(s.shop, ids, n, records, now), Undecided(ids, n))]
  }

  lemma PassBegins(s: State, job: nat, ids: seq<nat>, cutoff: real, records: Records, now: real)
    requires s.jobs == map[] && Known(s.shop, ids)
    ensures Underway(s, Next(s, Begin(job, Pass, ids, cutoff)), job, ids, 0, records, now)
  {
    BeginOne(s, job, Pass, ids, cutoff);
  }

  lemma StepsGrow(shop: Shop, job: nat, ids: seq<nat>, n: nat, cutoff: real, records: Records, now: real)
    requires n < |ids| && Known(shop, ids)
    ensures PassSteps(shop, job, ids, n + 1, cutoff, records, now)
      == PassSteps(shop, job, ids, n, cutoff, records, now)
         + [Decide(job, ids[n], Turn(shop, ids, n, records, now), now)]
  {}

  lemma OneLess(ids: seq<nat>, n: nat)
    requires n < |ids| && Distinct(ids)
    ensures ids[n] in Undecided(ids, n) && Undecided(ids, n) - {ids[n]} == Undecided(ids, n + 1)
  {
    assert ids[n..] == [ids[n]] + ids[n + 1..];
  }

  lemma PassDecides(s: State, t: State, job: nat, ids: seq<nat>, n: nat, records: Records, now: real)
    requires n < |ids| && Known(s.shop, ids) && Distinct(ids)
    requires Underway(s, t, job, ids, n, records, now)
    ensures var a := Decide(job, ids[n], Turn(s.shop, ids, n, records, now), now);
      Enabled(true, t, a) && Underway(s, Next(t, a), job, ids, n + 1, records, now)
  {
    OneLess(ids, n);
    var txn := PassTxn(s.shop, ids, n, records, now);
    TurnIsApplied(s.shop, ids, n, records, now, txn, ids[n]);
    DecideOne(t, job, Job(Pass, txn, Undecided(ids, n)), ids[n], Turn(s.shop, ids, n, records, now), now);
  }

  ghost predicate Selected(s: State, ids: seq<nat>, cutoff: real) {
    && Known(s.shop, ids) && Distinct(ids) && |ids| <= BATCH
    && forall id :: id in ids ==> Unsettled(s.shop.orders[id], cutoff)
  }

  /** Of each n: the first n decisions of the pass are a run to where it then stands. */
  ghost function RunsSoFar(s: State, job: nat, ids: seq<nat>, cutoff: real, records: Records, now: real)
    : nat -> bool
  {
    (n: nat) =>
      n <= |ids| && Known(s.shop, ids)
      && exists t :: LeadsTo(s, PassSteps(s.shop, job, ids, n, cutoff, records, now), t)
                  && Underway(s, t, job, ids, n, records, now)
  }

  lemma PassStarts(s: State, job: nat, ids: seq<nat>, cutoff: real, records: Records, now: real)
    requires s.jobs == map[] && Selected(s, ids, cutoff)
    ensures RunsSoFar(s, job, ids, cutoff, records, now)(0)
  {
    var a := Begin(job, Pass, ids, cutoff);
    FirstStep(s, a);
    PassBegins(s, job, ids, cutoff, records, now);
  }

  lemma PassContinues(s: State, job: nat, ids: seq<nat>, n: nat, cutoff: real, records: Records, now: real)
    requires n < |ids| && Distinct(ids) && RunsSoFar(s, job, ids, cutoff, records, now)(n)
    ensures RunsSoFar(s, job, ids, cutoff, records, now)(n + 1)
  {
    var before := PassSteps(s.shop, job, ids, n, cutoff, records, now);
    var u :| LeadsTo(s, before, u) && Underway(s, u, job, ids, n, records, now);
    PassDecides(s, u, job, ids, n, records, now);
    OneMore(s, before, u, Decide(job, ids[n], Turn(s.shop, ids, n, records, now), now));
    StepsGrow(s.shop, job, ids, n, cutoff, records, now);
  }

  lemma NextPoint(p: nat -> bool, m: nat, n: nat)
    requires p(m + 1) && n == m + 1
    ensures p(n)
  {}

  lemma {:induction false} PassSoFar(s: State, job: nat, ids: seq<nat>, n: nat,
      cutoff: real, records: Records, now: real)
    requires n <= |ids| && Distinct(ids) && RunsSoFar(s, job, ids, cutoff, records, now)(0)
    ensures RunsSoFar(s, job, ids, cutoff, records, now)(n)
    decreases n
  {
    if n > 0 {
      var m := n - 1;
      PassSoFar(s, job, ids, m, cutoff, records, now);
      PassContinues(s, job, ids, m, cutoff, records, now);
      NextPoint(RunsSoFar(s, job, ids, cutoff, records, now), m, n);
    }
  }

  /** A whole reconciler pass, committed once at its end, is a run of the protocol; so by `PaidIsFinal` its commit is
      never refused. */
  lemma PassIsARun(s: State, job: nat, ids: seq<nat>, cutoff: real, records: Records, now: real) returns (t: State)
    requires s.jobs == map[] && Selected(s, ids, cutoff)
    ensures LeadsTo(s, PassSteps(s.shop, job, ids, |ids|, cutoff, records, now) + [Finish(job)], t)
    ensures t.shop == Commit(s.shop, PassTxn(s.shop, ids, |ids|, records, now)) && t.jobs == map[]
  {
    PassStarts(s, job, ids, cutoff, records, now);
    PassSoFar(s, job, ids, |ids|, cutoff, records, now);
    var run := PassSteps(s.shop, job, ids, |ids|, cutoff, records, now);
    var u :| LeadsTo(s, run, u) && Underway(s, u, job, ids, |ids|, records, now);
    assert Undecided(ids, |ids|) == {};
    FinishOne(u, job, u.jobs[job]);
    OneMore(s, run, u, Finish(job));
    t := Next(u, Finish(job));
  }

  // ----- an order the reconciler loses

  const PRODUCT := Product(3000, Some(10), 30, true)
  const ORDER := ShopService.NewOrder(1, 1, 3000, "key-0001", "UT-1", 0.0)
  const SET_UP: seq<Action> := [PutProduct(1, PRODUCT), Action.NewOrder(1, ORDER)]

  function OneOrder(o: Order): Shop {
    Shop(map[1 := PRODUCT], map[1 := o], [])
  }

  lemma RunReaches(s0: State, run: seq<Action>, t: State)
    requires Init(s0) && LeadsTo(s0, run, t)
    ensures Reachable(true, t)
  {}

  lemma SetUp() returns (s0: State, t: State)
    ensures Init(s0) && LeadsTo(s0, SET_UP, t)
    ensures t.jobs == map[] && t.shop == OneOrder(ORDER)
  {
    s0 := State(Shop(map[], map[], []), map[], {});
    FirstStep(s0, SET_UP[0]);
    var s1 := Next(s0, SET_UP[0]);
    OneMore(s0, [SET_UP[0]], s1, SET_UP[1]);
    t := Next(s1, SET_UP[1]);
    assert [SET_UP[0]] + [SET_UP[1]] == SET_UP;
  }

  /** One report on the only order, as its handler leaves the tables. */
  lemma OneOrderReported(o: Order, d: Decision, now: real)
    requires o.product == 1 && !Issues(o, d)
    ensures var shop := OneOrder(o);
      Commit(shop, Apply(shop, Load(shop, [1]), 1, d, now)) == OneOrder(Decided(o, d, now))
  {
    var shop := OneOrder(o);
    assert shop.tickets + Apply(shop, Load(shop, [1]), 1, d, now).staged == [];
    CommitsRow(shop, 1, d, now);
    assert shop.orders[1 := Decided(o, d, now)] == map[1 := Decided(o, d, now)];
  }

  lemma AnotherReport(s0: State, run: seq<Action>, s: State, o: Order, f: Fields, answer: Option<Money.Validation>,
      d: Decision, now: real) returns (run': seq<Action>, t: State)
    requires LeadsTo(s0, run, s) && s.jobs == map[] && s.shop == OneOrder(o)
    requires o.product == 1 && o.status != Paid && ReportDecision(f, answer) == Some(d) && !Issues(o, d)
    ensures LeadsTo(s0, run', t) && t.jobs == map[] && t.shop == OneOrder(Decided(o, d, now))
  {
    t := ReportIsARun(s, 1, 1, f, answer, now);
    run' := run + ReportSteps(1, 1, d, now);
    Runs.Append(Enabling(true), Next, s0, run, ReportSteps(1, 1, d, now));
    OneOrderReported(o, d, now);
  }

  const REVIEW := Fields("UT-1", "VALID", "v")
  const FAILED := Fields("UT-1", "FAILED", "")

  lemma ReviewDecides(v: Money.Validation)
    requires "val_id" in v
    ensures ReportDecision(REVIEW, Some(v)) == Some(Answer(v))
  {
    Money.UpperOfCapitals("VALID");
  }

  lemma FailureDecides()
    ensures ReportDecision(FAILED, None) == Some(Close(false))
  {
    Money.UpperOfCapitals("FAILED");
  }

  /** Money taken and right, but held for review. */
  lemma SomeAnswerIsHeld() returns (v: Money.Validation)
    ensures "val_id" in v && Judge(v, ORDER) == UnderReview
  {
    v := map["status" := "VALID", "val_id" := "v", "currency_amount" := Money.Render(3000), "currency_type" := "BDT",
             "risk_level" := "1"];
    Money.UpperOfCapitals("VALID");
    Money.RenderedAmountMatchesOnlyItself(v, 3000, 3000, "BDT");
  }

  /** Even with handlers one at a time: the gateway holds the payment for review, an unverified FAILED report follows,
      and the order is closed, without a ticket and never to be selected again. */
  lemma HeldOrderIsLost(v: Money.Validation) returns (t: State)
    requires "val_id" in v && Judge(v, ORDER) == UnderReview
    ensures Reachable(true, t) && t.shop == OneOrder(Validated(ORDER, v, 60.0).(status := Failed))
  {
    ReviewDecides(v);
    FailureDecides();
    var s0, s := SetUp();
    var run, u := AnotherReport(s0, SET_UP, s, ORDER, REVIEW, Some(v), Answer(v), 60.0);
    run, t := AnotherReport(s0, run, u, Validated(ORDER, v, 60.0), FAILED, None, Close(false), 120.0);
    RunReaches(s0, run, t);
  }

  lemma SomeOrderIsLost() returns (t: State)
    ensures Reachable(true, t) && 1 in t.shop.orders && !Unconfirmed(t.shop.orders[1])
    ensures t.shop.orders[1].status == Failed && t.shop.orders[1].payload.Some? && t.shop.tickets == []
    ensures Judge(t.shop.orders[1].payload.value, t.shop.orders[1]) == UnderReview
  {
    var v := SomeAnswerIsHeld();
    t := HeldOrderIsLost(v);
  }

  // ----- nothing ties an answer to an order

  lemma ReachesFurther(s: State, run: seq<Action>, t: State)
    requires Reachable(true, s) && LeadsTo(s, run, t)
    ensures Reachable(true, t)
  {
    var s0, first :| Init(s0) && Runs.Legal(Enabling(true), Next, s0, first) && s == Runs.After(Next, s0, first);
    Runs.Append(Enabling(true), Next, s0, first, run);
    RunReaches(s0, first + run, t);
  }

  /** A report whose answer passes, as its handler leaves the tables. */
  lemma PassingReport(shop: Shop, id: nat, v: Money.Validation, now: real)
    requires id in shop.orders && shop.orders[id].product in shop.products && Passes(v, shop.orders[id])
    requires OneTicketPerOrder(shop.tickets) && !HasTicket(shop.tickets, id)
    ensures var o, shop' := shop.orders[id], Commit(shop, Apply(shop, Load(shop, [id]), id, Answer(v), now));
      && shop'.products == shop.products && shop'.orders == shop.orders[id := Validated(o, v, now)]
      && shop'.tickets == shop.tickets + [TicketFor(id, o, shop.products[o.product], now)]
  {
    CommitsAlone(shop, id, Answer(v), now);
  }

  lemma UnpaidIsUnticketed(s: State, id: nat)
    requires Reachable(true, s) && id in s.shop.orders && s.shop.orders[id].status != Paid
    ensures s.shop.orders[id].product in s.shop.products
    ensures OneTicketPerOrder(s.shop.tickets) && !HasTicket(s.shop.tickets, id)
  {
    ReachableInv(true, s);
    assert OrderSafe(s, id);
    PaymentGuarantees.PaidExactlyWhenTicketed(s, id);
  }

  /** One report carrying a passing answer pays an unpaid order, whatever other order the answer was given for. */
  lemma AnswerPaysOrder(s: State, id: nat, f: Fields, v: Money.Validation, now: real) returns (t: State)
    requires Reachable(true, s) && s.jobs == map[] && id in s.shop.orders && s.shop.orders[id].status != Paid
    requires Passes(v, s.shop.orders[id]) && ReportDecision(f, Some(v)) == Some(Answer(v))
    ensures Reachable(true, t) && t.jobs == map[] && s.shop.orders.Keys == t.shop.orders.Keys
    ensures t.shop.orders[id].status == Paid && t.shop.orders[id].payload == Some(v) && HasTicket(t.shop.tickets, id)
    ensures forall k :: k in s.shop.orders && k != id ==> t.shop.orders[k] == s.shop.orders[k]
  {
    UnpaidIsUnticketed(s, id);
    PassingReport(s.shop, id, v, now);
    t := ReportIsARun(s, 1, id, f, Some(v), now);
    ReachesFurther(s, ReportSteps(1, id, Answer(v), now), t);
    PaymentGuarantees.PaidExactlyWhenTicketed(t, id);
  }

  /** A report whose answer does not pass pays nothing and touches no other order. */
  lemma FailingReport(shop: Shop, id: nat, v: Money.Validation, now: real)
    requires id in shop.orders && shop.orders[id].product in shop.products && !Passes(v, shop.orders[id])
    requires OneTicketPerOrder(shop.tickets)
    ensures var o, shop' := shop.orders[id], Commit(shop, Apply(shop, Load(shop, [id]), id, Answer(v), now));
      shop' == shop.(orders := shop.orders[id := Validated(o, v, now)])
  {
    CommitsAlone(shop, id, Answer(v), now);
    assert shop.tickets + [] == shop.tickets;
  }

  lemma AnswerFailsOrder(s: State, id: nat, f: Fields, v: Money.Validation, now: real) returns (t: State)
    requires Reachable(true, s) && s.jobs == map[] && id in s.shop.orders && s.shop.orders[id].status != Paid
    requires !Passes(v, s.shop.orders[id]) && ReportDecision(f, Some(v)) == Some(Answer(v))
    ensures Reachable(true, t) && t.jobs == map[] && s.shop.orders.Keys == t.shop.orders.Keys
    ensures t.shop.orders[id].status != Paid && t.shop.tickets == s.shop.tickets
    ensures forall k :: k in s.shop.orders && k != id ==> t.shop.orders[k] == s.shop.orders[k]
  {
    UnpaidIsUnticketed(s, id);
    FailingReport(s.shop, id, v, now);
    t := ReportIsARun(s, 1, id, f, Some(v), now);
    ReachesFurther(s, ReportSteps(1, id, Answer(v), now), t);
  }

  /** The deal an answer must match: the amount, and the currency whatever its case. */
  predicate SamePrice(o: Order, p: Order) {
    o.amountPaisa == p.amountPaisa && Money.Upper(o.currency) == Money.Upper(p.currency)
  }

  lemma PassesAnotherIff(v: Money.Validation, o: Order, p: Order)
    requires Passes(v, o)
    ensures Passes(v, p) <==> SamePrice(o, p)
  {}

  /** So an answer that pays one order, reported for another as well, pays that one too if and only if the two cost the
      same. */
  lemma OneAnswerPaysTwoIff(s: State, a: nat, b: nat, f: Fields, g: Fields, v: Money.Validation, now: real)
    returns (t: State)
    requires Reachable(true, s) && s.jobs == map[] && a in s.shop.orders && b in s.shop.orders && a != b
    requires s.shop.orders[a].status != Paid && s.shop.orders[b].status != Paid && Passes(v, s.shop.orders[a])
    requires ReportDecision(f, Some(v)) == ReportDecision(g, Some(v)) == Some(Answer(v))
    ensures Reachable(true, t) && a in t.shop.orders && b in t.shop.orders
    ensures t.shop.orders[a].status == Paid && t.shop.orders[a].payload == Some(v) && HasTicket(t.shop.tickets, a)
    ensures t.shop.orders[b].status == Paid && t.shop.orders[b].payload == Some(v) && HasTicket(t.shop.tickets, b)
      <==> SamePrice(s.shop.orders[a], s.shop.orders[b])
  {
    var u := AnswerPaysOrder(s, a, f, v, now);
    PassesAnotherIff(v, s.shop.orders[a], s.shop.orders[b]);
    if SamePrice(s.shop.orders[a], s.shop.orders[b]) {
      t := AnswerPaysOrder(u, b, g, v, now);
    } else {
      t := AnswerFailsOrder(u, b, g, v, now);
    }
    PaymentGuarantees.PaidExactlyWhenTicketed(t, a);
  }
}
