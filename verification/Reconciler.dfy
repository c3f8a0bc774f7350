/** The reconciler's pass as one transaction over the selected orders, its tally, and the tables it leaves
    (app/worker/payment_reconciler.py). */
module Reconciler {
  import opened Base
  import opened Money
  import opened Settlement
  import opened Payments
  import opened SettlementGuarantees
  import Reports

  datatype Tally = Tally(checked: nat, settled: nat, abandoned: nat, mismatch: nat, stillOpen: nat)

  /** What the gateway says of each order; `None` when it could not be asked. */
  type Records = nat -> Option<seq<Validation>>

  predicate Known(shop: Shop, ids: seq<nat>) {
    forall id :: id in ids ==> id in shop.orders && shop.orders[id].product in shop.products
  }

  predicate Distinct(ids: seq<nat>) {
    forall i, j :: 0 <= i < j < |ids| ==> ids[i] != ids[j]
  }

  /** A reconciler pass as one transaction over the selected orders. */
  function PassTxn(shop: Shop, ids: seq<nat>, n: nat, records: Records, now: real): (t: Txn)
    requires n <= |ids| && Known(shop, ids)
    ensures forall id :: id in ids ==> id in t.work && t.work[id].product == shop.orders[id].product
  {
    if n == 0 then Load(shop, ids)
    else
      var t := PassTxn(shop, ids, n - 1, records, now);
      Apply(shop, t, ids[n - 1], PassDecision(t.work[ids[n - 1]], records(ids[n - 1]), now), now)
  }

  /** How one decision counts. An order failed or held for review by the gateway counts as checked only. */
  function Counted(t: Tally, o: Order, d: Decision): Tally {
    var seen := t.(checked := t.checked + 1);
    match d
    case Abandon => seen.(abandoned := t.abandoned + 1)
    case Answer(v) =>
      if Judge(v, o) == PaidUp then seen.(settled := t.settled + 1)
      else if Judge(v, o) == AmountMismatch then seen.(mismatch := t.mismatch + 1)
      else seen
    case _ => seen.(stillOpen := t.stillOpen + 1)
  }

  /** An order as the pass finds it in the session. */
  function Standing(shop: Shop, ids: seq<nat>, n: nat, records: Records, now: real): (o: Order)
    requires n < |ids| && Known(shop, ids)
    ensures o.product in shop.products
  {
    PassTxn(shop, ids, n, records, now).work[ids[n]]
  }

  function PassTally(shop: Shop, ids: seq<nat>, n: nat, records: Records, now: real): (t: Tally)
    requires n <= |ids| && Known(shop, ids)
    ensures t.checked == n && t.settled + t.abandoned + t.mismatch + t.stillOpen <= t.checked
  {
    if n == 0 then Tally(0, 0, 0, 0, 0)
    else
      var o := Standing(shop, ids, n - 1, records, now);
      Counted(PassTally(shop, ids, n - 1, records, now), o, PassDecision(o, records(ids[n - 1]), now))
  }

  lemma OneOrderFurther(shop: Shop, ids: seq<nat>, n: nat, records: Records, now: real,
      order: Order, staged: seq<Ticket>, tally: Tally)
    requires n < |ids| && Known(shop, ids)
    requires var o := Standing(shop, ids, n, records, now);
      var d := PassDecision(o, records(ids[n]), now);
      && order == Decided(o, d, now) && tally == Counted(PassTally(shop, ids, n, records, now), o, d)
      && staged == (if Issues(o, d) then [TicketFor(ids[n], o, shop.products[o.product], now)] else [])
    ensures var t := PassTxn(shop, ids, n, records, now);
      PassTxn(shop, ids, n + 1, records, now) == Txn(t.snap, t.work[ids[n] := order], t.staged + staged)
    ensures PassTally(shop, ids, n + 1, records, now) == tally
  {
    assert PassTxn(shop, ids, n, records, now).staged + [] == PassTxn(shop, ids, n, records, now).staged;
  }

  lemma SettledIsIssued(t: Tally, o: Order, d: Decision)
    ensures Counted(t, o, d).settled == t.settled + (if Issues(o, d) then 1 else 0)
  {}

  lemma TurnIsApplied(shop: Shop, ids: seq<nat>, n: nat, records: Records, now: real, t: Txn, id: nat)
    requires n < |ids| && Known(shop, ids) && id == ids[n] && t == PassTxn(shop, ids, n, records, now)
    ensures PassTxn(shop, ids, n + 1, records, now)
      == Apply(shop, t, id, PassDecision(t.work[id], records(id), now), now)
  {}

  lemma ApplyKeepsKeys(shop: Shop, t: Txn, id: nat, d: Decision, now: real)
    requires id in t.work && t.work[id].product in shop.products
    ensures Apply(shop, t, id, d, now).work.Keys == t.work.Keys && Apply(shop, t, id, d, now).snap == t.snap
  {}

  /** The session always holds exactly the orders selected, next to what was loaded. */
  lemma {:induction false} SessionKeys(shop: Shop, ids: seq<nat>, n: nat, records: Records, now: real)
    returns (t: Txn)
    requires n <= |ids| && Known(shop, ids)
    ensures t == PassTxn(shop, ids, n, records, now)
    ensures t.snap == Load(shop, ids).snap && t.work.Keys == t.snap.Keys
    decreases n
  {
    if n == 0 {
      t := Load(shop, ids);
    } else {
      var m, id := n - 1, ids[n - 1];
      var before := SessionKeys(shop, ids, m, records, now);
      TurnIsApplied(shop, ids, m, records, now, before, id);
      var d := PassDecision(before.work[id], records(id), now);
      ApplyKeepsKeys(shop, before, id, d, now);
      t := Apply(shop, before, id, d, now);
    }
  }

  // ----- the cases, from the gateway's records

  /** Money taken, and a handle to name it by. */
  predicate Usable(v: Validation) {
    SaysTaken(v) && "val_id" in v && v["val_id"] != ""
  }

  predicate FirstUsable(es: seq<Validation>, i: int) {
    0 <= i < |es| && Usable(es[i]) && forall j :: 0 <= j < i ==> !Usable(es[j])
  }

  predicate NoneUsable(es: seq<Validation>) {
    forall i :: 0 <= i < |es| ==> !Usable(es[i])
  }

  predicate DayOld(o: Order, now: real) {
    now - o.createdAt >= 86400.0
  }

  /** The first usable success pays the order. */
  ghost predicate Due(o: Order, record: Option<seq<Validation>>) {
    record.Some? && exists i :: FirstUsable(record.value, i) && Pays(record.value[i], o)
  }

  /** The first usable success is for other money. */
  ghost predicate Mispaid(o: Order, record: Option<seq<Validation>>) {
    record.Some? && exists i :: FirstUsable(record.value, i) && !Agrees(record.value[i], o.amountPaisa, o.currency)
  }

  predicate GivenUp(o: Order, record: Option<seq<Validation>>, now: real) {
    record.Some? && NoneUsable(record.value) && DayOld(o, now)
  }

  predicate LeftOpen(o: Order, record: Option<seq<Validation>>, now: real) {
    record.None? || (NoneUsable(record.value) && !DayOld(o, now))
  }

  /** The row afterwards: as it was while the gateway is out of reach or has nothing and the day is not over; failed, or
      still cancelled, once it is; else settled by the first usable success. */
  ghost predicate RowAfter(o: Order, record: Option<seq<Validation>>, now: real, after: Order) {
    && (LeftOpen(o, record, now) ==> after == o)
    && (GivenUp(o, record, now) ==> after == if o.status == Cancelled then o else o.(status := Failed))
    && (record.Some? ==> forall i :: FirstUsable(record.value, i) ==> SettledBy(o, record.value[i], now, after))
    && SameDeal(after, o)
  }

  lemma SettledIsUsable(v: Validation)
    ensures IsSettled(v) <==> Usable(v)
  {
    SucceededSaysTaken(v);
  }

  lemma FirstIsOne(es: seq<Validation>, i: int, j: int)
    requires FirstUsable(es, i) && FirstUsable(es, j)
    ensures i == j
  {}

  lemma ElementIsFirst(es: seq<Validation>)
    ensures SuccessfulElement(es).None? <==> NoneUsable(es)
    ensures SuccessfulElement(es).Some? ==> exists i :: FirstUsable(es, i) && es[i] == SuccessfulElement(es).value
  {
    forall i | 0 <= i < |es| ensures IsSettled(es[i]) <==> Usable(es[i]) {
      SettledIsUsable(es[i]);
    }
    if SuccessfulElement(es).Some? {
      var i :| 0 <= i < |es| && es[i] == SuccessfulElement(es).value && IsSettled(es[i])
            && forall j :: 0 <= j < i ==> !IsSettled(es[j]);
      assert FirstUsable(es, i);
    }
  }

  /** One order's turn: its row, and whether a ticket is staged. */
  lemma TurnDecides(o: Order, record: Option<seq<Validation>>, now: real)
    ensures var d := PassDecision(o, record, now);
      RowAfter(o, record, now, Decided(o, d, now)) && (Issues(o, d) <==> Due(o, record))
  {
    if record.Some? {
      var es := record.value;
      ElementIsFirst(es);
      if SuccessfulElement(es).Some? {
        var i :| FirstUsable(es, i) && es[i] == SuccessfulElement(es).value;
        forall j | FirstUsable(es, j) ensures j == i { FirstIsOne(es, i, j); }
        AnswerMakes(o, es[i], now);
      }
    }
  }

  lemma TurnRow(o: Order, record: Option<seq<Validation>>, now: real)
    ensures RowAfter(o, record, now, Decided(o, PassDecision(o, record, now), now))
  {
    TurnDecides(o, record, now);
  }

  lemma AnswerMakes(o: Order, v: Validation, now: real)
    ensures SettledBy(o, v, now, Decided(o, Answer(v), now)) && (Issues(o, Answer(v)) <==> Pays(v, o))
  {
    PassesIsPays(v, o);
    AnswerSettles(0, o, Product(0, None, 0, true), v, now);
  }

  /** And its place in the tally, which the cases divide between them; a held answer counts as checked only. */
  lemma TurnCounts(t: Tally, o: Order, record: Option<seq<Validation>>, now: real)
    ensures Counted(t, o, PassDecision(o, record, now))
      == Tally(t.checked + 1, t.settled + One(Due(o, record)), t.abandoned + One(GivenUp(o, record, now)),
               t.mismatch + One(Mispaid(o, record)), t.stillOpen + One(LeftOpen(o, record, now)))
  {
    if record.Some? {
      var es := record.value;
      ElementIsFirst(es);
      if SuccessfulElement(es).Some? {
        var i :| FirstUsable(es, i) && es[i] == SuccessfulElement(es).value;
        forall j | FirstUsable(es, j) ensures j == i { FirstIsOne(es, i, j); }
        JudgedByText(es[i], o);
      }
    }
  }

  lemma JudgedByText(v: Validation, o: Order)
    requires Usable(v)
    ensures Judge(v, o) == PaidUp <==> Pays(v, o)
    ensures Judge(v, o) == AmountMismatch <==> !Agrees(v, o.amountPaisa, o.currency)
  {
    SucceededSaysTaken(v);
    MatchesAgrees(v, o.amountPaisa, o.currency);
  }

  ghost function One(b: bool): nat {
    if b then 1 else 0
  }

  // ----- the session after n turns

  ghost predicate DueIn(shop: Shop, records: Records, id: nat) {
    id in shop.orders && Due(shop.orders[id], records(id))
  }

  /** The first n orders are done, the rest as loaded. */
  ghost predicate RowsSoFar(shop: Shop, ids: seq<nat>, n: nat, records: Records, now: real, work: map<nat, Order>) {
    forall i :: 0 <= i < |ids| ==>
      && ids[i] in shop.orders && ids[i] in work
      && (i < n ==> RowAfter(shop.orders[ids[i]], records(ids[i]), now, work[ids[i]]))
      && (i >= n ==> work[ids[i]] == shop.orders[ids[i]])
  }

  ghost predicate Soldable(shop: Shop, ids: seq<nat>, records: Records, now: real, t: Ticket) {
    && t.order in ids && DueIn(shop, records, t.order) && shop.orders[t.order].product in shop.products
    && TicketOf(t.order, shop.orders[t.order], shop.products[shop.orders[t.order].product], now, t)
  }

  /** One ticket for each due order, and no other. */
  ghost predicate Sold(shop: Shop, ids: seq<nat>, records: Records, now: real, added: seq<Ticket>) {
    && OneTicketPerOrder(added)
    && (forall j :: 0 <= j < |added| ==> Soldable(shop, ids, records, now, added[j]))
    && forall id :: id in ids && DueIn(shop, records, id) ==> HasTicket(added, id)
  }

  lemma RowsGrow(shop: Shop, ids: seq<nat>, n: nat, records: Records, now: real, work: map<nat, Order>, after: Order)
    requires n < |ids| && Distinct(ids) && RowsSoFar(shop, ids, n, records, now, work)
    requires RowAfter(shop.orders[ids[n]], records(ids[n]), now, after)
    ensures RowsSoFar(shop, ids, n + 1, records, now, work[ids[n] := after])
  {}

  lemma SoldMore(shop: Shop, ids: seq<nat>, more: seq<nat>, records: Records, now: real, added: seq<Ticket>, t: Ticket)
    requires Sold(shop, ids, records, now, added) && |more| == |ids| + 1 && more[..|ids|] == ids && Distinct(more)
    requires t.order == more[|ids|] && Soldable(shop, more, records, now, t)
    ensures Sold(shop, more, records, now, added + [t])
  {
    assert more == ids + [t.order];
    assert t.order !in ids;
    StagedAfter(added, t);
    Reports.OneTicketMore(added, t);
    forall j | 0 <= j < |added| ensures Soldable(shop, more, records, now, added[j]) {
      assert Soldable(shop, ids, records, now, added[j]);
    }
  }

  lemma SoldNoMore(shop: Shop, ids: seq<nat>, more: seq<nat>, records: Records, now: real, added: seq<Ticket>)
    requires Sold(shop, ids, records, now, added) && |more| == |ids| + 1 && more[..|ids|] == ids
    requires !DueIn(shop, records, more[|ids|])
    ensures Sold(shop, more, records, now, added)
  {
    assert more == ids + [more[|ids|]];
    forall j | 0 <= j < |added| ensures Soldable(shop, more, records, now, added[j]) {
      assert Soldable(shop, ids, records, now, added[j]);
    }
  }

  lemma StagedSoFar(shop: Shop, ids: seq<nat>, n: nat, records: Records, now: real, staged: seq<Ticket>, id: nat)
    requires n < |ids| && Known(shop, ids) && Distinct(ids) && id == ids[n]
    requires Sold(shop, ids[..n], records, now, staged)
    ensures var o := shop.orders[id];
      var d := PassDecision(o, records(id), now);
      var ticket := TicketFor(id, o, shop.products[o.product], now);
      Sold(shop, ids[..n + 1], records, now, if Issues(o, d) then staged + [ticket] else staged)
  {
    var o := shop.orders[id];
    TurnDecides(o, records(id), now);
    assert ids[..n + 1][..|ids[..n]|] == ids[..n];
    if Due(o, records(id)) {
      SoldMore(shop, ids[..n], ids[..n + 1], records, now, staged, TicketFor(id, o, shop.products[o.product], now));
    } else {
      SoldNoMore(shop, ids[..n], ids[..n + 1], records, now, staged);
    }
  }

  lemma OneTurn(shop: Shop, ids: seq<nat>, n: nat, records: Records, now: real, t: Txn, id: nat)
    requires n < |ids| && Known(shop, ids) && Distinct(ids) && id == ids[n]
    requires RowsSoFar(shop, ids, n, records, now, t.work) && Sold(shop, ids[..n], records, now, t.staged)
    ensures id in t.work && t.work[id] == shop.orders[id]
    ensures var further := Apply(shop, t, id, PassDecision(t.work[id], records(id), now), now);
      RowsSoFar(shop, ids, n + 1, records, now, further.work) && Sold(shop, ids[..n + 1], records, now, further.staged)
  {
    TurnRow(shop.orders[id], records(id), now);
    RowsGrow(shop, ids, n, records, now, t.work, Decided(t.work[id], PassDecision(t.work[id], records(id), now), now));
    StagedSoFar(shop, ids, n, records, now, t.staged, id);
  }

  lemma NothingYet(shop: Shop, ids: seq<nat>, records: Records, now: real)
    requires Known(shop, ids)
    ensures RowsSoFar(shop, ids, 0, records, now, Load(shop, ids).work)
    ensures Sold(shop, ids[..0], records, now, Load(shop, ids).staged)
  {}

  /** The session after n turns of a pass over distinct orders. */
  lemma {:induction false} AfterTurns(shop: Shop, ids: seq<nat>, n: nat, records: Records, now: real) returns (t: Txn)
    requires n <= |ids| && Known(shop, ids) && Distinct(ids)
    ensures t == PassTxn(shop, ids, n, records, now)
    ensures RowsSoFar(shop, ids, n, records, now, t.work) && Sold(shop, ids[..n], records, now, t.staged)
    decreases n
  {
    if n == 0 {
      t := Load(shop, ids);
      NothingYet(shop, ids, records, now);
    } else {
      var m, id := n - 1, ids[n - 1];
      var before := AfterTurns(shop, ids, m, records, now);
      TurnIsApplied(shop, ids, m, records, now, before, id);
      OneTurn(shop, ids, m, records, now, before, id);
      t := Apply(shop, before, id, PassDecision(before.work[id], records(id), now), now);
    }
  }

  // ----- the tables the pass leaves

  /** No order a ticket is due for has one already. */
  ghost predicate Clear(shop: Shop, ids: seq<nat>, records: Records) {
    && OneTicketPerOrder(shop.tickets)
    && forall id :: id in ids && DueIn(shop, records, id) ==> !HasTicket(shop.tickets, id)
  }

  ghost predicate RowsLeft(was: map<nat, Order>, orders: map<nat, Order>, ids: seq<nat>, records: Records, now: real) {
    && orders.Keys == was.Keys
    && (forall id :: id in was && id !in ids ==> orders[id] == was[id])
    && (forall id :: id in was && id in ids ==> RowAfter(was[id], records(id), now, orders[id]))
  }

  ghost predicate TicketsLeft(was: Shop, tickets: seq<Ticket>, ids: seq<nat>, records: Records, now: real) {
    && |was.tickets| <= |tickets| && tickets[..|was.tickets|] == was.tickets
    && Sold(was, ids, records, now, tickets[|was.tickets|..])
  }

  ghost predicate PassLeft(was: Shop, shop: Shop, ids: seq<nat>, records: Records, now: real) {
    && shop.products == was.products
    && RowsLeft(was.orders, shop.orders, ids, records, now)
    && TicketsLeft(was, shop.tickets, ids, records, now)
  }

  ghost predicate Apart(a: seq<Ticket>, b: seq<Ticket>) {
    forall id :: HasTicket(a, id) ==> !HasTicket(b, id)
  }

  lemma TogetherApart(a: seq<Ticket>, b: seq<Ticket>)
    requires OneTicketPerOrder(a + b)
    ensures OneTicketPerOrder(a) && OneTicketPerOrder(b) && Apart(a, b)
  {
    forall i, j | 0 <= i < j < |a| ensures a[i].order != a[j].order {
      assert (a + b)[i] == a[i] && (a + b)[j] == a[j];
    }
    forall i, j | 0 <= i < j < |b| ensures b[i].order != b[j].order {
      assert (a + b)[|a| + i] == b[i] && (a + b)[|a| + j] == b[j];
    }
    forall i, j | 0 <= i < |a| && 0 <= j < |b| ensures a[i].order != b[j].order {
      assert (a + b)[i] == a[i] && (a + b)[|a| + j] == b[j];
    }
  }

  lemma ApartTogether(a: seq<Ticket>, b: seq<Ticket>)
    requires OneTicketPerOrder(a) && OneTicketPerOrder(b) && Apart(a, b)
    ensures OneTicketPerOrder(a + b)
  {
    forall i, j | 0 <= i < j < |a + b| ensures (a + b)[i].order != (a + b)[j].order {
      if i < |a| <= j {
        assert HasTicket(a, a[i].order) && b[j - |a|] == (a + b)[j];
      }
    }
  }

  lemma ClearedIff(shop: Shop, ids: seq<nat>, records: Records, now: real, t: Txn)
    requires Sold(shop, ids, records, now, t.staged)
    ensures !Refused(shop, t) <==> Clear(shop, ids, records)
  {
    if OneTicketPerOrder(shop.tickets + t.staged) {
      TogetherApart(shop.tickets, t.staged);
    } else if OneTicketPerOrder(shop.tickets) && Apart(shop.tickets, t.staged) {
      ApartTogether(shop.tickets, t.staged);
    }
    forall id | HasTicket(t.staged, id) ensures id in ids && DueIn(shop, records, id) {
      var j :| 0 <= j < |t.staged| && t.staged[j].order == id;
      assert Soldable(shop, ids, records, now, t.staged[j]);
    }
  }

  lemma RowCommitted(shop: Shop, ids: seq<nat>, records: Records, now: real, t: Txn, id: nat)
    requires Known(shop, ids) && t.snap == Load(shop, ids).snap && t.work.Keys == t.snap.Keys
    requires RowsSoFar(shop, ids, |ids|, records, now, t.work) && !Refused(shop, t) && id in shop.orders
    ensures var after := Commit(shop, t).orders;
      && id in after && (id !in ids ==> after[id] == shop.orders[id])
      && (id in ids ==> RowAfter(shop.orders[id], records(id), now, after[id]))
  {
    if id in ids {
      var i :| 0 <= i < |ids| && ids[i] == id;
      WrittenBack(shop.orders[id], t.work[id]);
    }
  }

  lemma RowsCommitted(shop: Shop, ids: seq<nat>, records: Records, now: real, t: Txn)
    requires Known(shop, ids) && t.snap == Load(shop, ids).snap && t.work.Keys == t.snap.Keys
    requires RowsSoFar(shop, ids, |ids|, records, now, t.work) && !Refused(shop, t)
    ensures RowsLeft(shop.orders, Commit(shop, t).orders, ids, records, now)
  {
    var after := Commit(shop, t).orders;
    assert after.Keys == shop.orders.Keys;
    forall id | id in shop.orders
      ensures (id !in ids ==> after[id] == shop.orders[id])
        && (id in ids ==> RowAfter(shop.orders[id], records(id), now, after[id]))
    {
      RowCommitted(shop, ids, records, now, t, id);
    }
  }

  lemma TicketsAppended(shop: Shop, ids: seq<nat>, records: Records, now: real, staged: seq<Ticket>)
    requires Sold(shop, ids, records, now, staged)
    ensures TicketsLeft(shop, shop.tickets + staged, ids, records, now)
  {
    var after := shop.tickets + staged;
    assert after[..|shop.tickets|] == shop.tickets;
    assert after[|shop.tickets|..] == staged;
  }

  /** A pass over distinct orders commits exactly when no due order has a ticket already, and then leaves every order
      and the tickets so; otherwise it leaves everything as it was. */
  lemma PassLeaves(shop: Shop, ids: seq<nat>, records: Records, now: real)
    requires Known(shop, ids) && Distinct(ids)
    ensures var after := Commit(shop, PassTxn(shop, ids, |ids|, records, now));
      if Clear(shop, ids, records) then PassLeft(shop, after, ids, records, now) else after == shop
  {
    var t := AfterTurns(shop, ids, |ids|, records, now);
    assert ids[..|ids|] == ids;
    ClearedIff(shop, ids, records, now, t);
    if !Refused(shop, t) {
      var _ := SessionKeys(shop, ids, |ids|, records, now);
      RowsCommitted(shop, ids, records, now, t);
      TicketsAppended(shop, ids, records, now, t.staged);
    }
  }

  // ----- the tally

  datatype Fate = IsDue | IsGivenUp | IsMispaid | IsLeftOpen

  ghost predicate Meets(fate: Fate, o: Order, record: Option<seq<Validation>>, now: real) {
    match fate
    case IsDue => Due(o, record)
    case IsGivenUp => GivenUp(o, record, now)
    case IsMispaid => Mispaid(o, record)
    case IsLeftOpen => LeftOpen(o, record, now)
  }

  ghost function Those(fate: Fate, shop: Shop, ids: seq<nat>, records: Records, now: real): set<nat> {
    set id | id in ids && id in shop.orders && Meets(fate, shop.orders[id], records(id), now)
  }

  /** Each field counts the orders of its case. */
  ghost predicate Tallied(shop: Shop, ids: seq<nat>, records: Records, now: real, t: Tally) {
    && t.checked == |ids|
    && t.settled == |Those(IsDue, shop, ids, records, now)|
    && t.abandoned == |Those(IsGivenUp, shop, ids, records, now)|
    && t.mismatch == |Those(IsMispaid, shop, ids, records, now)|
    && t.stillOpen == |Those(IsLeftOpen, shop, ids, records, now)|
  }

  lemma ThoseGrow(fate: Fate, shop: Shop, ids: seq<nat>, id: nat, records: Records, now: real)
    requires id in shop.orders
    ensures Those(fate, shop, ids + [id], records, now)
      == Those(fate, shop, ids, records, now)
         + if Meets(fate, shop.orders[id], records(id), now) then {id} else {}
  {}

  lemma OneOfThose(fate: Fate, shop: Shop, ids: seq<nat>, n: nat, records: Records, now: real)
    requires n < |ids| && Distinct(ids) && ids[n] in shop.orders
    ensures |Those(fate, shop, ids[..n + 1], records, now)|
      == |Those(fate, shop, ids[..n], records, now)| + One(Meets(fate, shop.orders[ids[n]], records(ids[n]), now))
  {
    assert ids[..n + 1] == ids[..n] + [ids[n]];
    ThoseGrow(fate, shop, ids[..n], ids[n], records, now);
    assert ids[n] !in Those(fate, shop, ids[..n], records, now);
  }

  /** The tally of a pass over distinct orders is a count of its orders by what the gateway's records say. */
  lemma {:induction false} PassCounts(shop: Shop, ids: seq<nat>, n: nat, records: Records, now: real)
    requires n <= |ids| && Known(shop, ids) && Distinct(ids)
    ensures Tallied(shop, ids[..n], records, now, PassTally(shop, ids, n, records, now))
    decreases n
  {
    if n > 0 {
      var m := n - 1;
      PassCounts(shop, ids, m, records, now);
      var t := AfterTurns(shop, ids, m, records, now);
      var o := shop.orders[ids[m]];
      assert Standing(shop, ids, m, records, now) == o;
      TurnCounts(PassTally(shop, ids, m, records, now), o, records(ids[m]), now);
      OneOfThose(IsDue, shop, ids, m, records, now);
      OneOfThose(IsGivenUp, shop, ids, m, records, now);
      OneOfThose(IsMispaid, shop, ids, m, records, now);
      OneOfThose(IsLeftOpen, shop, ids, m, records, now);
    }
  }

  lemma PassTallies(shop: Shop, ids: seq<nat>, records: Records, now: real)
    requires Known(shop, ids) && Distinct(ids)
    ensures Tallied(shop, ids, records, now, PassTally(shop, ids, |ids|, records, now))
  {
    PassCounts(shop, ids, |ids|, records, now);
    assert ids[..|ids|] == ids;
  }
}
