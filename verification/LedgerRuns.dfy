/** The ledger over whole runs: issue, new trips, synced items and sweeps in any order. */
module LedgerRuns {
  import opened Base
  import opened BoardingQr
  import opened Ledger
  import Runs

  datatype Action =
    | Issue(key: string, ticket: Ticket)
    | NewTrip(trip: nat)
    | Sync(item: Item, context: Context)
    | SweepPass(groups: seq<Group>)

  ghost predicate Init(b: Books) {
    b.tickets == map[] && b.rows == [] && b.alerts == []
  }

  /** A ticket as settlement issues it: active, full, and with at least one ride if it counts rides. */
  predicate AsIssued(t: Ticket) {
    t.status == Active && t.ridesRemaining == t.ridesTotal && (t.ridesTotal.Some? ==> t.ridesTotal.value >= 1)
  }

  ghost predicate Enabled(b: Books, a: Action) {
    match a
    case Issue(key, t) => key !in b.tickets && AsIssued(t)
    case NewTrip(_) => true
    case Sync(_, _) => true
    case SweepPass(groups) => QueryAnswer(b, groups)
  }

  function Next(sch: Scheme, b: Books, a: Action): Books {
    match a
    case Issue(key, t) => b.(tickets := b.tickets[key := t])
    case NewTrip(trip) => b.(trips := b.trips + {trip})
    case Sync(item, c) => SyncItem(sch, b, item, c).0
    case SweepPass(groups) => Sweep(b, groups)
  }

  ghost function Stepping(sch: Scheme): (Books, Action) -> Books {
    (b, a) => Next(sch, b, a)
  }

  ghost predicate Reachable(sch: Scheme, b: Books) {
    exists b0, actions ::
      Init(b0) && Runs.Legal(Enabled, Stepping(sch), b0, actions) && b == Runs.After(Stepping(sch), b0, actions)
  }

  // ----- the invariant

  /** Passengers boarded cleanly on a ticket. */
  function Boarded(rows: seq<Row>, key: string): int {
    if rows == [] then 0
    else
      var last := rows[|rows| - 1];
      Boarded(rows[..|rows| - 1], key) + (if last.ticket == key && last.flag == Clean then last.count else 0)
  }

  function AlertsFor(alerts: seq<Alert>, key: string): nat {
    if alerts == [] then 0
    else AlertsFor(alerts[..|alerts| - 1], key) + (if alerts[|alerts| - 1].ticket == key then 1 else 0)
  }

  /** What was sold is what is left plus what was boarded; a ticket is exhausted exactly when nothing is left. */
  predicate Balanced(b: Books, key: string)
    requires key in b.tickets
  {
    var t := b.tickets[key];
    && (t.status == Active || t.status == Exhausted || t.status == Suspended)
    && (t.ridesTotal.None? <==> t.ridesRemaining.None?)
    && (t.ridesTotal.None? ==> t.status != Exhausted)
    && (t.ridesTotal.Some? ==>
          && t.ridesRemaining.value >= 0
          && t.ridesTotal.value == t.ridesRemaining.value + Boarded(b.rows, key)
          && (t.status == Exhausted <==> t.ridesRemaining.value == 0))
  }

  ghost predicate AllBalanced(b: Books) {
    forall key :: key in b.tickets ==> Balanced(b, key)
  }

  /** The first sighting of a nonce is clean and every later one is a suspect from another device. */
  ghost predicate NonceDiscipline(rows: seq<Row>) {
    && (forall i, j :: 0 <= i < j < |rows| && rows[i].nonce == rows[j].nonce ==>
          rows[i].device != rows[j].device && rows[j].flag == DuplicateSuspect)
    && (forall i :: 0 <= i < |rows| && !Sighted(rows[..i], rows[i].nonce) ==> rows[i].flag == Clean)
  }

  ghost predicate RowsMakeSense(b: Books) {
    forall i :: 0 <= i < |b.rows| ==>
      b.rows[i].ticket in b.tickets && 1 <= b.rows[i].count <= MAX_PASSENGERS
  }

  /** One alert per suspended ticket, none for any other. */
  ghost predicate AlertsMatch(b: Books) {
    forall key :: AlertsFor(b.alerts, key) == (if key in b.tickets && b.tickets[key].status == Suspended then 1 else 0)
  }

  ghost predicate Inv(b: Books) {
    AllBalanced(b) && NonceDiscipline(b.rows) && RowsMakeSense(b) && AlertsMatch(b)
  }

  // ----- steps

  lemma {:induction false} NoRowsNoBoardings(rows: seq<Row>, key: string)
    requires forall i :: 0 <= i < |rows| ==> rows[i].ticket != key
    ensures Boarded(rows, key) == 0
  {
    if rows != [] {
      NoRowsNoBoardings(rows[..|rows| - 1], key);
    }
  }

  lemma IssueInv(b: Books, key: string, t: Ticket)
    requires Inv(b) && Enabled(b, Issue(key, t))
    ensures Inv(b.(tickets := b.tickets[key := t]))
  {
    NoRowsNoBoardings(b.rows, key);
    var b' := b.(tickets := b.tickets[key := t]);
    forall k | k in b'.tickets ensures Balanced(b', k) {
      assert k != key ==> Balanced(b, k);
    }
  }

  /** What `redeem` stages: a row on a known, usable ticket; clean exactly when the nonce is new, and then the
      group fits and is deducted in full, so flooring at zero changes nothing. */
  lemma StagedRow(sch: Scheme, b: Books, item: Item, c: Context)
    requires Redeem(sch, b, item, c).Staged?
    ensures var d := Redeem(sch, b, item, c);
      && d.row.ticket in b.tickets && d.row.device == item.device && 1 <= d.row.count <= MAX_PASSENGERS
      && b.tickets[d.row.ticket].status != Suspended
      && (d.row.flag == Clean <==> !Sighted(b.rows, d.row.nonce))
      && (d.row.flag == DuplicateSuspect ==> d.ticket == b.tickets[d.row.ticket])
      && (d.row.flag == Clean ==> d.ticket == Deduct(b.tickets[d.row.ticket], d.row.count))
      && (d.row.flag == Clean && b.tickets[d.row.ticket].ridesRemaining.Some? ==>
            var left := b.tickets[d.row.ticket].ridesRemaining.value - d.row.count;
            left >= 0 && d.ticket.ridesRemaining == Some(left))
  {}

  lemma DisciplineKept(rows: seq<Row>, row: Row)
    requires NonceDiscipline(rows) && !HasRow(rows, row.device, row.nonce)
    requires row.flag == Clean <==> !Sighted(rows, row.nonce)
    ensures NonceDiscipline(rows + [row])
  {
    var rows' := rows + [row];
    forall i | 0 <= i < |rows'| && !Sighted(rows'[..i], rows'[i].nonce) ensures rows'[i].flag == Clean {
      if i < |rows| {
        assert rows'[..i] == rows[..i];
      } else {
        assert rows'[..i] == rows;
      }
    }
  }

  lemma BalanceKept(b: Books, row: Row, t: Ticket)
    requires AllBalanced(b) && row.ticket in b.tickets && row.count >= 1
    requires row.flag == DuplicateSuspect ==> t == b.tickets[row.ticket]
    requires b.tickets[row.ticket].status != Suspended
    requires row.flag == Clean ==>
      && t == Deduct(b.tickets[row.ticket], row.count)
      && (t.ridesRemaining.Some? ==>
            b.tickets[row.ticket].ridesRemaining.value - row.count >= 0)
    ensures AllBalanced(Commit(b, row, t))
  {
    var b' := Commit(b, row, t);
    assert b'.rows[..|b'.rows| - 1] == b.rows;
    forall key | key in b'.tickets ensures Balanced(b', key) {
      assert Balanced(b, key);
    }
  }

  lemma CommitInv(b: Books, row: Row, t: Ticket)
    requires Inv(b) && row.ticket in b.tickets && 1 <= row.count <= MAX_PASSENGERS
    requires AllBalanced(Commit(b, row, t)) && NonceDiscipline(b.rows + [row])
    requires b.tickets[row.ticket].status != Suspended && t.status != Suspended
    ensures Inv(Commit(b, row, t))
  {}

  lemma SyncInv(sch: Scheme, b: Books, item: Item, c: Context)
    requires Inv(b)
    ensures Inv(SyncItem(sch, b, item, c).0)
  {
    if CODE_MIN_LEN <= |item.code| <= CODE_MAX_LEN {
      var d := Redeem(sch, b, item, c);
      if d.Staged? && !Violates(b, d.row) {
        StagedRow(sch, b, item, c);
        DisciplineKept(b.rows, d.row);
        BalanceKept(b, d.row, d.ticket);
        CommitInv(b, d.row, d.ticket);
      }
    }
  }

  lemma SuspendInv(b: Books, g: Group)
    requires Inv(b)
    ensures Inv(Suspend(b, g))
  {
    var b' := Suspend(b, g);
    forall key | key in b'.tickets ensures Balanced(b', key) {
      assert Balanced(b, key);
    }
    if IsActive(b, g.ticket) {
      assert b'.alerts[..|b'.alerts| - 1] == b.alerts;
    }
  }

  lemma {:induction false} SweepInv(b: Books, groups: seq<Group>)
    requires Inv(b)
    ensures Inv(Sweep(b, groups))
  {
    if groups != [] {
      SweepInv(b, groups[..|groups| - 1]);
      SuspendInv(Sweep(b, groups[..|groups| - 1]), groups[|groups| - 1]);
    }
  }

  lemma NextInv(sch: Scheme, b: Books, a: Action)
    requires Inv(b) && Enabled(b, a)
    ensures Inv(Next(sch, b, a))
  {
    match a
    case Issue(key, t) => IssueInv(b, key, t);
    case NewTrip(trip) =>
      forall key | key in b.tickets ensures Balanced(Next(sch, b, a), key) {
        assert Balanced(b, key);
      }
    case Sync(item, c) => SyncInv(sch, b, item, c);
    case SweepPass(groups) => SweepInv(b, groups);
  }

  lemma ReachableInv(sch: Scheme, b: Books)
    requires Reachable(sch, b)
    ensures Inv(b)
  {
    var b0, actions :|
      Init(b0) && Runs.Legal(Enabled, Stepping(sch), b0, actions) && b == Runs.After(Stepping(sch), b0, actions);
    forall t, a | Inv(t) && Enabled(t, a) ensures Inv(Stepping(sch)(t, a)) {
      NextInv(sch, t, a);
    }
    Runs.InvariantOverRuns(Inv, Enabled, Stepping(sch), b0, actions);
  }
}
