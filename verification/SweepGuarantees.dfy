/** What the fraud sweep guarantees: every duplicated code on a ticket it can see ends in one suspension and one
    alert. */
module SweepGuarantees {
  import opened Base
  import opened Text
  import opened BoardingQr
  import opened Ledger
  import opened LedgerRuns
  import opened LedgerGuarantees
  import Runs

  predicate Shown(groups: seq<Group>, key: string) {
    exists g :: g in groups && g.ticket == key
  }

  /** A pass suspends exactly the active tickets it was shown and changes nothing else about any ticket or row. */
  lemma {:induction false} SweepSuspends(b: Books, groups: seq<Group>)
    ensures var b' := Sweep(b, groups);
      && b'.rows == b.rows && b'.trips == b.trips && b'.tickets.Keys == b.tickets.Keys
      && forall key :: key in b.tickets ==>
           b'.tickets[key] == if IsActive(b, key) && Shown(groups, key) then b.tickets[key].(status := Suspended)
                              else b.tickets[key]
  {
    if groups != [] {
      var n := |groups| - 1;
      SweepSuspends(b, groups[..n]);
      forall key ensures Shown(groups, key) <==> Shown(groups[..n], key) || key == groups[n].ticket {
        assert groups == groups[..n] + [groups[n]];
        assert groups[n] in groups;
      }
    }
  }

  function GroupSet(groups: seq<Group>): set<Group> {
    set g | g in groups
  }

  lemma {:induction false} DistinctGroups(groups: seq<Group>)
    requires forall i, j :: 0 <= i < j < |groups| ==> groups[i] != groups[j]
    ensures |GroupSet(groups)| == |groups|
  {
    if groups != [] {
      var n := |groups| - 1;
      DistinctGroups(groups[..n]);
      assert GroupSet(groups) == GroupSet(groups[..n]) + {groups[n]};
    }
  }

  /** Two rows of one ticket carry the code on different devices. */
  predicate Reused(rows: seq<Row>, g: Group) {
    exists i, j :: 0 <= i < j < |rows| && ReusedAt(rows, g, i, j)
  }

  predicate ReusedAt(rows: seq<Row>, g: Group, i: nat, j: nat)
    requires i < j < |rows|
  {
    && rows[i].nonce == rows[j].nonce == g.nonce && rows[i].ticket == rows[j].ticket == g.ticket
    && rows[i].device != rows[j].device
  }

  lemma ReusedIff(rows: seq<Row>, g: Group)
    ensures |GroupDevices(rows, g)| >= 2 <==> Reused(rows, g)
  {
    var devices := GroupDevices(rows, g);
    if i, j :| 0 <= i < j < |rows| && ReusedAt(rows, g, i, j) {
      assert {rows[i].device, rows[j].device} <= devices;
      SmallerSet({rows[i].device, rows[j].device}, devices);
    } else if |devices| >= 2 {
      var d :| d in devices;
      assert |devices - {d}| == |devices| - 1;
      var e :| e in devices - {d};
      var i :| 0 <= i < |rows| && rows[i].nonce == g.nonce && rows[i].ticket == g.ticket && rows[i].device == d;
      var j :| 0 <= j < |rows| && rows[j].nonce == g.nonce && rows[j].ticket == g.ticket && rows[j].device == e;
      assert if i < j then ReusedAt(rows, g, i, j) else ReusedAt(rows, g, j, i);
    }
  }

  lemma InOffending(b: Books, g: Group)
    ensures g in Offending(b) <==> IsOffending(b, g)
  {
    if IsOffending(b, g) {
      ReusedIff(b.rows, g);
      var i, j :| 0 <= i < j < |b.rows| && ReusedAt(b.rows, g, i, j);
      assert Group(b.rows[i].nonce, b.rows[i].ticket) == g;
    }
  }

  /** What the query looks for: codes of active tickets on two devices or more. */
  lemma OffendingIff(b: Books, g: Group)
    ensures g in Offending(b) <==> g.ticket in b.tickets && b.tickets[g.ticket].status == Active && Reused(b.rows, g)
  {
    InOffending(b, g);
    ReusedIff(b.rows, g);
  }

  /** One pass clears exactly the groups whose ticket it was shown, so at least as many as the query returned. */
  lemma SweepClears(b: Books, groups: seq<Group>)
    requires QueryAnswer(b, groups)
    ensures forall g :: g in Offending(Sweep(b, groups)) <==>
      g in Offending(b) && !Shown(groups, g.ticket)
    ensures |Offending(Sweep(b, groups))| <= |Offending(b)| - |groups|
  {
    var b' := Sweep(b, groups);
    SweepSuspends(b, groups);
    forall g ensures g in Offending(b') <==> g in Offending(b) && !Shown(groups, g.ticket) {
      InOffending(b, g);
      InOffending(b', g);
    }
    DistinctGroups(groups);
    assert Offending(b') <= Offending(b) - GroupSet(groups);
    assert GroupSet(groups) <= Offending(b);
    SmallerSet(Offending(b'), Offending(b) - GroupSet(groups));
  }

  lemma {:induction false} SmallerSet<T>(a: set<T>, b: set<T>)
    requires a <= b
    ensures |a| <= |b|
  {
    assert b == a + (b - a);
  }

  /** Consecutive passes with no boarding in between. */
  function SweepPasses(b: Books, passes: seq<seq<Group>>): Books {
    if passes == [] then b else Sweep(SweepPasses(b, passes[..|passes| - 1]), passes[|passes| - 1])
  }

  ghost predicate QueryAnswers(b: Books, passes: seq<seq<Group>>) {
    passes != [] ==>
      var n := |passes| - 1;
      QueryAnswers(b, passes[..n]) && QueryAnswer(SweepPasses(b, passes[..n]), passes[n])
  }

  lemma {:induction false} PassesShrink(b: Books, passes: seq<seq<Group>>)
    requires QueryAnswers(b, passes)
    ensures |Offending(SweepPasses(b, passes))| <= MaxInt(0, |Offending(b)| - BATCH * |passes|)
    ensures SweepPasses(b, passes).rows == b.rows
  {
    if passes != [] {
      var n := |passes| - 1;
      PassesShrink(b, passes[..n]);
      SweepClears(SweepPasses(b, passes[..n]), passes[n]);
      SweepSuspends(SweepPasses(b, passes[..n]), passes[n]);
    }
  }

  /** Enough passes leave no active ticket with one code on two devices. */
  lemma SweepConverges(b: Books, passes: seq<seq<Group>>, g: Group)
    requires QueryAnswers(b, passes) && |Offending(b)| <= BATCH * |passes|
    requires var b' := SweepPasses(b, passes); g.ticket in b'.tickets && b'.tickets[g.ticket].status == Active
    ensures !Reused(SweepPasses(b, passes).rows, g)
  {
    PassesShrink(b, passes);
    OffendingIff(SweepPasses(b, passes), g);
  }

  lemma {:induction false} SweepSparesInactive(b: Books, groups: seq<Group>, key: string)
    requires key in b.tickets && b.tickets[key].status != Active
    ensures var b' := Sweep(b, groups);
      key in b'.tickets && b'.tickets[key] == b.tickets[key] && AlertsFor(b'.alerts, key) == AlertsFor(b.alerts, key)
  {
    if groups != [] {
      var n := |groups| - 1;
      SweepSparesInactive(b, groups[..n], key);
      var before, after := Sweep(b, groups[..n]), Sweep(b, groups);
      assert after.alerts != before.alerts ==> after.alerts[..|before.alerts|] == before.alerts;
    }
  }

  /** A used-up ticket is out of the sweep's reach for good: later duplicates of its codes are filed, but no step ever
      changes it or raises an alert for it. */
  lemma ExhaustedIsFinal(sch: Scheme, b: Books, a: Action, key: string)
    requires Reachable(sch, b) && Enabled(b, a) && key in b.tickets && b.tickets[key].status == Exhausted
    ensures key in Next(sch, b, a).tickets && Next(sch, b, a).tickets[key] == b.tickets[key]
    ensures AlertsFor(Next(sch, b, a).alerts, key) == 0
  {
    ReachableInv(sch, b);
    assert Balanced(b, key);
    match a
    case SweepPass(groups) => SweepSparesInactive(b, groups, key);
    case Sync(item, c) => ExhaustedSurvivesSync(sch, b, item, c, key);
    case _ =>
  }

  lemma ExhaustedSurvivesSync(sch: Scheme, b: Books, item: Item, c: Context, key: string)
    requires key in b.tickets && b.tickets[key].ridesRemaining == Some(0)
    ensures var b' := SyncItem(sch, b, item, c).0;
      b'.alerts == b.alerts && key in b'.tickets && b'.tickets[key] == b.tickets[key]
  {}

  function TicketsOf(groups: seq<Group>): set<string> {
    set i | 0 <= i < |groups| :: groups[i].ticket
  }

  lemma OneMoreTicket(groups: seq<Group>)
    requires groups != []
    ensures var n := |groups| - 1;
      |TicketsOf(groups)| == |TicketsOf(groups[..n])| + (if Shown(groups[..n], groups[n].ticket) then 0 else 1)
  {
    var n := |groups| - 1;
    var front, ticket := groups[..n], groups[n].ticket;
    assert TicketsOf(groups) == TicketsOf(front) + {ticket};
    if ticket in TicketsOf(front) {
      var i :| 0 <= i < n && front[i].ticket == ticket;
      assert front[i] in front;
    }
    if Shown(front, ticket) {
      var g :| g in front && g.ticket == ticket;
      var i :| 0 <= i < n && front[i] == g;
      assert TicketsOf(groups) == TicketsOf(front);
    }
  }

  /** How many devices reported the code for that ticket. */
  function DeviceCount(rows: seq<Row>, nonce: string, ticket: string): nat {
    |set k | 0 <= k < |rows| && rows[k].nonce == nonce && rows[k].ticket == ticket :: rows[k].device|
  }

  /** The alert names a ticket shown, and counts the devices that reported the code it was shown for: at least two. */
  predicate Tells(rows: seq<Row>, groups: seq<Group>, a: Alert) {
    && a.devices >= 2
    && exists g :: g in groups && g.ticket == a.ticket && a.devices == DeviceCount(rows, g.nonce, g.ticket)
  }

  /** One alert more for each of these tickets, none for any other, each telling its story. */
  ghost predicate Raised(rows: seq<Row>, groups: seq<Group>, before: seq<Alert>, after: seq<Alert>) {
    && before <= after && |after| == |before| + |TicketsOf(groups)|
    && (forall key :: AlertsFor(after, key) == AlertsFor(before, key) + (if Shown(groups, key) then 1 else 0))
    && forall i :: |before| <= i < |after| ==> Tells(rows, groups, after[i])
  }

  lemma ShownGrows(groups: seq<Group>, g: Group)
    ensures forall key :: Shown(groups + [g], key) <==> Shown(groups, key) || key == g.ticket
  {
    forall key ensures Shown(groups + [g], key) <==> Shown(groups, key) || key == g.ticket {
      assert g in groups + [g];
      if k :| k in groups && k.ticket == key {
        assert k in groups + [g];
      }
    }
  }

  lemma TellsMore(rows: seq<Row>, groups: seq<Group>, g: Group, a: Alert)
    requires Tells(rows, groups, a)
    ensures Tells(rows, groups + [g], a)
  {
    var k :| k in groups && k.ticket == a.ticket && a.devices == DeviceCount(rows, k.nonce, k.ticket);
    assert k in groups + [g];
  }

  lemma RaisedOnce(rows: seq<Row>, groups: seq<Group>, g: Group, before: seq<Alert>, after: seq<Alert>)
    requires Raised(rows, groups, before, after)
    requires !Shown(groups, g.ticket) && DeviceCount(rows, g.nonce, g.ticket) >= 2
    ensures Raised(rows, groups + [g], before, after + [Alert(g.ticket, DeviceCount(rows, g.nonce, g.ticket))])
  {
    var a := Alert(g.ticket, DeviceCount(rows, g.nonce, g.ticket));
    ShownGrows(groups, g);
    assert (groups + [g])[..|groups|] == groups && (after + [a])[..|after|] == after;
    OneMoreTicket(groups + [g]);
    assert g in groups + [g];
    forall i | |before| <= i < |after + [a]| ensures Tells(rows, groups + [g], (after + [a])[i]) {
      if i < |after| {
        TellsMore(rows, groups, g, after[i]);
      }
    }
  }

  lemma RaisedNoMore(rows: seq<Row>, groups: seq<Group>, g: Group, before: seq<Alert>, after: seq<Alert>)
    requires Raised(rows, groups, before, after) && Shown(groups, g.ticket)
    ensures Raised(rows, groups + [g], before, after)
  {
    ShownGrows(groups, g);
    assert (groups + [g])[..|groups|] == groups;
    OneMoreTicket(groups + [g]);
    forall i | |before| <= i < |after| ensures Tells(rows, groups + [g], after[i]) {
      TellsMore(rows, groups, g, after[i]);
    }
  }

  lemma SuspendAlerts(b: Books, g: Group)
    ensures Suspend(b, g).alerts
      == if IsActive(b, g.ticket) then b.alerts + [Alert(g.ticket, DeviceCount(b.rows, g.nonce, g.ticket))]
         else b.alerts
  {
    assert GroupDevices(b.rows, g) == set k | 0 <= k < |b.rows| && b.rows[k].nonce == g.nonce
                                              && b.rows[k].ticket == g.ticket :: b.rows[k].device;
  }

  lemma OffendingCount(b: Books, g: Group)
    requires g in Offending(b)
    ensures IsActive(b, g.ticket) && DeviceCount(b.rows, g.nonce, g.ticket) >= 2
  {
    InOffending(b, g);
    assert GroupDevices(b.rows, g) == set k | 0 <= k < |b.rows| && b.rows[k].nonce == g.nonce
                                              && b.rows[k].ticket == g.ticket :: b.rows[k].device;
  }

  lemma StillActive(b: Books, groups: seq<Group>, key: string)
    requires IsActive(b, key)
    ensures IsActive(Sweep(b, groups), key) <==> !Shown(groups, key)
    ensures Sweep(b, groups).rows == b.rows
  {
    SweepSuspends(b, groups);
  }

  lemma AlertsStep(b: Books, front: seq<Group>, g: Group)
    requires g in Offending(b)
    ensures var alerts := Sweep(b, front).alerts;
      Sweep(b, front + [g]).alerts
        == if Shown(front, g.ticket) then alerts
           else alerts + [Alert(g.ticket, DeviceCount(b.rows, g.nonce, g.ticket))]
    ensures DeviceCount(b.rows, g.nonce, g.ticket) >= 2
  {
    OffendingCount(b, g);
    StillActive(b, front, g.ticket);
    SuspendAlerts(Sweep(b, front), g);
    assert (front + [g])[..|front|] == front;
  }

  lemma RaisedFurther(b: Books, front: seq<Group>, g: Group)
    requires g in Offending(b) && Raised(b.rows, front, b.alerts, Sweep(b, front).alerts)
    ensures Raised(b.rows, front + [g], b.alerts, Sweep(b, front + [g]).alerts)
  {
    AlertsStep(b, front, g);
    if Shown(front, g.ticket) {
      RaisedNoMore(b.rows, front, g, b.alerts, Sweep(b, front).alerts);
    } else {
      RaisedOnce(b.rows, front, g, b.alerts, Sweep(b, front).alerts);
    }
  }

  /** A pass raises one alert per distinct ticket it was shown, each with the number of devices that reported its
      code. */
  lemma {:induction false} OneAlertPerTicket(b: Books, groups: seq<Group>)
    requires forall g :: g in groups ==> g in Offending(b)
    ensures Raised(b.rows, groups, b.alerts, Sweep(b, groups).alerts)
  {
    if groups != [] {
      var front, g := groups[..|groups| - 1], groups[|groups| - 1];
      OneAlertPerTicket(b, front);
      RaisedFurther(b, front, g);
      assert groups == front + [g];
    }
  }

  // ----- where the evidence leads

  /** Passes suspend active tickets and do nothing else to any ticket. */
  lemma {:induction false} PassesOnlySuspend(b: Books, passes: seq<seq<Group>>, key: string)
    requires key in b.tickets
    ensures key in SweepPasses(b, passes).tickets
    ensures var t, t' := b.tickets[key], SweepPasses(b, passes).tickets[key];
      t' == t || (t.status == Active && t' == t.(status := Suspended))
  {
    if passes != [] {
      var n := |passes| - 1;
      PassesOnlySuspend(b, passes[..n], key);
      SweepSuspends(SweepPasses(b, passes[..n]), passes[n]);
    }
  }

  lemma {:induction false} PassesKeepInv(b: Books, passes: seq<seq<Group>>)
    requires Inv(b)
    ensures Inv(SweepPasses(b, passes))
  {
    if passes != [] {
      PassesKeepInv(b, passes[..|passes| - 1]);
      SweepInv(SweepPasses(b, passes[..|passes| - 1]), passes[|passes| - 1]);
    }
  }

  /** In every reachable ledger, after enough passes a code that boarded on two devices has led to its ticket's
      suspension and one alert, if and only if the ticket was not used up when the passes began. */
  lemma EvidenceLeadsToSuspensionIff(sch: Scheme, b: Books, passes: seq<seq<Group>>, g: Group)
    requires Reachable(sch, b) && QueryAnswers(b, passes) && |Offending(b)| <= BATCH * |passes|
    requires g.ticket in b.tickets && Reused(b.rows, g)
    ensures var b' := SweepPasses(b, passes);
      && g.ticket in b'.tickets
      && ((b'.tickets[g.ticket].status == Suspended && AlertsFor(b'.alerts, g.ticket) == 1)
          <==> b.tickets[g.ticket].status != Exhausted)
  {
    var b' := SweepPasses(b, passes);
    ReachableInv(sch, b);
    PassesKeepInv(b, passes);
    PassesOnlySuspend(b, passes, g.ticket);
    PassesShrink(b, passes);
    if IsActive(b', g.ticket) {
      SweepConverges(b, passes, g);
    }
    assert Balanced(b, g.ticket);
  }

  /** The input for which evidence leads nowhere: a ticket's last rides board on one device, then the same code is
      synced from another. Both are accepted, and the ticket is used up with two devices on record for one code. */
  lemma LastRideThenSecondDevice(sch: Scheme, b: Books, k: seq<byte>, p: Payload,
      first: Item, c: Context, second: Item, c': Context)
    requires Presents(sch, b, k, p, first, c) && Presents(sch, b, k, p, second, c') && first.device != second.device
    requires !Sighted(b.rows, p.nonce) && b.tickets[p.ticketId].ridesRemaining == Some(p.passengerCount)
    requires TripIsReal(b, first) && TripIsReal(b, second)
    ensures var (b', answers) := SyncBatch(sch, b, [(first, c), (second, c')]);
      && Accepted(answers[0]) && Accepted(answers[1])
      && p.ticketId in b'.tickets && b'.tickets[p.ticketId].status == Exhausted
      && b'.rows == b.rows + [RowFor(p, Clean, first, c)] + [RowFor(p, DuplicateSuspect, second, c')]
      && Reused(b'.rows, Group(p.nonce, p.ticketId))
  {
    var one, two := RowFor(p, Clean, first, c), RowFor(p, DuplicateSuspect, second, c');
    GenuineCodeBoards(sch, b, k, p, first, c);
    var b1 := SyncItem(sch, b, first, c).0;
    StillNew(b.rows, one, second.device);
    StillPresented(sch, b, b1, k, p, second, c');
    SecondDeviceIsSuspect(sch, b1, k, p, second, c');
    TwoItems(sch, b, (first, c), (second, c'));
    TwoDevices(b.rows, one, two);
  }

  /** Being used up does not make a code unreadable or its ticket's window closed. */
  lemma StillPresented(sch: Scheme, b: Books, b': Books, k: seq<byte>, p: Payload, item: Item, c: Context)
    requires Presents(sch, b, k, p, item, c)
    requires b'.tickets == b.tickets[p.ticketId := Charged(b.tickets[p.ticketId], p.passengerCount)]
    ensures Presents(sch, b', k, p, item, c)
  {}

  lemma StillNew(rows: seq<Row>, row: Row, device: string)
    requires !Sighted(rows, row.nonce) && row.device != device
    ensures Sighted(rows + [row], row.nonce) && !HasRow(rows + [row], device, row.nonce)
  {
    assert (rows + [row])[|rows|] == row;
  }

  lemma TwoItems(sch: Scheme, b: Books, x: (Item, Context), y: (Item, Context))
    ensures var b1 := SyncItem(sch, b, x.0, x.1).0;
      SyncBatch(sch, b, [x, y]) ==
        (SyncItem(sch, b1, y.0, y.1).0, [SyncItem(sch, b, x.0, x.1).1, SyncItem(sch, b1, y.0, y.1).1])
  {
    var (b1, a1) := SyncItem(sch, b, x.0, x.1);
    LastItem(sch, b, [], x);
    assert [] + [x] == [x] && [] + [a1] == [a1];
    LastItem(sch, b, [x], y);
    assert [x] + [y] == [x, y];
    assert SyncBatch(sch, b, [x]) == (b1, [a1]);
    var (b2, a2) := SyncItem(sch, b1, y.0, y.1);
    assert [a1] + [a2] == [a1, a2];
  }

  lemma LastItem(sch: Scheme, b: Books, items: seq<(Item, Context)>, x: (Item, Context))
    ensures var (b', answers) := SyncBatch(sch, b, items);
      SyncBatch(sch, b, items + [x]) == (SyncItem(sch, b', x.0, x.1).0, answers + [SyncItem(sch, b', x.0, x.1).1])
  {
    assert (items + [x])[..|items|] == items;
  }

  lemma TwoDevices(rows: seq<Row>, one: Row, two: Row)
    requires one.device != two.device && one.nonce == two.nonce && one.ticket == two.ticket
    ensures Reused(rows + [one] + [two], Group(one.nonce, one.ticket))
  {
    var all := rows + [one] + [two];
    assert all[|rows|] == one && all[|rows| + 1] == two;
    assert ReusedAt(all, Group(one.nonce, one.ticket), |rows|, |rows| + 1);
  }

  // ----- the input, reached from an empty ledger

  /** Any scheme will do; this one signs with nothing and verifies everything. */
  const SCHEME := Scheme(
    (k: seq<byte>) => k, (k: seq<byte>, m: string) => [], (k: seq<byte>, m: string, x: seq<byte>) => true)

  const PAYLOAD := Payload("ticket-1", 1, 0, "nonce-01")
  const TICKET := Ticket(Some(1), Some(1), 0.0, 86400.0, "", Active)
  const NOW := Context(1, 0.0, 0)

  const PARTS := Fields(PAYLOAD) + [B64([])]

  function Scanned(device: string): Item {
    Item(Join(PARTS, '.'), device, 0.0, None)
  }

  lemma {:induction false} JoinBounds(parts: seq<string>, most: nat)
    requires parts != [] && forall s :: s in parts ==> |s| <= most
    ensures |parts[0]| <= |Join(parts, '.')| <= |parts| * (most + 1)
  {
    if |parts| > 1 {
      forall s | s in parts[1..] ensures |s| <= most {
        assert s in parts;
      }
      JoinBounds(parts[1..], most);
      assert parts[0] in parts && (|parts| - 1) * (most + 1) + (most + 1) == |parts| * (most + 1);
    }
  }

  lemma CodeLength()
    ensures CODE_MIN_LEN <= |Join(PARTS, '.')| <= CODE_MAX_LEN
  {
    assert |Digits(1)| == 1 && |Digits(0)| == 1;
    assert PARTS == ["ticket-1", Decimal(1), Decimal(0), "nonce-01", ""];
    JoinBounds(PARTS, 8);
  }

  lemma ScannedIsPresented(b: Books, device: string)
    requires "ticket-1" in b.tickets && b.tickets["ticket-1"].publicKey == ""
    requires InForce(b.tickets["ticket-1"], 0.0)
    ensures Presents(SCHEME, b, [], PAYLOAD, Scanned(device), NOW)
  {
    CodeLength();
    B64RoundTrip([]);
  }

  /** A one-ride ticket is issued, boards on device A and is scanned again on device B; no later step touches it. */
  lemma EvidenceCanLeadNowhere() returns (b: Books)
    ensures Reachable(SCHEME, b) && "ticket-1" in b.tickets && b.tickets["ticket-1"].status == Exhausted
    ensures Reused(b.rows, Group("nonce-01", "ticket-1"))
  {
    var b0 := Books(map[], [], [], {});
    var issued := b0.(tickets := map["ticket-1" := TICKET]);
    var items := [(Scanned("A"), NOW), (Scanned("B"), NOW)];
    ScannedIsPresented(issued, "A");
    ScannedIsPresented(issued, "B");
    LastRideThenSecondDevice(SCHEME, issued, [], PAYLOAD, Scanned("A"), NOW, Scanned("B"), NOW);
    BatchIsARun(SCHEME, issued, items);
    b := SyncBatch(SCHEME, issued, items).0;
    IssueFirst(b0, issued, Syncs(items), b);
  }

  lemma IssueFirst(b0: Books, issued: Books, run: seq<Action>, b: Books)
    requires Init(b0) && issued == Next(SCHEME, b0, Issue("ticket-1", TICKET))
    requires Runs.Legal(Enabled, Stepping(SCHEME), issued, run) && b == Runs.After(Stepping(SCHEME), issued, run)
    ensures Reachable(SCHEME, b)
  {
    Runs.Prepend(Enabled, Stepping(SCHEME), b0, Issue("ticket-1", TICKET), run);
  }
}
