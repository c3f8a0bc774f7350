/** What the boarding ledger guarantees: conservation, one charge per code, safe re-sync. */
module LedgerGuarantees {
  import opened Base
  import opened Text
  import opened BoardingQr
  import opened Ledger
  import opened LedgerRuns
  import Runs

  // ----- every reachable ledger

  /** Rides sold are rides left plus passengers boarded cleanly; exhausted means exactly none left. */
  lemma RidesConserved(sch: Scheme, b: Books, key: string)
    requires Reachable(sch, b) && key in b.tickets && b.tickets[key].ridesTotal.Some?
    ensures var t := b.tickets[key];
      && t.ridesRemaining.Some? && 0 <= t.ridesRemaining.value <= t.ridesTotal.value
      && t.ridesTotal.value == t.ridesRemaining.value + Boarded(b.rows, key)
      && (t.status == Exhausted <==> t.ridesRemaining.value == 0)
  {
    ReachableInv(sch, b);
    assert Balanced(b, key);
    BoardedNonNegative(b.rows, key);
  }

  lemma {:induction false} BoardedNonNegative(rows: seq<Row>, key: string)
    requires forall i :: 0 <= i < |rows| ==> rows[i].count >= 1
    ensures Boarded(rows, key) >= 0
  {
    if rows != [] {
      BoardedNonNegative(rows[..|rows| - 1], key);
    }
  }

  /** Devices that reported a nonce, and those whose report was flagged. */
  function Devices(rows: seq<Row>, nonce: string): set<string> {
    set i | 0 <= i < |rows| && rows[i].nonce == nonce :: rows[i].device
  }

  function FlaggedDevices(rows: seq<Row>, nonce: string): set<string> {
    set i | 0 <= i < |rows| && rows[i].nonce == nonce && rows[i].flag == DuplicateSuspect :: rows[i].device
  }

  /** Every recorded nonce has exactly one clean row; the others are suspects from other devices, so counting
      only flagged rows misses exactly one device. */
  lemma OneCleanRowPerNonce(sch: Scheme, b: Books, nonce: string) returns (first: nat)
    requires Reachable(sch, b) && Sighted(b.rows, nonce)
    ensures first < |b.rows| && b.rows[first].nonce == nonce && b.rows[first].flag == Clean
    ensures forall i :: 0 <= i < |b.rows| && b.rows[i].nonce == nonce && i != first ==>
      i > first && b.rows[i].flag == DuplicateSuspect
    ensures forall i, j :: 0 <= i < j < |b.rows| && b.rows[i].nonce == b.rows[j].nonce == nonce ==>
      b.rows[i].device != b.rows[j].device
    ensures |Devices(b.rows, nonce)| == |FlaggedDevices(b.rows, nonce)| + 1
  {
    ReachableInv(sch, b);
    first := Earliest(b.rows, nonce);
    OthersAreSuspects(b.rows, nonce, first);
    FlaggedMissOne(b.rows, nonce, first);
  }

  lemma OthersAreSuspects(rows: seq<Row>, nonce: string, first: nat)
    requires NonceDiscipline(rows) && first < |rows| && rows[first].nonce == nonce && !Sighted(rows[..first], nonce)
    ensures rows[first].flag == Clean
    ensures forall i :: 0 <= i < |rows| && rows[i].nonce == nonce && i != first ==>
      i > first && rows[i].flag == DuplicateSuspect && rows[i].device != rows[first].device
  {
    forall i | 0 <= i < first ensures rows[i].nonce != nonce {
      assert rows[..first][i] == rows[i];
    }
  }

  lemma FlaggedMissOne(rows: seq<Row>, nonce: string, first: nat)
    requires first < |rows| && rows[first].nonce == nonce && rows[first].flag == Clean
    requires forall i :: 0 <= i < |rows| && rows[i].nonce == nonce && i != first ==>
      rows[i].flag == DuplicateSuspect && rows[i].device != rows[first].device
    ensures |Devices(rows, nonce)| == |FlaggedDevices(rows, nonce)| + 1
  {
    var d := rows[first].device;
    assert d !in FlaggedDevices(rows, nonce);
    assert Devices(rows, nonce) == FlaggedDevices(rows, nonce) + {d};
  }

  lemma Earliest(rows: seq<Row>, nonce: string) returns (i: nat)
    requires Sighted(rows, nonce)
    ensures i < |rows| && rows[i].nonce == nonce && !Sighted(rows[..i], nonce)
  {
    i := 0;
    while rows[i].nonce != nonce
      invariant 0 <= i < |rows| && !Sighted(rows[..i], nonce) && Sighted(rows, nonce)
      decreases |rows| - i
    {
      assert rows[..i + 1] == rows[..i] + [rows[i]];
      i := i + 1;
    }
  }

  /** Exactly one alert was ever raised for a suspended ticket, and none for any other. */
  lemma OneAlertPerSuspension(sch: Scheme, b: Books, key: string)
    requires Reachable(sch, b) && key in b.tickets
    ensures AlertsFor(b.alerts, key) == if b.tickets[key].status == Suspended then 1 else 0
  {
    ReachableInv(sch, b);
  }

  // ----- one item

  /** The nonce a code carries, if it reads at all. */
  predicate Carries(code: string, nonce: string) {
    ParseQr(code).Parsed? && ParseQr(code).payload.nonce == nonce
  }

  lemma RedeemedNonce(sch: Scheme, b: Books, item: Item, c: Context, nonce: string)
    requires Carries(item.code, nonce)
    ensures var d := Redeem(sch, b, item, c);
      && (d.Seen? ==> HasRow(b.rows, item.device, nonce))
      && (d.Staged? ==> d.row.nonce == nonce && d.row.device == item.device && d.row.trip == item.trip)
  {
    var d := Redeem(sch, b, item, c);
    if d.Seen? {
      var i :| 0 <= i < |b.rows| && b.rows[i] == d.row;
    }
  }

  /** Re-submitting what this device already reported changes nothing, whichever row the lookup returns,
      whenever it is sent and whatever else it claims. */
  lemma ResyncChangesNothing(sch: Scheme, b: Books, item: Item, c: Context, nonce: string)
    requires Carries(item.code, nonce) && HasRow(b.rows, item.device, nonce)
    ensures SyncItem(sch, b, item, c).0 == b
  {
    RedeemedNonce(sch, b, item, c, nonce);
  }

  lemma HasRowGrows(rows: seq<Row>, rows': seq<Row>, device: string, nonce: string)
    requires rows <= rows' && HasRow(rows, device, nonce)
    ensures HasRow(rows', device, nonce)
  {
    var i :| 0 <= i < |rows| && rows[i].nonce == nonce && rows[i].device == device;
    assert rows'[i] == rows[i];
  }

  /** Whatever happens to the ledger in between, a boarding this device reported once is never charged again: sending it
      after any run changes nothing. */
  lemma ResyncAfterAnyRun(sch: Scheme, b: Books, actions: seq<Action>, item: Item, c: Context, nonce: string)
    requires Carries(item.code, nonce) && HasRow(b.rows, item.device, nonce)
    ensures var b' := Runs.After(Stepping(sch), b, actions); SyncItem(sch, b', item, c).0 == b'
  {
    var b' := Runs.After(Stepping(sch), b, actions);
    RowsOnlyGrow(sch, b, actions);
    HasRowGrows(b.rows, b'.rows, item.device, nonce);
    ResyncChangesNothing(sch, b', item, c, nonce);
  }

  /** No step removes or rewrites a row. */
  lemma {:induction false} RowsOnlyGrow(sch: Scheme, b: Books, actions: seq<Action>)
    ensures b.rows <= Runs.After(Stepping(sch), b, actions).rows
  {
    if actions != [] {
      var n := |actions| - 1;
      RowsOnlyGrow(sch, b, actions[..n]);
      if actions[n].SweepPass? {
        SweepKeepsRows(Runs.After(Stepping(sch), b, actions[..n]), actions[n].groups);
      }
    }
  }

  lemma {:induction false} SweepKeepsRows(b: Books, groups: seq<Group>)
    ensures Sweep(b, groups).rows == b.rows
  {
    if groups != [] {
      SweepKeepsRows(b, groups[..|groups| - 1]);
    }
  }

  /** An accepted item is in the books exactly when it was already, or its trip is absent or real: a boarding filed
      under a trip that does not exist is answered "already recorded" and kept nowhere. */
  lemma AcceptedIsRecorded(sch: Scheme, b: Books, item: Item, c: Context, nonce: string)
    requires Carries(item.code, nonce) && Accepted(SyncItem(sch, b, item, c).1)
    ensures HasRow(SyncItem(sch, b, item, c).0.rows, item.device, nonce)
      <==> HasRow(b.rows, item.device, nonce) || item.trip.None? || item.trip.value in b.trips
  {
    RedeemedNonce(sch, b, item, c, nonce);
    var b' := SyncItem(sch, b, item, c).0;
    if HasRow(b.rows, item.device, nonce) {
      ResyncChangesNothing(sch, b, item, c, nonce);
    } else {
      var d := Redeem(sch, b, item, c);
      if !Violates(b, d.row) {
        assert b'.rows[|b.rows|] == d.row;
      }
    }
  }

  /** A code built with the private key of the ticket it names, for this payload, fresh. */
  ghost predicate Built(sch: Scheme, b: Books, k: seq<byte>, p: Payload, item: Item, c: Context) {
    && Sound(sch) && DotFree(p) && 1 <= p.passengerCount <= 60 && Fresh(p.timeSlice, c.now)
    && BuildQr(sch, B64(k), p) == Some(item.code) && 8 <= |item.code| <= 512
    && p.ticketId in b.tickets && b.tickets[p.ticketId].publicKey == B64(sch.publicKey(k))
  }

  /** Neither withdrawn nor out of its time, used up or not. */
  predicate InForce(t: Ticket, now: real) {
    (t.status == Active || t.status == Exhausted) && t.validFrom <= now <= t.validTo
  }

  /** Such a code while its ticket is in force. */
  ghost predicate Presents(sch: Scheme, b: Books, k: seq<byte>, p: Payload, item: Item, c: Context) {
    Built(sch, b, k, p, item, c) && InForce(b.tickets[p.ticketId], c.now)
  }

  predicate HasRoom(t: Ticket, count: int) {
    t.ridesRemaining.Some? ==> count <= t.ridesRemaining.value
  }

  predicate TripIsReal(b: Books, item: Item) {
    item.trip.Some? ==> item.trip.value in b.trips
  }

  function RowFor(p: Payload, flag: Flag, item: Item, c: Context): Row {
    Row(p.ticketId, item.device, p.nonce, p.passengerCount, flag, item.trip, c.helper, item.redeemedAt, c.now)
  }

  lemma HeadOfBuilt(sch: Scheme, k: seq<byte>, p: Payload)
    requires DotFree(p)
    ensures var code := BuildQr(sch, B64(k), p); code.Some? && Head(code.value) == p.ticketId
  {
    B64RoundTrip(k);
    var signature := B64(sch.sign(k, SigningBytes(p)));
    B64HasNoDot(sch.sign(k, SigningBytes(p)));
    FieldsSplit(p, [signature]);
  }

  /** Such a code is read as its own ticket and payload. */
  lemma PresentedCode(sch: Scheme, b: Books, k: seq<byte>, p: Payload, item: Item, c: Context)
    requires Built(sch, b, k, p, item, c)
    ensures Head(item.code) == p.ticketId && ClaimedNonce(item.code) == Some(p.nonce)
    ensures VerifyQr(sch, item.code, b.tickets[p.ticketId].publicKey, c.now) == Genuine(p)
  {
    VerifyAfterBuild(sch, k, p, c.now);
    ParseAfterBuild(sch, k, p);
    HeadOfBuilt(sch, k, p);
  }

  /** Why a genuine code is refused: the ticket was withdrawn, then its time, then, on a first sighting, its rides. */
  function WhyRefused(t: Ticket, count: int, now: real): Reason {
    if t.status == Revoked then TicketRevoked
    else if t.status == Suspended then TicketSuspended
    else if t.status == OutOfDate || now > t.validTo then TicketExpired
    else if now < t.validFrom then NotYetValid
    else if t.ridesRemaining.Some? && t.ridesRemaining.value < 1 then NoRidesRemaining
    else GroupTooLarge
  }

  /** A genuine code is refused if and only if its ticket is not in force or, on a first sighting, has no room for the
      group; the books stay, and the reason is the one that applies. */
  lemma RefusedIff(sch: Scheme, b: Books, k: seq<byte>, p: Payload, item: Item, c: Context)
    requires Built(sch, b, k, p, item, c)
    ensures var t, (b', answer) := b.tickets[p.ticketId], SyncItem(sch, b, item, c);
      && (answer.Refused? <==>
            || t.status == Revoked || t.status == Suspended || t.status == OutOfDate
            || c.now > t.validTo || c.now < t.validFrom
            || (!Sighted(b.rows, p.nonce) && t.ridesRemaining.Some? && p.passengerCount > t.ridesRemaining.value))
      && (answer.Refused? ==> b' == b && answer == Refused(Some(p.nonce), WhyRefused(t, p.passengerCount, c.now)))
  {
    PresentedCode(sch, b, k, p, item, c);
  }

  // ----- boardings and the time of their tickets

  predicate WithinItsTicket(tickets: map<string, Ticket>, row: Row) {
    row.ticket in tickets && tickets[row.ticket].validFrom <= row.syncedAt <= tickets[row.ticket].validTo
  }

  ghost predicate AllWithin(b: Books) {
    forall i :: 0 <= i < |b.rows| ==> WithinItsTicket(b.tickets, b.rows[i])
  }

  /** Tickets stay, for the time they were issued for. */
  ghost predicate SameTimes(was: map<string, Ticket>, tickets: map<string, Ticket>) {
    forall key :: key in was ==>
      key in tickets && tickets[key].validFrom == was[key].validFrom && tickets[key].validTo == was[key].validTo
  }

  lemma {:induction false} SweepKeepsTimes(b: Books, groups: seq<Group>)
    ensures SameTimes(b.tickets, Sweep(b, groups).tickets)
  {
    if groups != [] {
      SweepKeepsTimes(b, groups[..|groups| - 1]);
    }
  }

  lemma StagedWithin(sch: Scheme, b: Books, item: Item, c: Context)
    requires Redeem(sch, b, item, c).Staged?
    ensures var d := Redeem(sch, b, item, c);
      WithinItsTicket(b.tickets, d.row) && SameTimes(b.tickets, b.tickets[d.row.ticket := d.ticket])
  {}

  lemma StillWithin(b: Books, rows: seq<Row>, tickets: map<string, Ticket>)
    requires AllWithin(b) && SameTimes(b.tickets, tickets) && b.rows <= rows
    requires forall i :: |b.rows| <= i < |rows| ==> WithinItsTicket(b.tickets, rows[i])
    ensures forall i :: 0 <= i < |rows| ==> WithinItsTicket(tickets, rows[i])
  {
    forall i | 0 <= i < |rows| ensures WithinItsTicket(tickets, rows[i]) {
      if i < |b.rows| {
        assert WithinItsTicket(b.tickets, b.rows[i]);
      }
    }
  }

  lemma WithinStep(sch: Scheme, b: Books, a: Action)
    requires AllWithin(b) && Enabled(b, a)
    ensures AllWithin(Next(sch, b, a))
  {
    var b' := Next(sch, b, a);
    match a
    case Issue(_, _) => StillWithin(b, b.rows, b'.tickets);
    case NewTrip(_) =>
    case Sync(item, c) =>
      if b' != b {
        StagedWithin(sch, b, item, c);
        StillWithin(b, b'.rows, b'.tickets);
      }
    case SweepPass(groups) =>
      SweepKeepsTimes(b, groups);
      SweepKeepsRows(b, groups);
      StillWithin(b, b.rows, b'.tickets);
  }

  /** Every boarding on record was taken while its ticket was valid. */
  lemma BoardedInTime(sch: Scheme, b: Books, i: nat)
    requires Reachable(sch, b) && i < |b.rows|
    ensures b.rows[i].ticket in b.tickets
    ensures b.tickets[b.rows[i].ticket].validFrom <= b.rows[i].syncedAt <= b.tickets[b.rows[i].ticket].validTo
  {
    var b0, actions :|
      Init(b0) && Runs.Legal(Enabled, Stepping(sch), b0, actions) && b == Runs.After(Stepping(sch), b0, actions);
    forall t, a | AllWithin(t) && Enabled(t, a) ensures AllWithin(Stepping(sch)(t, a)) {
      WithinStep(sch, t, a);
    }
    Runs.InvariantOverRuns(AllWithin, Enabled, Stepping(sch), b0, actions);
    assert WithinItsTicket(b.tickets, b.rows[i]);
  }

  // ----- a genuine code taken

  /** What is staged for it: on a first sighting a clean row with the group deducted, on another device a suspect. */
  lemma PresentedIsStaged(sch: Scheme, b: Books, k: seq<byte>, p: Payload, item: Item, c: Context)
    requires Presents(sch, b, k, p, item, c) && !HasRow(b.rows, item.device, p.nonce)
    requires Sighted(b.rows, p.nonce) || HasRoom(b.tickets[p.ticketId], p.passengerCount)
    ensures var t := b.tickets[p.ticketId];
      Redeem(sch, b, item, c) ==
        if Sighted(b.rows, p.nonce) then Staged(RowFor(p, DuplicateSuspect, item, c), t)
        else Staged(RowFor(p, Clean, item, c), Deduct(t, p.passengerCount))
  {
    PresentedCode(sch, b, k, p, item, c);
    var seen := Lookup(b.rows, p.nonce, c.pick);
    if seen.Some? {
      var i :| 0 <= i < |b.rows| && b.rows[i] == seen.value;
    }
  }

  /** A code freshly built by the ticket's own device, never seen before, on a valid ticket with room for the group,
      boards: one clean row, the group deducted in full, the ticket closed exactly when nothing is left, no more. */
  lemma GenuineCodeBoards(sch: Scheme, b: Books, k: seq<byte>, p: Payload, item: Item, c: Context)
    requires Presents(sch, b, k, p, item, c) && !Sighted(b.rows, p.nonce) && TripIsReal(b, item)
    requires HasRoom(b.tickets[p.ticketId], p.passengerCount)
    ensures var (b', answer) := SyncItem(sch, b, item, c);
      && b'.rows == b.rows + [RowFor(p, Clean, item, c)] && b'.alerts == b.alerts && b'.trips == b.trips
      && b'.tickets == b.tickets[p.ticketId := Charged(b.tickets[p.ticketId], p.passengerCount)]
      && answer == Recorded(Some(p.nonce), p.ticketId, b'.tickets[p.ticketId].ridesRemaining, Clean)
  {
    PresentedIsStaged(sch, b, k, p, item, c);
  }

  /** A ticket after a group it has room for: as it was when unlimited, else that many rides fewer, and used up at
      none. */
  function Charged(t: Ticket, count: int): Ticket {
    if t.ridesRemaining.None? then t
    else if t.ridesRemaining.value == count then t.(ridesRemaining := Some(0), status := Exhausted)
    else t.(ridesRemaining := Some(t.ridesRemaining.value - count))
  }

  /** The same code on a device that has not reported it, while still fresh, is filed as a suspect and charges nobody,
      rides left or not. */
  lemma SecondDeviceIsSuspect(sch: Scheme, b: Books, k: seq<byte>, p: Payload, item: Item, c: Context)
    requires Presents(sch, b, k, p, item, c) && TripIsReal(b, item)
    requires Sighted(b.rows, p.nonce) && !HasRow(b.rows, item.device, p.nonce)
    ensures var (b', answer) := SyncItem(sch, b, item, c);
      && b' == b.(rows := b.rows + [RowFor(p, DuplicateSuspect, item, c)])
      && answer == Recorded(Some(p.nonce), p.ticketId, b.tickets[p.ticketId].ridesRemaining, DuplicateSuspect)
  {
    PresentedIsStaged(sch, b, k, p, item, c);
    assert b.tickets[p.ticketId := b.tickets[p.ticketId]] == b.tickets;
  }

  lemma OwnCodeFound(sch: Scheme, b: Books, k: seq<byte>, p: Payload, item: Item, c: Context)
    requires Presents(sch, b, k, p, item, c) && Sighted(b.rows, p.nonce)
    ensures var d := Redeem(sch, b, item, c);
      && (d.Seen? || d.Staged?) && d.row.nonce == p.nonce && d.row.device == item.device
      && (d.Seen? ==> d.row in b.rows)
  {
    PresentedCode(sch, b, k, p, item, c);
  }

  /** Sent again by the device that reported it, while still fresh, it is answered as recorded, from that device's own
      row when the look-up finds it, and changes nothing. */
  lemma OwnResyncIsAccepted(sch: Scheme, b: Books, k: seq<byte>, p: Payload, item: Item, c: Context)
    requires Presents(sch, b, k, p, item, c) && HasRow(b.rows, item.device, p.nonce)
    ensures var (b', answer) := SyncItem(sch, b, item, c);
      && b' == b
      && (answer == AlreadyRecorded(Some(p.nonce))
          || exists row :: row in b.rows && row.nonce == p.nonce && row.device == item.device
                        && answer == Recorded(Some(p.nonce), row.ticket, RidesOf(b, row.ticket), row.flag))
  {
    var i :| 0 <= i < |b.rows| && b.rows[i].nonce == p.nonce && b.rows[i].device == item.device;
    assert Sighted(b.rows, p.nonce);
    OwnCodeFound(sch, b, k, p, item, c);
    PresentedCode(sch, b, k, p, item, c);
  }

  /** A genuine boarding filed under a trip that does not exist is answered as accepted and leaves no trace. */
  lemma UnknownTripLeavesNoTrace(sch: Scheme, b: Books, k: seq<byte>, p: Payload, item: Item, c: Context)
    requires Presents(sch, b, k, p, item, c) && !TripIsReal(b, item) && !HasRow(b.rows, item.device, p.nonce)
    requires Sighted(b.rows, p.nonce) || HasRoom(b.tickets[p.ticketId], p.passengerCount)
    ensures SyncItem(sch, b, item, c) == (b, AlreadyRecorded(Some(p.nonce)))
  {
    PresentedCode(sch, b, k, p, item, c);
    PresentedIsStaged(sch, b, k, p, item, c);
  }

  // ----- batches

  function Select<T>(xs: seq<T>, keep: seq<bool>): seq<T>
    requires |xs| == |keep|
  {
    if xs == [] then []
    else
      var n := |xs| - 1;
      Select(xs[..n], keep[..n]) + (if keep[n] then [xs[n]] else [])
  }

  /** The run a batch is: one sync step per item. */
  function Syncs(items: seq<(Item, Context)>): seq<Action> {
    seq(|items|, i requires 0 <= i < |items| => Sync(items[i].0, items[i].1))
  }

  /** A batch is a run of the ledger, so a batch keeps what every run keeps. */
  lemma {:induction false} BatchIsARun(sch: Scheme, b: Books, items: seq<(Item, Context)>)
    ensures Runs.Legal(Enabled, Stepping(sch), b, Syncs(items))
    ensures Runs.After(Stepping(sch), b, Syncs(items)) == SyncBatch(sch, b, items).0
    ensures b.rows <= SyncBatch(sch, b, items).0.rows
  {
    if items != [] {
      var n := |items| - 1;
      BatchIsARun(sch, b, items[..n]);
      assert Syncs(items) == Syncs(items[..n]) + [Sync(items[n].0, items[n].1)];
      Runs.Extend(Enabled, Stepping(sch), b, Syncs(items[..n]), Sync(items[n].0, items[n].1));
    }
    RowsOnlyGrow(sch, b, Syncs(items));
  }

  lemma NotAcceptedChangesNothing(sch: Scheme, b: Books, item: Item, c: Context)
    requires !Accepted(SyncItem(sch, b, item, c).1)
    ensures SyncItem(sch, b, item, c).0 == b
  {}

  /** Leaving refused items out of a batch changes neither the books nor any other item's answer. */
  lemma {:induction false} RefusedItemsDoNotMatter(sch: Scheme, b: Books, items: seq<(Item, Context)>, keep: seq<bool>)
    requires |keep| == |items|
    requires forall i :: 0 <= i < |items| && !keep[i] ==> !Accepted(SyncBatch(sch, b, items).1[i])
    ensures var (b', answers) := SyncBatch(sch, b, items);
      SyncBatch(sch, b, Select(items, keep)) == (b', Select(answers, keep))
  {
    if items != [] {
      var n := |items| - 1;
      var (b1, answers1) := SyncBatch(sch, b, items[..n]);
      var answers := SyncBatch(sch, b, items).1;
      assert answers[..n] == answers1;
      RefusedItemsDoNotMatter(sch, b, items[..n], keep[..n]);
      var kept := Select(items[..n], keep[..n]);
      if keep[n] {
        assert (kept + [items[n]])[..|kept|] == kept;
      } else {
        NotAcceptedChangesNothing(sch, b1, items[n].0, items[n].1);
        assert kept + [] == kept && Select(answers1, keep[..n]) + [] == Select(answers1, keep[..n]);
      }
    }
  }

  /** Sending again, in any order and at any later time, boardings this device already has on record changes nothing. */
  lemma {:induction false} ResyncBatchChangesNothing(sch: Scheme, b: Books, again: seq<(Item, Context)>)
    requires forall i :: 0 <= i < |again| ==>
      ParseQr(again[i].0.code).Parsed? && HasRow(b.rows, again[i].0.device, ParseQr(again[i].0.code).payload.nonce)
    ensures SyncBatch(sch, b, again).0 == b
  {
    if again != [] {
      var n := |again| - 1;
      ResyncBatchChangesNothing(sch, b, again[..n]);
      ResyncChangesNothing(sch, b, again[n].0, again[n].1, ParseQr(again[n].0.code).payload.nonce);
    }
  }
}
