/** The boarding ledger as values: what one scanned code, one synced item and one sweep do to it
    (app/services/redemption.py, app/api/routes/boarding.py, app/worker/fraud_sweep.py). */
module Ledger {
  import opened Base
  import opened Text
  import opened BoardingQr

  datatype TicketStatus = Active | Exhausted | OutOfDate | Suspended | Revoked

  datatype Flag = Clean | DuplicateSuspect

  /** `None` rides means unlimited within the validity window. */
  datatype Ticket = Ticket(
    ridesTotal: Option<int>,
    ridesRemaining: Option<int>,
    validFrom: real,
    validTo: real,
    publicKey: string,
    status: TicketStatus)

  datatype Row = Row(
    ticket: string,
    device: string,
    nonce: string,
    count: int,
    flag: Flag,
    trip: Option<nat>,
    helper: nat,
    redeemedAt: real,
    syncedAt: real)

  datatype Alert = Alert(ticket: string, devices: nat)

  datatype Books = Books(tickets: map<string, Ticket>, rows: seq<Row>, alerts: seq<Alert>, trips: set<nat>)

  /** One boarding as a device submits it. */
  datatype Item = Item(code: string, device: string, redeemedAt: real, trip: Option<nat>)

  /** What the server brings to one item: who submitted it, the clock, and which of several matching
      rows the unordered nonce lookup happens to return. */
  datatype Context = Context(helper: nat, now: real, pick: nat)

  datatype Reason =
    | UnknownTicket | BadCode(error: InvalidQr) | TicketRevoked | TicketSuspended | TicketExpired | NotYetValid
    | NoRidesRemaining | GroupTooLarge

  /** What `redeem` decides, before anything is flushed. */
  datatype Decision = Rejected(reason: Reason) | Seen(row: Row) | Staged(row: Row, ticket: Ticket)

  datatype Answer =
    | BadLength
    | Refused(nonce: Option<string>, reason: Reason)
    | Recorded(nonce: Option<string>, ticket: string, ridesRemaining: Option<int>, flag: Flag)
    | AlreadyRecorded(nonce: Option<string>)

  predicate Accepted(a: Answer) {
    a.Recorded? || a.AlreadyRecorded?
  }

  const CODE_MIN_LEN := 8
  const CODE_MAX_LEN := 512

  // ----- one code

  function CheckValidWindow(t: Ticket, now: real): Option<Reason> {
    if t.status == Revoked then Some(TicketRevoked)
    else if t.status == Suspended then Some(TicketSuspended)
    else if t.status == OutOfDate || t.validTo < now then Some(TicketExpired)
    else if t.validFrom > now then Some(NotYetValid)
    else None
  }

  /** Empty first, then too small for the group; unlimited tickets cover any group. */
  function CheckRides(t: Ticket, count: int): Option<Reason> {
    if t.ridesRemaining.None? then None
    else if t.ridesRemaining.value <= 0 then Some(NoRidesRemaining)
    else if count > t.ridesRemaining.value then Some(GroupTooLarge)
    else None
  }

  predicate Sighted(rows: seq<Row>, nonce: string) {
    exists i :: 0 <= i < |rows| && rows[i].nonce == nonce
  }

  predicate HasRow(rows: seq<Row>, device: string, nonce: string) {
    exists i :: 0 <= i < |rows| && rows[i].nonce == nonce && rows[i].device == device
  }

  function FirstSighting(rows: seq<Row>, nonce: string): (i: nat)
    requires Sighted(rows, nonce)
    ensures i < |rows| && rows[i].nonce == nonce
  {
    if rows[0].nonce == nonce then 0 else 1 + FirstSighting(rows[1..], nonce)
  }

  /** Some row carrying the nonce, whichever `pick` selects; none only when there is none. */
  function Lookup(rows: seq<Row>, nonce: string, pick: nat): (row: Option<Row>)
    ensures row.Some? <==> Sighted(rows, nonce)
    ensures row.Some? ==> row.value in rows && row.value.nonce == nonce
  {
    if pick < |rows| && rows[pick].nonce == nonce then Some(rows[pick])
    else if Sighted(rows, nonce) then Some(rows[FirstSighting(rows, nonce)])
    else None
  }

  /** Deduct a group, floored at zero, and close the ticket when nothing is left. */
  function Deduct(t: Ticket, count: int): Ticket {
    if t.ridesRemaining.None? then t
    else
      var left := MaxInt(t.ridesRemaining.value - count, 0);
      t.(ridesRemaining := Some(left), status := if left == 0 then Exhausted else t.status)
  }

  function Head(code: string): string {
    Split(code, '.')[0]
  }

  function Redeem(sch: Scheme, b: Books, item: Item, c: Context): Decision {
    var key := Head(item.code);
    if key !in b.tickets then Rejected(UnknownTicket)
    else
      var t := b.tickets[key];
      match VerifyQr(sch, item.code, t.publicKey, c.now)
      case Invalid(e) => Rejected(BadCode(e))
      case Genuine(p) =>
        var window := CheckValidWindow(t, c.now);
        if window.Some? then Rejected(window.value)
        else
          var seen := Lookup(b.rows, p.nonce, c.pick);
          if seen.Some? && seen.value.device == item.device then Seen(seen.value)
          else
            var row := Row(key, item.device, p.nonce, p.passengerCount,
                           if seen.None? then Clean else DuplicateSuspect,
                           item.trip, c.helper, item.redeemedAt, c.now);
            if seen.Some? then Staged(row, t)
            else
              var rides := CheckRides(t, p.passengerCount);
              if rides.Some? then Rejected(rides.value) else Staged(row, Deduct(t, p.passengerCount))
  }

  // ----- one item of a batch, committed or rolled back on its own

  /** The flush fails on the (device, nonce) constraint or on a trip that does not exist. */
  predicate Violates(b: Books, row: Row) {
    HasRow(b.rows, row.device, row.nonce) || (row.trip.Some? && row.trip.value !in b.trips)
  }

  function ClaimedNonce(code: string): Option<string> {
    match ParseQr(code)
    case Parsed(p, _) => Some(p.nonce)
    case Unreadable(_) => None
  }

  function Commit(b: Books, row: Row, t: Ticket): Books {
    b.(rows := b.rows + [row], tickets := b.tickets[row.ticket := t])
  }

  function RidesOf(b: Books, key: string): Option<int> {
    if key in b.tickets then b.tickets[key].ridesRemaining else None
  }

  function SyncItem(sch: Scheme, b: Books, item: Item, c: Context): (Books, Answer) {
    if !(CODE_MIN_LEN <= |item.code| <= CODE_MAX_LEN) then (b, BadLength)
    else
      match Redeem(sch, b, item, c)
      case Rejected(reason) => (b, Refused(ClaimedNonce(item.code), reason))
      case Seen(row) => (b, Recorded(Some(row.nonce), row.ticket, RidesOf(b, row.ticket), row.flag))
      case Staged(row, t) =>
        if Violates(b, row) then (b, AlreadyRecorded(ClaimedNonce(item.code)))
        else (Commit(b, row, t), Recorded(Some(row.nonce), row.ticket, t.ridesRemaining, row.flag))
  }

  /** A batch, each item with its own context: in order, every item against the books the last one left. */
  function SyncBatch(sch: Scheme, b: Books, items: seq<(Item, Context)>): (r: (Books, seq<Answer>))
    ensures |r.1| == |items|
  {
    if items == [] then (b, [])
    else
      var n := |items| - 1;
      var (b', answers) := SyncBatch(sch, b, items[..n]);
      var (b'', answer) := SyncItem(sch, b', items[n].0, items[n].1);
      (b'', answers + [answer])
  }

  // ----- the sweep

  datatype Group = Group(nonce: string, ticket: string)

  const DEVICE_THRESHOLD := 2
  const BATCH := 100

  /** Every device that reported the group's nonce for its ticket, whatever the flag. */
  function GroupDevices(rows: seq<Row>, g: Group): set<string> {
    set i | 0 <= i < |rows| && rows[i].nonce == g.nonce && rows[i].ticket == g.ticket :: rows[i].device
  }

  predicate IsActive(b: Books, key: string) {
    key in b.tickets && b.tickets[key].status == Active
  }

  predicate IsOffending(b: Books, g: Group) {
    IsActive(b, g.ticket) && |GroupDevices(b.rows, g)| >= DEVICE_THRESHOLD
  }

  function Offending(b: Books): set<Group> {
    set i | 0 <= i < |b.rows| && IsOffending(b, Group(b.rows[i].nonce, b.rows[i].ticket)) ::
      Group(b.rows[i].nonce, b.rows[i].ticket)
  }

  /** What the query may answer: distinct offending groups, in any order, at most the batch size
      and no fewer than there are. */
  ghost predicate QueryAnswer(b: Books, groups: seq<Group>) {
    && (forall i, j :: 0 <= i < j < |groups| ==> groups[i] != groups[j])
    && (forall g :: g in groups ==> g in Offending(b))
    && |groups| == (if |Offending(b)| < BATCH then |Offending(b)| else BATCH)
  }

  function Suspend(b: Books, g: Group): Books {
    if !IsActive(b, g.ticket) then b
    else b.(tickets := b.tickets[g.ticket := b.tickets[g.ticket].(status := Suspended)],
            alerts := b.alerts + [Alert(g.ticket, |GroupDevices(b.rows, g)|)])
  }

  function Sweep(b: Books, groups: seq<Group>): Books {
    if groups == [] then b
    else Suspend(Sweep(b, groups[..|groups| - 1]), groups[|groups| - 1])
  }
}
