/** The handlers that keep the ledger, in their own form: tables as fields, one commit or rollback per item. */
module LedgerService {
  import opened Base
  import opened BoardingQr
  import opened Ledger

  datatype Tally = Tally(flagged: nat, suspended: nat)

  class Database {
    var tickets: map<string, Ticket>
    var rows: seq<Row>
    var alerts: seq<Alert>
    var trips: set<nat>

    constructor (trips: set<nat>)
      ensures Value() == Books(map[], [], [], trips)
    {
      this.tickets, this.rows, this.alerts, this.trips := map[], [], [], trips;
    }

    function Value(): (b: Books)
      reads this
    {
      Books(tickets, rows, alerts, trips)
    }

    /** Validates a code and stages the boarding; commits nothing. */
    method RedeemCode(sch: Scheme, item: Item, c: Context) returns (d: Decision)
      ensures d == Redeem(sch, Value(), item, c)
    {
      var key := Head(item.code);
      if key !in tickets {
        return Rejected(UnknownTicket);
      }
      var ticket := tickets[key];
      var verdict := VerifyQr(sch, item.code, ticket.publicKey, c.now);
      if verdict.Invalid? {
        return Rejected(BadCode(verdict.error));
      }
      var p := verdict.payload;
      var refusal := CheckValidWindow(ticket, c.now);
      if refusal.Some? {
        return Rejected(refusal.value);
      }
      var seen := Lookup(rows, p.nonce, c.pick);
      if seen.Some? && seen.value.device == item.device {
        return Seen(seen.value);
      }
      var flag := if seen.None? then Clean else DuplicateSuspect;
      if flag == Clean {
        refusal := CheckRides(ticket, p.passengerCount);
        if refusal.Some? {
          return Rejected(refusal.value);
        }
      }
      var row := Row(key, item.device, p.nonce, p.passengerCount, flag, item.trip, c.helper, item.redeemedAt, c.now);
      if flag == Clean && ticket.ridesRemaining.Some? {
        var left := MaxInt(ticket.ridesRemaining.value - p.passengerCount, 0);
        ticket := ticket.(ridesRemaining := Some(left));
        if left == 0 {
          ticket := ticket.(status := Exhausted);
        }
      }
      d := Staged(row, ticket);
    }

    /** `POST /helper/redemptions`: every item answered, committed or rolled back on its own. */
    method SyncRedemptions(sch: Scheme, items: seq<(Item, Context)>) returns (results: seq<Answer>)
      modifies this
      ensures (Value(), results) == SyncBatch(sch, old(Value()), items)
    {
      results := [];
      for k := 0 to |items|
        invariant (Value(), results) == SyncBatch(sch, old(Value()), items[..k])
      {
        assert items[..k + 1][..k] == items[..k];
        var item, c := items[k].0, items[k].1;
        if !(CODE_MIN_LEN <= |item.code| <= CODE_MAX_LEN) {
          results := results + [BadLength];
          continue;
        }
        var nonce := ClaimedNonce(item.code);
        var d := RedeemCode(sch, item, c);
        match d
        case Rejected(reason) =>
          results := results + [Refused(nonce, reason)];
        case Seen(row) =>
          results := results + [Recorded(Some(row.nonce), row.ticket, RidesOf(Value(), row.ticket), row.flag)];
        case Staged(row, ticket) =>
          if Violates(Value(), row) {
            results := results + [AlreadyRecorded(nonce)];
          } else {
            rows := rows + [row];
            tickets := tickets[row.ticket := ticket];
            results := results + [Recorded(Some(row.nonce), row.ticket, ticket.ridesRemaining, row.flag)];
          }
      }
      assert items[..|items|] == items;
    }

    /** One sweep pass over the groups the query returned. */
    method SweepOnce(groups: seq<Group>) returns (tally: Tally)
      modifies this
      ensures Value() == Sweep(old(Value()), groups)
      ensures tally.flagged == |groups| && |alerts| == |old(alerts)| + tally.suspended
    {
      tally := Tally(0, 0);
      for k := 0 to |groups|
        invariant Value() == Sweep(old(Value()), groups[..k])
        invariant tally.flagged == k && |alerts| == |old(alerts)| + tally.suspended
        invariant rows == old(rows)
      {
        assert groups[..k + 1][..k] == groups[..k];
        var g := groups[k];
        tally := tally.(flagged := tally.flagged + 1);
        if g.ticket !in tickets || tickets[g.ticket].status != Active {
          continue;
        }
        tickets := tickets[g.ticket := tickets[g.ticket].(status := Suspended)];
        tally := tally.(suspended := tally.suspended + 1);
        alerts := alerts + [Alert(g.ticket, |GroupDevices(rows, g)|)];
      }
      assert groups[..|groups|] == groups;
    }
  }
}
