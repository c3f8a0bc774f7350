/** Trips, the active-trip cache in front of them, and GPS ingest (app/services/trip.py, app/api/routes/helper.py).
    Handlers are atomic; a cached trip may vanish at any time. */
module Trips {
  import opened Base

  datatype TripStatus = Scheduled | Live | Completed | TripCancelled

  datatype Trip = Trip(
    helper: nat, bus: nat, route: nat, start: real, status: TripStatus, end: Option<real>)

  /** What is cached of a live trip. */
  datatype ActiveTrip = ActiveTrip(trip: nat, bus: nat, route: nat)

  datatype Fix = Fix(
    ts: real, lat: real, lng: real, speed: Option<real>, heading: Option<real>, accuracy: Option<real>)

  /** One message on the ingest stream; `at` is when it was added. */
  datatype Entry = Entry(bus: nat, helper: nat, trip: nat, fix: Fix, at: real)

  /** `bus:{id}:pos`: where a bus is now, kept for a minute. */
  datatype Position = Position(fix: Fix, trip: nat, at: real)

  datatype Message = Message(bus: nat, fix: Fix)

  datatype State = State(
    now: real,
    buses: map<nat, bool>,      // whether it is in service
    routes: map<nat, bool>,     // whether it is active
    trips: map<nat, Trip>,
    cache: map<nat, ActiveTrip>,
    positions: map<nat, Position>,
    stream: seq<Entry>,
    channel: seq<Message>)

  const DRAIN_S := 12.0 * 3600.0
  const POSITION_TTL_S := 60.0

  datatype StartReply = InvalidTarget | TripConflict | Started(trip: nat)
  datatype EndReply = NoLiveTrip | Ended(trip: nat)
  datatype IngestReply = WrongBus | UnknownBus | NoTripOnBus | Accepted(count: nat, bus: nat, trip: nat)

  // ----- the trips table

  predicate IsLive(trips: map<nat, Trip>, helper: nat, id: nat) {
    id in trips && trips[id].helper == helper && trips[id].status == Live
  }

  /** The helper's live trip according to the table. */
  ghost function LiveTrip(trips: map<nat, Trip>, helper: nat): (id: Option<nat>)
    ensures id.Some? ==> IsLive(trips, helper, id.value)
    ensures id.None? ==> forall k :: !IsLive(trips, helper, k)
  {
    if exists k :: IsLive(trips, helper, k) then
      var k :| IsLive(trips, helper, k);
      Some(k)
    else None
  }

  function FromModel(id: nat, t: Trip): ActiveTrip {
    ActiveTrip(id, t.bus, t.route)
  }

  /** The partial unique indexes: one live trip per bus, one per helper. */
  predicate Occupied(trips: map<nat, Trip>, helper: nat, bus: nat) {
    exists k :: k in trips && trips[k].status == Live && (trips[k].bus == bus || trips[k].helper == helper)
  }

  /** A finished trip of this helper on this bus whose leftover fixes are still taken. */
  predicate Drains(trips: map<nat, Trip>, now: real, helper: nat, bus: nat, id: nat) {
    && id in trips && trips[id].helper == helper && trips[id].bus == bus
    && trips[id].status == Completed && trips[id].end.Some? && trips[id].end.value >= now - DRAIN_S
  }

  /** The database's answer to "the latest such trip"; which one of several that ended together is its choice. */
  predicate LatestDraining(trips: map<nat, Trip>, now: real, helper: nat, bus: nat, answer: Option<nat>) {
    match answer
    case None => forall k :: k in trips ==> !Drains(trips, now, helper, bus, k)
    case Some(id) =>
      && Drains(trips, now, helper, bus, id)
      && forall k :: k in trips && Drains(trips, now, helper, bus, k) ==> trips[k].end.value <= trips[id].end.value
  }

  // ----- handlers

  function StartTrip(s: State, helper: nat, bus: nat, route: nat, id: nat): (State, StartReply) {
    if bus !in s.buses || !s.buses[bus] || route !in s.routes || !s.routes[route] then (s, InvalidTarget)
    else if Occupied(s.trips, helper, bus) then (s, TripConflict)
    else
      var trip := Trip(helper, bus, route, s.now, Live, None);
      (s.(trips := s.trips[id := trip], cache := s.cache[helper := FromModel(id, trip)]), Started(id))
  }

  ghost function EndTrip(s: State, helper: nat): (State, EndReply) {
    match LiveTrip(s.trips, helper)
    case None => (s, NoLiveTrip)
    case Some(id) =>
      (s.(trips := s.trips[id := s.trips[id].(status := Completed, end := Some(s.now))], cache := s.cache - {helper}),
       Ended(id))
  }

  /** What the table says, without the cache. */
  ghost function FromTable(s: State, helper: nat): Option<ActiveTrip> {
    match LiveTrip(s.trips, helper)
    case None => None
    case Some(id) => Some(FromModel(id, s.trips[id]))
  }

  /** The cached trip if there is one, else the table's, which is then cached. */
  ghost function GetActiveTrip(s: State, helper: nat): (State, Option<ActiveTrip>) {
    if helper in s.cache then (s, Some(s.cache[helper]))
    else
      match FromTable(s, helper)
      case None => (s, None)
      case Some(active) => (s.(cache := s.cache[helper := active]), Some(active))
  }

  /** `max(points, key=ts)`: the first of the latest. */
  function Newest(points: seq<Fix>): (p: Fix)
    requires points != []
    ensures exists i :: 0 <= i < |points| && p == points[i] && forall j :: 0 <= j < i ==> points[j].ts < p.ts
    ensures forall j :: 0 <= j < |points| ==> points[j].ts <= p.ts
  {
    var last := points[|points| - 1];
    if |points| == 1 then last
    else
      var best := Newest(points[..|points| - 1]);
      if last.ts > best.ts then last else best
  }

  function Entries(points: seq<Fix>, bus: nat, helper: nat, trip: nat, at: real): (es: seq<Entry>)
    ensures |es| == |points|
    ensures forall i :: 0 <= i < |points| ==> es[i] == Entry(bus, helper, trip, points[i], at)
  {
    seq(|points|, i requires 0 <= i < |points| => Entry(bus, helper, trip, points[i], at))
  }

  function File(s: State, helper: nat, bus: nat, trip: nat, live: bool, points: seq<Fix>): State
    requires points != []
  {
    var newest := Newest(points);
    s.(stream := s.stream + Entries(points, bus, helper, trip, s.now),
       positions := if live then s.positions[bus := Position(newest, trip, s.now)] else s.positions,
       channel := if live then s.channel + [Message(bus, newest)] else s.channel)
  }

  /** A batch of fixes; `late` is the database's answer for the draining outbox, used only without a live trip. */
  ghost function IngestGps(s: State, helper: nat, bus: nat, points: seq<Fix>, late: Option<nat>): (State, IngestReply)
    requires points != []
  {
    var (s1, active) := GetActiveTrip(s, helper);
    match active
    case Some(a) =>
      if bus != a.bus then (s1, WrongBus)
      else (File(s1, helper, a.bus, a.trip, true, points), Accepted(|points|, a.bus, a.trip))
    case None =>
      if late.None? || late.value !in s1.trips then (s1, if bus !in s1.buses then UnknownBus else NoTripOnBus)
      else
        var on := s1.trips[late.value].bus;
        (File(s1, helper, on, late.value, false, points), Accepted(|points|, on, late.value))
  }
}
