/** Trip binding over whole runs: starts, ends, look-ups, batches, fleet edits, time passing, and cache entries that
    vanish at any moment. */
module TripRuns {
  import opened Base
  import opened Trips
  import Runs

  datatype Action =
    | Tick(seconds: real)
    | SetBus(bus: nat, inService: bool)
    | SetRoute(route: nat, active: bool)
    | Start(helper: nat, bus: nat, route: nat, id: nat)
    | End(helper: nat)
    | Get(helper: nat)
    | Ingest(helper: nat, bus: nat, points: seq<Fix>, late: Option<nat>)
    | Evict(helper: nat)

  ghost predicate Init(s: State) {
    s.trips == map[] && s.cache == map[] && s.positions == map[] && s.stream == [] && s.channel == []
  }

  ghost predicate Enabled(s: State, a: Action) {
    match a
    case Tick(d) => d >= 0.0
    case Start(_, _, _, id) => id !in s.trips
    case Ingest(h, b, points, late) => points != [] && LatestDraining(s.trips, s.now, h, b, late)
    case _ => true
  }

  ghost function Next(s: State, a: Action): State {
    match a
    case Tick(d) => s.(now := s.now + d)
    case SetBus(b, on) => s.(buses := s.buses[b := on])
    case SetRoute(r, on) => s.(routes := s.routes[r := on])
    case Start(h, b, r, id) => StartTrip(s, h, b, r, id).0
    case End(h) => EndTrip(s, h).0
    case Get(h) => GetActiveTrip(s, h).0
    case Ingest(h, b, points, late) => if points == [] then s else IngestGps(s, h, b, points, late).0
    case Evict(h) => s.(cache := s.cache - {h})
  }

  ghost predicate Reachable(s: State) {
    exists s0, actions ::
      Init(s0) && Runs.Legal(Enabled, Next, s0, actions) && s == Runs.After(Next, s0, actions)
  }

  // ----- the invariant

  /** The trip was over by the time `t`. */
  predicate OverBy(trip: Trip, t: real) {
    trip.end.Some? && trip.end.value <= t
  }

  /** The trip was on the road at `t`, or had ended at most `slack` before. */
  predicate OnRoad(trip: Trip, t: real, slack: real) {
    trip.start <= t && (trip.end.Some? ==> trip.end.value >= t - slack)
  }

  /** Two trips that share a bus or a helper: one was over before the other began. */
  predicate Apart(a: Trip, b: Trip) {
    a.bus == b.bus || a.helper == b.helper ==> OverBy(a, b.start) || OverBy(b, a.start)
  }

  ghost predicate TripMakesSense(trip: Trip, now: real) {
    && trip.start <= now
    && (trip.status == Live || trip.status == Completed)
    && (trip.status == Live <==> trip.end.None?)
    && (trip.end.Some? ==> trip.start <= trip.end.value <= now)
  }

  ghost predicate TripsMakeSense(s: State) {
    forall k :: k in s.trips ==> TripMakesSense(s.trips[k], s.now)
  }

  /** No bus and no helper is ever on two trips at a time, now or in the past. */
  ghost predicate NoOverlap(trips: map<nat, Trip>) {
    forall k, m :: k in trips && m in trips && k != m ==> Apart(trips[k], trips[m])
  }

  predicate NamesLive(trips: map<nat, Trip>, helper: nat, a: ActiveTrip) {
    IsLive(trips, helper, a.trip) && a == FromModel(a.trip, trips[a.trip])
  }

  ghost predicate CacheTrue(s: State) {
    forall h :: h in s.cache ==> NamesLive(s.trips, h, s.cache[h])
  }

  /** A filed fix names a trip of its helper on its bus that was running when it came in, or had ended at most twelve
      hours before. */
  ghost predicate EntryBound(s: State, e: Entry) {
    && e.at <= s.now && e.trip in s.trips
    && s.trips[e.trip].helper == e.helper && s.trips[e.trip].bus == e.bus
    && OnRoad(s.trips[e.trip], e.at, DRAIN_S)
  }

  ghost predicate StreamBound(s: State) {
    forall i :: 0 <= i < |s.stream| ==> EntryBound(s, s.stream[i])
  }

  /** A live position was written while its trip was on that bus. */
  ghost predicate PositionBound(s: State, bus: nat)
    requires bus in s.positions
  {
    var p := s.positions[bus];
    && p.at <= s.now && p.trip in s.trips && s.trips[p.trip].bus == bus && OnRoad(s.trips[p.trip], p.at, 0.0)
  }

  ghost predicate PositionsBound(s: State) {
    forall b :: b in s.positions ==> PositionBound(s, b)
  }

  ghost predicate Inv(s: State) {
    TripsMakeSense(s) && NoOverlap(s.trips) && CacheTrue(s) && StreamBound(s) && PositionsBound(s)
  }

  /** Trips are only added and ended, and an end is never earlier than what was already filed. */
  ghost predicate TripsGrow(s: State, t: State) {
    && s.now <= t.now
    && forall k :: k in s.trips ==>
         && k in t.trips
         && t.trips[k].helper == s.trips[k].helper && t.trips[k].bus == s.trips[k].bus
         && t.trips[k].start == s.trips[k].start
         && (s.trips[k].end.Some? ==> t.trips[k].end == s.trips[k].end)
         && (t.trips[k].end.Some? && s.trips[k].end.None? ==> t.trips[k].end.value >= s.now)
  }

  lemma BindingsKept(s: State, t: State)
    requires StreamBound(s) && PositionsBound(s) && TripsGrow(s, t)
    requires t.stream == s.stream && t.positions == s.positions
    ensures StreamBound(t) && PositionsBound(t)
  {
    forall i | 0 <= i < |t.stream| ensures EntryBound(t, t.stream[i]) {
      assert EntryBound(s, s.stream[i]);
    }
    forall b | b in t.positions ensures PositionBound(t, b) {
      assert PositionBound(s, b);
    }
  }

  lemma StartApart(s: State, h: nat, b: nat, id: nat, trip: Trip)
    requires TripsMakeSense(s) && NoOverlap(s.trips) && id !in s.trips && !Occupied(s.trips, h, b)
    requires trip.helper == h && trip.bus == b && trip.start == s.now
    ensures NoOverlap(s.trips[id := trip])
  {
    forall k | k in s.trips ensures Apart(s.trips[k], trip) && Apart(trip, s.trips[k]) {
      assert TripMakesSense(s.trips[k], s.now);
    }
  }

  lemma StartInv(s: State, h: nat, b: nat, r: nat, id: nat)
    requires Inv(s) && id !in s.trips
    ensures Inv(StartTrip(s, h, b, r, id).0)
  {
    var (t, reply) := StartTrip(s, h, b, r, id);
    if reply.Started? {
      StartApart(s, h, b, id, t.trips[id]);
      StartCache(s, h, t.trips, id);
      BindingsKept(s, t);
    }
  }

  lemma StartCache(s: State, h: nat, trips: map<nat, Trip>, id: nat)
    requires CacheTrue(s) && id !in s.trips && id in trips && IsLive(trips, h, id)
    requires forall k :: k in s.trips ==> k in trips && trips[k] == s.trips[k]
    ensures CacheTrue(s.(trips := trips, cache := s.cache[h := FromModel(id, trips[id])]))
  {
    forall g | g in s.cache ensures NamesLive(trips, g, s.cache[g]) {
      assert NamesLive(s.trips, g, s.cache[g]);
    }
  }

  /** A helper's live trip is the only one: two would overlap. */
  lemma OneLive(s: State, h: nat, k: nat, m: nat)
    requires TripsMakeSense(s) && NoOverlap(s.trips) && IsLive(s.trips, h, k) && IsLive(s.trips, h, m)
    ensures k == m
  {
    assert k != m ==> Apart(s.trips[k], s.trips[m]);
  }

  function Closed(trip: Trip, now: real): Trip {
    trip.(status := Completed, end := Some(now))
  }

  lemma EndApart(s: State, id: nat)
    requires TripsMakeSense(s) && NoOverlap(s.trips) && id in s.trips && s.trips[id].status == Live
    ensures NoOverlap(s.trips[id := Closed(s.trips[id], s.now)])
  {
    forall k | k in s.trips && k != id
      ensures Apart(s.trips[k], Closed(s.trips[id], s.now)) && Apart(Closed(s.trips[id], s.now), s.trips[k])
    {
      assert Apart(s.trips[k], s.trips[id]);
    }
  }

  lemma EndCache(s: State, h: nat, id: nat)
    requires CacheTrue(s) && IsLive(s.trips, h, id)
    ensures CacheTrue(s.(trips := s.trips[id := Closed(s.trips[id], s.now)], cache := s.cache - {h}))
  {
    forall g | g in s.cache && g != h ensures NamesLive(s.trips[id := Closed(s.trips[id], s.now)], g, s.cache[g]) {
      assert NamesLive(s.trips, g, s.cache[g]);
    }
  }

  lemma EndInv(s: State, h: nat)
    requires Inv(s)
    ensures Inv(EndTrip(s, h).0)
  {
    var live := LiveTrip(s.trips, h);
    if live.Some? {
      EndApart(s, live.value);
      EndCache(s, h, live.value);
      BindingsKept(s, EndTrip(s, h).0);
    }
  }

  lemma GetInv(s: State, h: nat)
    requires Inv(s)
    ensures Inv(GetActiveTrip(s, h).0)
  {
    var t := GetActiveTrip(s, h).0;
    forall g | g in t.cache ensures NamesLive(t.trips, g, t.cache[g]) {
      assert g in s.cache ==> NamesLive(s.trips, g, s.cache[g]);
    }
    BindingsKept(s, t);
  }

  /** The cache never changes the answer. */
  lemma CachedIsTable(s: State, h: nat)
    requires TripsMakeSense(s) && NoOverlap(s.trips) && CacheTrue(s)
    ensures GetActiveTrip(s, h).1 == FromTable(s, h)
  {
    if h in s.cache {
      assert NamesLive(s.trips, h, s.cache[h]);
      OneLive(s, h, s.cache[h].trip, LiveTrip(s.trips, h).value);
    }
  }

  lemma FileInv(s: State, h: nat, bus: nat, trip: nat, live: bool, points: seq<Fix>)
    requires Inv(s) && points != [] && trip in s.trips && s.trips[trip].helper == h && s.trips[trip].bus == bus
    requires if live then s.trips[trip].end.None? else OnRoad(s.trips[trip], s.now, DRAIN_S)
    ensures Inv(File(s, h, bus, trip, live, points))
  {
    var t := File(s, h, bus, trip, live, points);
    forall i | 0 <= i < |t.stream| ensures EntryBound(t, t.stream[i]) {
      assert i < |s.stream| ==> EntryBound(s, s.stream[i]);
    }
    forall b | b in t.positions ensures PositionBound(t, b) {
      assert b in s.positions ==> PositionBound(s, b);
    }
  }

  lemma IngestInv(s: State, h: nat, bus: nat, points: seq<Fix>, late: Option<nat>)
    requires Inv(s) && Enabled(s, Ingest(h, bus, points, late))
    ensures Inv(IngestGps(s, h, bus, points, late).0)
  {
    var (s1, active) := GetActiveTrip(s, h);
    GetInv(s, h);
    CachedIsTable(s, h);
    if active.Some? {
      if bus == active.value.bus {
        FileInv(s1, h, bus, active.value.trip, true, points);
      }
    } else if late.Some? {
      FileInv(s1, h, bus, late.value, false, points);
    }
  }

  lemma OtherInv(s: State, a: Action)
    requires Inv(s) && Enabled(s, a) && (a.Tick? || a.SetBus? || a.SetRoute? || a.Evict?)
    ensures Inv(Next(s, a))
  {
    BindingsKept(s, Next(s, a));
  }

  lemma NextInv(s: State, a: Action)
    requires Inv(s) && Enabled(s, a)
    ensures Inv(Next(s, a))
  {
    match a
    case Start(h, b, r, id) => StartInv(s, h, b, r, id);
    case End(h) => EndInv(s, h);
    case Get(h) => GetInv(s, h);
    case Ingest(h, b, points, late) => IngestInv(s, h, b, points, late);
    case _ => OtherInv(s, a);
  }

  lemma ReachableInv(s: State)
    requires Reachable(s)
    ensures Inv(s)
  {
    var s0, actions :| Init(s0) && Runs.Legal(Enabled, Next, s0, actions) && s == Runs.After(Next, s0, actions);
    forall t, a | Inv(t) && Enabled(t, a) ensures Inv(Next(t, a)) {
      NextInv(t, a);
    }
    Runs.InvariantOverRuns(Inv, Enabled, Next, s0, actions);
  }
}
