/** What the trip protocol promises: a cache nobody can see, fixes bound to journeys, and a live map of running buses.
    */
module TripGuarantees {
  import opened Base
  import opened Trips
  import opened TripRuns
  import Runs

  // ----- the cache is invisible

  /** The same state with nothing cached. */
  function Forget(s: State): State {
    s.(cache := map[])
  }

  /** The service with its cache switched off: every look-up goes to the table. */
  ghost function NextUncached(s: State, a: Action): State {
    Forget(Next(Forget(s), a))
  }

  /** Both states give the caller of `a` the same reply. */
  ghost predicate SameReply(s: State, t: State, a: Action) {
    match a
    case Start(h, b, r, id) => StartTrip(s, h, b, r, id).1 == StartTrip(t, h, b, r, id).1
    case End(h) => EndTrip(s, h).1 == EndTrip(t, h).1
    case Get(h) => GetActiveTrip(s, h).1 == GetActiveTrip(t, h).1
    case Ingest(h, b, points, late) =>
      points != [] ==> IngestGps(s, h, b, points, late).1 == IngestGps(t, h, b, points, late).1
    case _ => true
  }

  lemma LookUpWithoutCache(s: State, h: nat)
    requires Inv(s)
    ensures GetActiveTrip(s, h).1 == GetActiveTrip(Forget(s), h).1
    ensures Forget(GetActiveTrip(s, h).0) == Forget(s) == Forget(GetActiveTrip(Forget(s), h).0)
  {
    CachedIsTable(s, h);
  }

  lemma FileWithoutCache(s: State, t: State, h: nat, bus: nat, trip: nat, live: bool, points: seq<Fix>)
    requires Forget(s) == Forget(t) && points != []
    ensures Forget(File(s, h, bus, trip, live, points)) == Forget(File(t, h, bus, trip, live, points))
  {}

  lemma IngestWithoutCache(s: State, h: nat, bus: nat, points: seq<Fix>, late: Option<nat>)
    requires Inv(s) && points != []
    ensures Forget(IngestGps(s, h, bus, points, late).0) == Forget(IngestGps(Forget(s), h, bus, points, late).0)
    ensures IngestGps(s, h, bus, points, late).1 == IngestGps(Forget(s), h, bus, points, late).1
  {
    LookUpWithoutCache(s, h);
    var (s1, active) := GetActiveTrip(s, h);
    var (t1, _) := GetActiveTrip(Forget(s), h);
    if active.Some? {
      FileWithoutCache(s1, t1, h, active.value.bus, active.value.trip, true, points);
    } else if late.Some? && late.value in s1.trips {
      FileWithoutCache(s1, t1, h, s1.trips[late.value].bus, late.value, false, points);
    }
  }

  lemma StepWithoutCache(s: State, a: Action)
    requires Inv(s) && Enabled(s, a)
    ensures Forget(Next(s, a)) == NextUncached(s, a) && SameReply(s, Forget(s), a)
  {
    match a
    case Get(h) => LookUpWithoutCache(s, h);
    case Ingest(h, b, points, late) => IngestWithoutCache(s, h, b, points, late);
    case _ =>
  }

  lemma ForgetIsStable(s: State, a: Action)
    ensures NextUncached(Forget(s), a) == NextUncached(s, a)
  {}

  /** Over a whole run, whatever is cached, refilled or lost on the way, the tables, the stream and the live map are
      those of the service without a cache. */
  lemma {:induction false} CacheIsInvisible(s0: State, actions: seq<Action>)
    requires Init(s0) && Runs.Legal(Enabled, Next, s0, actions)
    ensures Forget(Runs.After(Next, s0, actions)) == Runs.After(NextUncached, s0, actions)
  {
    if actions == [] {
      assert Forget(s0) == s0;
    } else {
      var n := |actions| - 1;
      var s := Runs.After(Next, s0, actions[..n]);
      CacheIsInvisible(s0, actions[..n]);
      assert Reachable(s);
      OneStepFurther(s, Runs.After(NextUncached, s0, actions[..n]), actions[n]);
    }
  }

  lemma OneStepFurther(s: State, u: State, a: Action)
    requires Reachable(s) && Enabled(s, a) && u == Forget(s)
    ensures Forget(Next(s, a)) == NextUncached(u, a) && SameReply(s, u, a)
  {
    ReachableInv(s);
    StepWithoutCache(s, a);
    ForgetIsStable(s, a);
  }

  /** So is every reply along the run. */
  lemma CacheChangesNoReply(s0: State, actions: seq<Action>, i: nat)
    requires Init(s0) && Runs.Legal(Enabled, Next, s0, actions) && i < |actions|
    ensures SameReply(Runs.After(Next, s0, actions[..i]), Runs.After(NextUncached, s0, actions[..i]), actions[i])
  {
    Runs.LegalPrefix(Enabled, Next, s0, actions, i);
    CacheIsInvisible(s0, actions[..i]);
    var s := Runs.After(Next, s0, actions[..i]);
    assert Reachable(s);
    OneStepFurther(s, Runs.After(NextUncached, s0, actions[..i]), actions[i]);
  }

  /** `get_active_trip` always answers what the table says. */
  lemma CacheNeverLies(s: State, h: nat)
    requires Reachable(s)
    ensures GetActiveTrip(s, h).1 == FromTable(s, h)
    ensures forall k :: FromTable(s, h) == Some(k) ==> IsLive(s.trips, h, k.trip) && s.trips[k.trip].bus == k.bus
  {
    ReachableInv(s);
    CachedIsTable(s, h);
  }

  // ----- one trip at a time

  /** Strictly between the start and the end of a trip. */
  predicate Underway(trip: Trip, t: real) {
    trip.start < t && (trip.end.Some? ==> t < trip.end.value)
  }

  /** At no instant, now or in the past, is one bus or one helper on two trips. */
  lemma OneTripAtATime(s: State, k: nat, m: nat, t: real)
    requires Reachable(s) && k in s.trips && m in s.trips && k != m
    requires s.trips[k].bus == s.trips[m].bus || s.trips[k].helper == s.trips[m].helper
    ensures !(Underway(s.trips[k], t) && Underway(s.trips[m], t))
    ensures !(s.trips[k].status == Live && s.trips[m].status == Live)
  {
    ReachableInv(s);
    assert Apart(s.trips[k], s.trips[m]);
    assert TripMakesSense(s.trips[k], s.now) && TripMakesSense(s.trips[m], s.now);
  }

  // ----- every fix has its trip

  lemma EveryFixHasItsTrip(s: State, i: nat)
    requires Reachable(s) && i < |s.stream|
    ensures var e := s.stream[i];
      && e.trip in s.trips && s.trips[e.trip].helper == e.helper && s.trips[e.trip].bus == e.bus
      && OnRoad(s.trips[e.trip], e.at, 43200.0)
  {
    ReachableInv(s);
    assert EntryBound(s, s.stream[i]);
  }

  /** A bus shown on the live map is on that trip now, or was less than a minute ago. */
  lemma LiveMapShowsRunningBuses(s: State, bus: nat)
    requires Reachable(s) && bus in s.positions && s.now < s.positions[bus].at + 60.0
    ensures var trip := s.positions[bus].trip;
      && trip in s.trips && s.trips[trip].bus == bus
      && (s.trips[trip].status == Live || (s.trips[trip].end.Some? && s.now - s.trips[trip].end.value < 60.0))
  {
    ReachableInv(s);
    assert PositionBound(s, bus);
    assert TripMakesSense(s.trips[s.positions[bus].trip], s.now);
  }

  /** The helper ended a trip on that bus in the last twelve hours. */
  ghost predicate DroveLately(s: State, h: nat, bus: nat) {
    exists k :: k in s.trips && s.trips[k].helper == h && s.trips[k].bus == bus
             && s.trips[k].end.Some? && s.now - s.trips[k].end.value <= 43200.0
  }

  lemma DrainsIsLately(s: State, h: nat, bus: nat, k: nat)
    requires Reachable(s) && k in s.trips
    ensures Drains(s.trips, s.now, h, bus, k)
      <==> s.trips[k].helper == h && s.trips[k].bus == bus
           && s.trips[k].end.Some? && s.now - s.trips[k].end.value <= 43200.0
  {
    ReachableInv(s);
    assert TripMakesSense(s.trips[k], s.now);
  }

  /** A batch is taken exactly for the bus of the helper's live trip or, without one, for a bus the helper finished
      driving in the last twelve hours; each refusal means one thing. */
  lemma AcceptedExactlyFor(s: State, h: nat, bus: nat, points: seq<Fix>, late: Option<nat>)
    requires Reachable(s) && Enabled(s, Ingest(h, bus, points, late))
    ensures var reply, live := IngestGps(s, h, bus, points, late).1, LiveTrip(s.trips, h);
      && (reply.Accepted? <==> if live.Some? then s.trips[live.value].bus == bus else DroveLately(s, h, bus))
      && (reply.WrongBus? <==> live.Some? && s.trips[live.value].bus != bus)
      && (reply.UnknownBus? <==> live.None? && !DroveLately(s, h, bus) && bus !in s.buses)
      && (reply.NoTripOnBus? <==> live.None? && !DroveLately(s, h, bus) && bus in s.buses)
  {
    ReachableInv(s);
    CachedIsTable(s, h);
    forall k | k in s.trips
      ensures Drains(s.trips, s.now, h, bus, k)
        <==> s.trips[k].helper == h && s.trips[k].bus == bus
             && s.trips[k].end.Some? && s.now - s.trips[k].end.value <= 43200.0
    {
      DrainsIsLately(s, h, bus, k);
    }
  }

  // ----- starting and ending

  /** The bus or the helper is on a trip that has not ended. */
  ghost predicate OnTheRoad(s: State, h: nat, bus: nat) {
    exists k :: k in s.trips && s.trips[k].end.None? && (s.trips[k].bus == bus || s.trips[k].helper == h)
  }

  /** A start is refused for a bus out of service or a route not active, then while bus or helper is still on the road;
      it else leaves one new trip, under way from now, cached for its helper. */
  lemma StartedIff(s: State, h: nat, bus: nat, route: nat, id: nat)
    requires Reachable(s) && Enabled(s, Start(h, bus, route, id))
    ensures var (t, reply) := StartTrip(s, h, bus, route, id);
      var fit := bus in s.buses && s.buses[bus] && route in s.routes && s.routes[route];
      && (reply == InvalidTarget <==> !fit)
      && (reply == TripConflict <==> fit && OnTheRoad(s, h, bus))
      && (reply == Started(id) <==> fit && !OnTheRoad(s, h, bus))
      && t == if !fit || OnTheRoad(s, h, bus) then s
              else s.(trips := s.trips[id := Trip(h, bus, route, s.now, Live, None)],
                      cache := s.cache[h := ActiveTrip(id, bus, route)])
  {
    ReachableInv(s);
    forall k | k in s.trips ensures s.trips[k].status == Live <==> s.trips[k].end.None? {
      assert TripMakesSense(s.trips[k], s.now);
    }
  }

  /** An end closes the one trip its helper is on, as of now, and drops it from the cache; there is none to close
      exactly when all the helper's trips have ended. */
  lemma EndedIff(s: State, h: nat, id: nat)
    requires Reachable(s)
    ensures var (t, reply) := EndTrip(s, h);
      && (reply == NoLiveTrip <==> forall k :: k in s.trips && s.trips[k].helper == h ==> s.trips[k].end.Some?)
      && (reply == NoLiveTrip ==> t == s)
      && (reply == Ended(id) <==> id in s.trips && s.trips[id].helper == h && s.trips[id].end.None?)
      && (reply == Ended(id) ==>
            var was := s.trips[id];
            t == s.(trips := s.trips[id := Trip(h, was.bus, was.route, was.start, Completed, Some(s.now))],
                    cache := s.cache - {h}))
  {
    ReachableInv(s);
    forall k | k in s.trips ensures s.trips[k].status == Live <==> s.trips[k].end.None? {
      assert TripMakesSense(s.trips[k], s.now);
    }
    forall k | k in s.trips && s.trips[k].helper == h && s.trips[k].end.None?
      ensures LiveTrip(s.trips, h) == Some(k)
    {
      assert IsLive(s.trips, h, k);
      OneLive(s, h, k, LiveTrip(s.trips, h).value);
    }
  }

  /** All fixes in order under one trip; the live map and channel move only for a live trip, to the latest fix. */
  ghost predicate Filed(s: State, t: State, h: nat, bus: nat, points: seq<Fix>, trip: nat)
    requires points != []
  {
    && trip in s.trips
    && t.stream == s.stream + Entries(points, bus, h, trip, s.now)
    && if s.trips[trip].status == Live then
         && t.positions == s.positions[bus := Position(Newest(points), trip, s.now)]
         && t.channel == s.channel + [Message(bus, Newest(points))]
       else t.positions == s.positions && t.channel == s.channel
  }

  /** A batch leaves behind all its fixes, or nothing. */
  lemma FiledWholeOrNotAtAll(s: State, h: nat, bus: nat, points: seq<Fix>, late: Option<nat>)
    requires Reachable(s) && Enabled(s, Ingest(h, bus, points, late))
    ensures var (t, reply) := IngestGps(s, h, bus, points, late);
      && t.trips == s.trips
      && (!reply.Accepted? ==> Forget(t) == Forget(s))
      && (reply.Accepted? ==> reply == Accepted(|points|, bus, reply.trip) && Filed(s, t, h, bus, points, reply.trip))
  {
    ReachableInv(s);
    CachedIsTable(s, h);
    IngestCases(s, h, bus, points, late);
  }

  lemma IngestCases(s: State, h: nat, bus: nat, points: seq<Fix>, late: Option<nat>)
    requires points != [] && LatestDraining(s.trips, s.now, h, bus, late)
    requires GetActiveTrip(s, h).1 == FromTable(s, h)
    ensures var (t, reply) := IngestGps(s, h, bus, points, late);
      && t.trips == s.trips
      && (!reply.Accepted? ==> Forget(t) == Forget(s))
      && (reply.Accepted? ==> reply == Accepted(|points|, bus, reply.trip) && Filed(s, t, h, bus, points, reply.trip))
  {}

  /** A trip's history: the fixes filed under it, in stream order. */
  function FixesOf(stream: seq<Entry>, trip: nat): seq<Fix> {
    if stream == [] then []
    else
      var last := stream[|stream| - 1];
      FixesOf(stream[..|stream| - 1], trip) + (if last.trip == trip then [last.fix] else [])
  }

  lemma {:induction false} HistoryGrows(stream: seq<Entry>, points: seq<Fix>, bus: nat, helper: nat, filed: nat,
      at: real, trip: nat)
    ensures FixesOf(stream + Entries(points, bus, helper, filed, at), trip)
      == FixesOf(stream, trip) + (if filed == trip then points else [])
    decreases |points|
  {
    var all := stream + Entries(points, bus, helper, filed, at);
    if points == [] {
      assert all == stream && FixesOf(stream, trip) + [] == FixesOf(stream, trip);
    } else {
      var n := |points| - 1;
      HistoryGrows(stream, points[..n], bus, helper, filed, at, trip);
      assert all[..|all| - 1] == stream + Entries(points[..n], bus, helper, filed, at);
      assert points == points[..n] + [points[n]];
    }
  }

  /** The fixes of one action that its answer says were filed under the trip. */
  ghost function Accepts(s: State, a: Action, trip: nat): seq<Fix> {
    match a
    case Ingest(h, bus, points, late) =>
      if points == [] then []
      else
        var reply := IngestGps(s, h, bus, points, late).1;
        if reply.Accepted? && reply.trip == trip then points else []
    case _ => []
  }

  /** The batches a run acknowledged for a trip, one after the other. */
  ghost function Acknowledged(s0: State, actions: seq<Action>, trip: nat): seq<Fix> {
    if actions == [] then []
    else
      var n := |actions| - 1;
      Acknowledged(s0, actions[..n], trip) + Accepts(Runs.After(Next, s0, actions[..n]), actions[n], trip)
  }

  lemma StepAddsWhatItAccepts(s: State, a: Action, trip: nat)
    requires Reachable(s) && Enabled(s, a)
    ensures FixesOf(Next(s, a).stream, trip) == FixesOf(s.stream, trip) + Accepts(s, a, trip)
  {
    match a
    case Ingest(h, bus, points, late) =>
      FiledWholeOrNotAtAll(s, h, bus, points, late);
      var (t, reply) := IngestGps(s, h, bus, points, late);
      if reply.Accepted? {
        HistoryGrows(s.stream, points, bus, h, reply.trip, s.now, trip);
      } else {
        assert Forget(t).stream == Forget(s).stream;
      }
    case _ =>
  }

  /** Over every run a trip's history is exactly the batches acknowledged for it, in order: none lost, none added, none
      moved to another trip. */
  lemma {:induction false} HistoryIsWhatWasAcknowledged(s0: State, actions: seq<Action>, trip: nat)
    requires Init(s0) && Runs.Legal(Enabled, Next, s0, actions)
    ensures FixesOf(Runs.After(Next, s0, actions).stream, trip) == Acknowledged(s0, actions, trip)
  {
    if actions != [] {
      var n := |actions| - 1;
      HistoryIsWhatWasAcknowledged(s0, actions[..n], trip);
      assert Reachable(Runs.After(Next, s0, actions[..n]));
      StepAddsWhatItAccepts(Runs.After(Next, s0, actions[..n]), actions[n], trip);
    }
  }

  /** Steps in which this helper starts no trip. */
  ghost function StartsNone(h: nat): (State, Action) -> bool {
    (s, a) => Enabled(s, a) && !(a.Start? && a.helper == h)
  }

  /** The helper's trips are those of `trips`, unchanged. */
  ghost predicate SameTrips(h: nat, trips: map<nat, Trip>, now: map<nat, Trip>) {
    && (forall k :: k in trips ==> k in now && (trips[k].helper == h ==> now[k] == trips[k]))
    && forall k :: k in now && now[k].helper == h ==> k in trips && trips[k].helper == h
  }

  lemma NothingToEnd(s: State, h: nat, trips: map<nat, Trip>)
    requires SameTrips(h, trips, s.trips) && forall k :: !IsLive(trips, h, k)
    ensures EndTrip(s, h).0 == s
  {
    forall k ensures !IsLive(s.trips, h, k) {
      assert !IsLive(trips, h, k);
    }
  }

  lemma IdleStep(s: State, a: Action, h: nat, trips: map<nat, Trip>)
    requires SameTrips(h, trips, s.trips) && StartsNone(h)(s, a) && forall k :: !IsLive(trips, h, k)
    ensures SameTrips(h, trips, Next(s, a).trips)
  {
    match a
    case End(g) => NothingToEnd(s, h, trips);
    case Ingest(g, bus, points, late) => assert Next(s, a).trips == s.trips;
    case _ =>
  }

  /** Fixes still queued when a trip ends are filed under that very trip for twelve hours, whatever anyone does
      meanwhile, as long as the helper starts no other trip. */
  lemma OutboxDrainsToItsTrip(s: State, h: nat, id: nat, run: seq<Action>, points: seq<Fix>, late: Option<nat>)
    requires Reachable(s) && IsLive(s.trips, h, id) && s.trips[id].start < s.now
    requires Runs.Legal(StartsNone(h), Next, Next(s, End(h)), run)
    requires var t := Runs.After(Next, Next(s, End(h)), run);
      t.now <= s.now + 43200.0 && Enabled(t, Ingest(h, s.trips[id].bus, points, late))
    ensures var t := Runs.After(Next, Next(s, End(h)), run);
      IngestGps(t, h, s.trips[id].bus, points, late).1 == Accepted(|points|, s.trips[id].bus, id)
  {
    ReachableInv(s);
    OneLive(s, h, LiveTrip(s.trips, h).value, id);
    EndInv(s, h);
    var ended := Next(s, End(h));
    NothingElseLive(s, h, id, ended.trips);
    var inv := (u: State) => Inv(u) && SameTrips(h, ended.trips, u.trips);
    forall u, a | inv(u) && StartsNone(h)(u, a) ensures inv(Next(u, a)) {
      NextInv(u, a);
      IdleStep(u, a, h, ended.trips);
    }
    Runs.InvariantOverRuns(inv, StartsNone(h), Next, ended, run);
    LeftoversGoTo(s, h, id, Runs.After(Next, ended, run), points, late);
  }

  lemma LeftoversGoTo(s: State, h: nat, id: nat, t: State, points: seq<Fix>, late: Option<nat>)
    requires Inv(s) && Inv(t) && IsLive(s.trips, h, id) && s.trips[id].start < s.now && t.now <= s.now + DRAIN_S
    requires SameTrips(h, s.trips[id := Closed(s.trips[id], s.now)], t.trips)
    requires Enabled(t, Ingest(h, s.trips[id].bus, points, late))
    ensures IngestGps(t, h, s.trips[id].bus, points, late).1 == Accepted(|points|, s.trips[id].bus, id)
  {
    NothingElseLive(s, h, id, s.trips[id := Closed(s.trips[id], s.now)]);
    CachedIsTable(t, h);
    assert Drains(t.trips, t.now, h, s.trips[id].bus, id);
    assert late.value != id ==> Apart(s.trips[late.value], s.trips[id]);
  }

  lemma NothingElseLive(s: State, h: nat, id: nat, trips: map<nat, Trip>)
    requires Inv(s) && IsLive(s.trips, h, id) && trips == s.trips[id := Closed(s.trips[id], s.now)]
    ensures forall k :: !IsLive(trips, h, k)
  {
    forall k ensures !IsLive(trips, h, k) {
      if IsLive(trips, h, k) {
        OneLive(s, h, k, id);
      }
    }
  }

  /** Steps in which this helper ends no trip. */
  ghost function EndsNone(h: nat): (State, Action) -> bool {
    (s, a) => Enabled(s, a) && !(a.End? && a.helper == h)
  }

  lemma StillDriving(s: State, a: Action, h: nat, id: nat)
    requires Inv(s) && IsLive(s.trips, h, id) && EndsNone(h)(s, a)
    ensures id in Next(s, a).trips && Next(s, a).trips[id] == s.trips[id]
  {
    match a
    case Get(g) =>
    case Ingest(g, bus, points, late) =>
    case _ =>
  }

  /** The cached entry's expiry does not stop a forgotten trip: however long it runs and whatever anyone else does, as
      long as its helper does not end it the next batch is filed under it and leaves it cached. */
  lemma ForgottenTripStillCollects(s: State, h: nat, id: nat, run: seq<Action>, points: seq<Fix>, late: Option<nat>)
    requires Reachable(s) && IsLive(s.trips, h, id) && Runs.Legal(EndsNone(h), Next, s, run) && points != []
    ensures var t := Runs.After(Next, s, run);
      && IngestGps(t, h, s.trips[id].bus, points, late).1 == Accepted(|points|, s.trips[id].bus, id)
      && h in IngestGps(t, h, s.trips[id].bus, points, late).0.cache
  {
    ReachableInv(s);
    var inv := (u: State) => Inv(u) && id in u.trips && u.trips[id] == s.trips[id];
    forall u, a | inv(u) && EndsNone(h)(u, a) ensures inv(Next(u, a)) {
      NextInv(u, a);
      StillDriving(u, a, h, id);
    }
    Runs.InvariantOverRuns(inv, EndsNone(h), Next, s, run);
    LiveTripCollects(Runs.After(Next, s, run), h, id, points, late);
  }

  lemma LiveTripCollects(s: State, h: nat, id: nat, points: seq<Fix>, late: Option<nat>)
    requires Inv(s) && IsLive(s.trips, h, id) && points != []
    ensures IngestGps(s, h, s.trips[id].bus, points, late).1 == Accepted(|points|, s.trips[id].bus, id)
    ensures h in IngestGps(s, h, s.trips[id].bus, points, late).0.cache
  {
    OneLive(s, h, LiveTrip(s.trips, h).value, id);
    CachedIsTable(s, h);
  }
}
