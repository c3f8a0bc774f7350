/** The trip handlers in their own form: table and keys as fields, committed first and cached after. */
module TripService {
  import opened Base
  import opened Trips
  import opened TripRuns

  class Service {
    var buses: map<nat, bool>
    var routes: map<nat, bool>
    var trips: map<nat, Trip>
    var cache: map<nat, ActiveTrip>
    var positions: map<nat, Position>
    var stream: seq<Entry>
    var channel: seq<Message>

    constructor (buses: map<nat, bool>, routes: map<nat, bool>)
      ensures forall now :: Init(At(now)) && Valid(now)
    {
      this.buses, this.routes, trips, cache, positions, stream, channel := buses, routes, map[], map[], map[], [], [];
    }

    function At(now: real): (s: State)
      reads this
    {
      State(now, buses, routes, trips, cache, positions, stream, channel)
    }

    ghost predicate Valid(now: real)
      reads this
    {
      Inv(At(now))
    }

    /** Start on the road: the row first, its cached copy after. */
    method StartTrip(helper: nat, bus: nat, route: nat, id: nat, now: real) returns (reply: StartReply)
      requires Valid(now) && id !in trips
      modifies this`trips, this`cache
      ensures Valid(now) && (At(now), reply) == Trips.StartTrip(old(At(now)), helper, bus, route, id)
    {
      StartInv(At(now), helper, bus, route, id);
      if bus !in buses || !buses[bus] {
        return InvalidTarget;
      }
      if route !in routes || !routes[route] {
        return InvalidTarget;
      }
      if Occupied(trips, helper, bus) {
        return TripConflict;
      }
      trips := trips[id := Trip(helper, bus, route, now, Live, None)];
      CacheActive(helper, FromModel(id, trips[id]));
      reply := Started(id);
    }

    method CacheActive(helper: nat, active: ActiveTrip)
      modifies this`cache
      ensures cache == old(cache)[helper := active]
    {
      cache := cache[helper := active];
    }

    /** `scalar_one_or_none`: there is never more than one. */
    method LiveTripFromDb(helper: nat, now: real) returns (id: Option<nat>)
      requires Valid(now)
      ensures id == LiveTrip(trips, helper)
    {
      if exists k :: k in trips && IsLive(trips, helper, k) {
        var k :| k in trips && IsLive(trips, helper, k);
        OneLive(At(now), helper, k, LiveTrip(trips, helper).value);
        return Some(k);
      }
      id := None;
    }

    method EndTrip(helper: nat, now: real) returns (reply: EndReply)
      requires Valid(now)
      modifies this`trips, this`cache
      ensures Valid(now) && (At(now), reply) == Trips.EndTrip(old(At(now)), helper)
    {
      EndInv(At(now), helper);
      var live := LiveTripFromDb(helper, now);
      if live.None? {
        return NoLiveTrip;
      }
      trips := trips[live.value := trips[live.value].(status := Completed, end := Some(now))];
      cache := cache - {helper};
      reply := Ended(live.value);
    }

    /** Cached, or from the table and cached again. */
    method GetActiveTrip(helper: nat, now: real) returns (active: Option<ActiveTrip>)
      requires Valid(now)
      modifies this`cache
      ensures Valid(now) && (At(now), active) == Trips.GetActiveTrip(old(At(now)), helper)
      ensures active == old(FromTable(At(now), helper))
    {
      GetInv(At(now), helper);
      CachedIsTable(At(now), helper);
      if helper in cache {
        return Some(cache[helper]);
      }
      var live := LiveTripFromDb(helper, now);
      if live.None? {
        return None;
      }
      active := Some(FromModel(live.value, trips[live.value]));
      CacheActive(helper, active.value);
    }

    /** Binds a batch to a trip, then writes it fix by fix. */
    method IngestGps(helper: nat, bus: nat, points: seq<Fix>, late: Option<nat>, now: real)
      returns (reply: IngestReply)
      requires Valid(now) && points != [] && LatestDraining(trips, now, helper, bus, late)
      modifies this`cache, this`positions, this`stream, this`channel
      ensures Valid(now) && (At(now), reply) == Trips.IngestGps(old(At(now)), helper, bus, points, late)
    {
      IngestInv(At(now), helper, bus, points, late);
      var active := GetActiveTrip(helper, now);
      var busId, tripId := bus, 0;
      if active.Some? {
        if bus != active.value.bus {
          return WrongBus;
        }
        busId, tripId := active.value.bus, active.value.trip;
      } else {
        if late.None? {
          return if bus !in buses then UnknownBus else NoTripOnBus;
        }
        busId, tripId := trips[late.value].bus, late.value;
      }
      Write(helper, busId, tripId, active.Some?, points, now);
      reply := Accepted(|points|, busId, tripId);
    }

    /** The pipeline: position and message for a live trip, then one stream entry per fix. */
    method Write(helper: nat, bus: nat, trip: nat, live: bool, points: seq<Fix>, now: real)
      requires points != []
      modifies this`positions, this`stream, this`channel
      ensures At(now) == File(old(At(now)), helper, bus, trip, live, points)
    {
      if live {
        var newest := Newest(points);
        positions := positions[bus := Position(newest, trip, now)];
        channel := channel + [Message(bus, newest)];
      }
      for k := 0 to |points|
        modifies this`stream
        invariant stream == old(stream) + Entries(points[..k], bus, helper, trip, now)
      {
        stream := stream + [Entry(bus, helper, trip, points[k], now)];
        assert Entries(points[..k], bus, helper, trip, now) + [Entry(bus, helper, trip, points[k], now)]
          == Entries(points[..k + 1], bus, helper, trip, now);
      }
      assert points[..|points|] == points;
    }
  }
}
