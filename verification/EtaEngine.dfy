/** One pass of the ETA engine over one trip (app/worker/eta_engine.py), on its cache of progress and boards. */
module EtaEngine {
  import opened Base
  import opened EtaProgress
  import opened EtaPasses
  import opened EtaArrivals

  datatype Trip = Trip(id: string, stops: seq<Stop>, actualStart: Option<real>)

  datatype Cached = Cached(computedAt: real, arrivals: seq<Arrival>)

  class Cache {
    var progress: map<string, Progress>
    var boards: map<string, Cached>

    constructor ()
      ensures progress == map[] && boards == map[]
    {
      progress, boards := map[], map[];
    }

    function Of(tripId: string): Option<Progress>
      reads this
    {
      if tripId in progress then Some(progress[tripId]) else None
    }

    /** Progress moves by one pass over the window, at a radius of 150 metres; the board, for the bus at the window's
        last fix, is replaced when there is anything to show; no other trip is touched. */
    method ComputeForTrip(dist: Distance, trip: Trip, fixes: seq<Fix>, now: real) returns (written: nat)
      requires DistinctNumbers(trip.stops)
      modifies this
      ensures trip.stops == [] || trip.actualStart.None? ==>
        written == 0 && progress == old(progress) && boards == old(boards)
      ensures trip.stops != [] && trip.actualStart.Some? ==>
        var position := if fixes == [] then None else Some(fixes[|fixes| - 1].at);
        var board := Board(dist, Situation(trip.stops, position, Of(trip.id), trip.actualStart.value,
                                           RollingSpeed(dist, fixes, now), now));
        && IsAdvance(Terrain(dist, 0.15), trip.stops, fixes, old(Of(trip.id)), Of(trip.id))
        && Of(trip.id) == Pass(Terrain(dist, 0.15), trip.stops, old(Of(trip.id)), fixes)
        && written == |board|
        && boards == if board == [] then old(boards) else old(boards)[trip.id := Cached(now, board)]
      ensures forall id :: id != trip.id ==> Of(id) == old(Of(id))
    {
      if trip.stops == [] || trip.actualStart.None? {
        return 0;
      }
      var w, known := Terrain(dist, ARRIVAL_RADIUS_KM), Of(trip.id);
      var position := if fixes == [] then None else Some(fixes[|fixes| - 1].at);
      var speed := RollingSpeed(dist, fixes, now);
      if fixes != [] {
        var advanced := AdvanceProgress(w, trip.stops, fixes, known);
        if advanced.Some? && advanced != known {
          progress := progress[trip.id := advanced.value];
        }
        AdvanceClosedForm(w, trip.stops, fixes, known);
        known := advanced;
      }
      var board := EstimateArrivals(dist,
        Situation(trip.stops, position, known, trip.actualStart.value, speed, now));
      if board == [] {
        return 0;
      }
      boards := boards[trip.id := Cached(now, board)];
      written := |board|;
    }
  }
}
