/** Arrival times for the stops ahead (app/services/eta.py, `estimate_arrivals`): a cumulative walk, two estimators
    joined at a seam, and a repair that only ever pushes later. Times are seconds, distances kilometres. */
module EtaArrivals {
  import opened Base
  import opened EtaProgress
  import Rounding
  import Sorting

  const ROAD_FACTOR := 1.3
  const SPEED_HORIZON_STOPS := 2
  const MAX_HORIZON_S := 10800.0
  const MIN_USABLE_KMH := 3.0
  const MAX_PLAUSIBLE_KMH := 80.0
  const STALE_FIX_S := 300.0

  datatype Basis = Live | Scheduled

  datatype Arrival = Arrival(stopId: string, seqNo: int, eta: real, basis: Basis, distanceKm: real)

  /** What one estimate is made from. */
  datatype Situation = Situation(
    stops: seq<Stop>,
    position: Option<Point>,
    progress: Option<Progress>,
    actualStart: real,
    speedKmh: Option<real>,
    now: real)

  type Distance = (Point, Point) -> real

  ghost predicate DistinctNumbers(stops: seq<Stop>) {
    forall i, j :: 0 <= i < j < |stops| ==> stops[i].seqNo != stops[j].seqNo
  }

  // ----- speed

  function PathLength(dist: Distance, fixes: seq<Fix>): real {
    if |fixes| < 2 then 0.0
    else PathLength(dist, fixes[..|fixes| - 1]) + dist(fixes[|fixes| - 2].at, fixes[|fixes| - 1].at)
  }

  /** Distance covered over time elapsed, when there is a recent, plausible one. */
  function RollingSpeed(dist: Distance, fixes: seq<Fix>, now: real): (speed: Option<real>)
    ensures speed.Some? ==> MIN_USABLE_KMH <= speed.value <= MAX_PLAUSIBLE_KMH
  {
    if |fixes| < 2 then None
    else
      var ordered := ByTime(fixes);
      Sorting.SortMembers((f: Fix) => f.ts, fixes);
      var newest, elapsedH := ordered[|ordered| - 1], (ordered[|ordered| - 1].ts - ordered[0].ts) / 3600.0;
      if now - newest.ts > STALE_FIX_S || elapsedH <= 0.0 then None
      else
        var speed := PathLength(dist, ordered) / elapsedH;
        if speed < MIN_USABLE_KMH || speed > MAX_PLAUSIBLE_KMH then None else Some(speed)
  }

  // ----- the pieces of one estimate

  /** The offset of the first stop with that number. */
  function OffsetOf(stops: seq<Stop>, number: int): Option<int> {
    if stops == [] then None
    else if stops[0].seqNo == number then stops[0].offsetMin
    else OffsetOf(stops[1..], number)
  }

  /** How late the bus was at the last stop it reached; zero if unknowable. */
  function ScheduleDelay(stops: seq<Stop>, progress: Option<Progress>, actualStart: real): real {
    if progress.None? || progress.value.reached <= 0 then 0.0
    else
      match OffsetOf(stops, progress.value.reached)
      case None => 0.0
      case Some(offset) => progress.value.at - actualStart - 60.0 * offset as real
  }

  function Ahead(stops: seq<Stop>, reached: int): seq<Stop> {
    if stops == [] then []
    else (if stops[0].seqNo > reached then [stops[0]] else []) + Ahead(stops[1..], reached)
  }

  function Remaining(stops: seq<Stop>, reached: int): seq<Stop> {
    Sorting.Sort((p: Stop) => p.seqNo as real, Ahead(stops, reached))
  }

  /** Road distance out to the next stop, then stop to stop. */
  function Walk(dist: Distance, from: Point, stops: seq<Stop>, i: nat): real
    requires i < |stops|
  {
    if i == 0 then dist(from, stops[0].at) * ROAD_FACTOR
    else Walk(dist, from, stops, i - 1) + dist(stops[i - 1].at, stops[i].at) * ROAD_FACTOR
  }

  function DistanceTo(dist: Distance, s: Situation, stops: seq<Stop>, i: nat): real
    requires i < |stops|
  {
    if s.position.None? then 0.0 else Walk(dist, s.position.value, stops, i)
  }

  /** Observed speed for the next stops, otherwise the timetable shifted by the delay so far. */
  function RawTime(dist: Distance, s: Situation, stops: seq<Stop>, i: nat): Option<(real, Basis)>
    requires i < |stops|
  {
    if s.speedKmh.Some? && s.speedKmh.value != 0.0 && i < SPEED_HORIZON_STOPS && s.position.Some? then
      Some((s.now + DistanceTo(dist, s, stops, i) / s.speedKmh.value * 3600.0, Live))
    else if stops[i].offsetMin.Some? then
      Some((s.actualStart + 60.0 * stops[i].offsetMin.value as real
              + ScheduleDelay(s.stops, s.progress, s.actualStart), Scheduled))
    else None
  }

  /** The estimate for one remaining stop before the repair; none when there is nothing defensible to say. */
  function Estimate(dist: Distance, s: Situation, stops: seq<Stop>, i: nat): Option<Arrival>
    requires i < |stops|
  {
    match RawTime(dist, s, stops, i)
    case None => None
    case Some((time, basis)) =>
      var eta := MaxReal(time, s.now);
      if eta - s.now > MAX_HORIZON_S then None
      else Some(Arrival(stops[i].id, stops[i].seqNo, eta, basis, Rounding.Round2(DistanceTo(dist, s, stops, i))))
  }

  function Estimates(dist: Distance, s: Situation, stops: seq<Stop>, n: nat): seq<Arrival>
    requires n <= |stops|
  {
    if n == 0 then []
    else
      var e := Estimate(dist, s, stops, n - 1);
      Estimates(dist, s, stops, n - 1) + (if e.Some? then [e.value] else [])
  }

  /** The latest of the first i + 1 times. */
  function Latest(arrivals: seq<Arrival>, i: nat): real
    requires i < |arrivals|
  {
    if i == 0 then arrivals[0].eta else MaxReal(Latest(arrivals, i - 1), arrivals[i].eta)
  }

  function Repaired(arrivals: seq<Arrival>): seq<Arrival> {
    seq(|arrivals|, i requires 0 <= i < |arrivals| => arrivals[i].(eta := Latest(arrivals, i)))
  }

  function RawBoard(dist: Distance, s: Situation): seq<Arrival> {
    var stops := Remaining(s.stops, SeqOf(s.progress));
    Estimates(dist, s, stops, |stops|)
  }

  function Board(dist: Distance, s: Situation): seq<Arrival> {
    Repaired(RawBoard(dist, s))
  }

  // ----- the loops

  method Monotonic(arrivals: seq<Arrival>) returns (fixed: seq<Arrival>)
    ensures fixed == Repaired(arrivals)
  {
    var latest: Option<real> := None;
    fixed := [];
    for k := 0 to |arrivals|
      invariant |fixed| == k && forall i :: 0 <= i < k ==> fixed[i] == arrivals[i].(eta := Latest(arrivals, i))
      invariant latest == if k == 0 then None else Some(Latest(arrivals, k - 1))
    {
      var eta := if latest.None? || arrivals[k].eta >= latest.value then arrivals[k].eta else latest.value;
      latest := Some(eta);
      fixed := fixed + [arrivals[k].(eta := eta)];
    }
  }

  ghost predicate Increasing(stops: seq<Stop>) {
    forall i, j :: 0 <= i < j < |stops| ==> stops[i].seqNo < stops[j].seqNo
  }

  ghost predicate Noted(dist: Distance, from: Point, stops: seq<Stop>, distances: map<int, real>, i: nat)
    requires i < |stops|
  {
    stops[i].seqNo in distances && distances[stops[i].seqNo] == Walk(dist, from, stops, i)
  }

  ghost predicate WalkedUpTo(dist: Distance, from: Point, stops: seq<Stop>, distances: map<int, real>, n: nat)
    requires n <= |stops|
  {
    forall i: nat :: i < n ==> Noted(dist, from, stops, distances, i)
  }

  /** Distances by stop number, as the walk along the remaining stops leaves them; none without a position. */
  ghost predicate Walked(dist: Distance, s: Situation, stops: seq<Stop>, distances: map<int, real>) {
    && (s.position.None? ==> distances == map[])
    && (s.position.Some? ==> WalkedUpTo(dist, s.position.value, stops, distances, |stops|))
  }

  /** Where the walk stands before its n-th leg. */
  ghost predicate WalkerAt(dist: Distance, from: Point, stops: seq<Stop>, n: nat, running: real, cursor: Point)
    requires n <= |stops|
  {
    if n == 0 then running == 0.0 && cursor == from
    else running == Walk(dist, from, stops, n - 1) && cursor == stops[n - 1].at
  }

  /** One leg of the walk. */
  lemma WalkOn(dist: Distance, from: Point, stops: seq<Stop>, distances: map<int, real>, n: nat,
      running: real, cursor: Point)
    requires n < |stops| && Increasing(stops) && WalkedUpTo(dist, from, stops, distances, n)
    requires WalkerAt(dist, from, stops, n, running, cursor)
    ensures var further := running + dist(cursor, stops[n].at) * ROAD_FACTOR;
      && WalkerAt(dist, from, stops, n + 1, further, stops[n].at)
      && WalkedUpTo(dist, from, stops, distances[stops[n].seqNo := further], n + 1)
  {
    var updated := distances[stops[n].seqNo := running + dist(cursor, stops[n].at) * ROAD_FACTOR];
    forall i: nat | i < n + 1 ensures Noted(dist, from, stops, updated, i) {
      assert i < n ==> Noted(dist, from, stops, distances, i);
    }
  }

  method WalkDistances(dist: Distance, s: Situation, remaining: seq<Stop>) returns (distances: map<int, real>)
    requires Increasing(remaining)
    ensures Walked(dist, s, remaining, distances)
  {
    distances := map[];
    if s.position.Some? {
      distances := WalkFrom(dist, s.position.value, remaining);
    }
  }

  method WalkFrom(dist: Distance, from: Point, remaining: seq<Stop>) returns (distances: map<int, real>)
    requires Increasing(remaining)
    ensures WalkedUpTo(dist, from, remaining, distances, |remaining|)
  {
    distances := map[];
    var running, cursor := 0.0, from;
    for k := 0 to |remaining|
      invariant WalkedUpTo(dist, from, remaining, distances, k) && WalkerAt(dist, from, remaining, k, running, cursor)
    {
      WalkOn(dist, from, remaining, distances, k, running, cursor);
      running := running + dist(cursor, remaining[k].at) * ROAD_FACTOR;
      distances := distances[remaining[k].seqNo := running];
      cursor := remaining[k].at;
    }
  }

  method EstimateStop(dist: Distance, s: Situation, remaining: seq<Stop>, index: nat, distances: map<int, real>,
      delay: real) returns (arrival: Option<Arrival>)
    requires index < |remaining| && Walked(dist, s, remaining, distances)
    requires delay == ScheduleDelay(s.stops, s.progress, s.actualStart)
    ensures arrival == Estimate(dist, s, remaining, index)
  {
    var stop := remaining[index];
    assert s.position.Some? ==> Noted(dist, s.position.value, remaining, distances, index);
    var distance := if stop.seqNo in distances then distances[stop.seqNo] else 0.0;
    var eta: Option<real>, basis := None, Live;
    if s.speedKmh.Some? && s.speedKmh.value != 0.0 && index < SPEED_HORIZON_STOPS && stop.seqNo in distances {
      eta, basis := Some(s.now + distance / s.speedKmh.value * 3600.0), Live;
    }
    if eta.None? && stop.offsetMin.Some? {
      eta, basis := Some(s.actualStart + 60.0 * stop.offsetMin.value as real + delay), Scheduled;
    }
    if eta.Some? && eta.value < s.now {
      eta := Some(s.now);
    }
    if eta.None? || eta.value - s.now > MAX_HORIZON_S {
      return None;
    }
    arrival := Some(Arrival(stop.id, stop.seqNo, eta.value, basis, Rounding.Round2(distance)));
  }

  method EstimateArrivals(dist: Distance, s: Situation) returns (board: seq<Arrival>)
    requires DistinctNumbers(s.stops)
    ensures board == Board(dist, s)
  {
    var remaining := Remaining(s.stops, SeqOf(s.progress));
    if remaining == [] {
      return [];
    }
    RemainingOrder(s.stops, SeqOf(s.progress));
    var delay := ScheduleDelay(s.stops, s.progress, s.actualStart);
    var distances := WalkDistances(dist, s, remaining);
    var arrivals := EstimateRemaining(dist, s, remaining, distances, delay);
    board := Monotonic(arrivals);
  }

  method EstimateRemaining(dist: Distance, s: Situation, remaining: seq<Stop>, distances: map<int, real>, delay: real)
    returns (arrivals: seq<Arrival>)
    requires Walked(dist, s, remaining, distances) && delay == ScheduleDelay(s.stops, s.progress, s.actualStart)
    ensures arrivals == Estimates(dist, s, remaining, |remaining|)
  {
    arrivals := [];
    for index := 0 to |remaining|
      invariant arrivals == Estimates(dist, s, remaining, index)
    {
      var arrival := EstimateStop(dist, s, remaining, index, distances, delay);
      if arrival.None? {
        continue;
      }
      arrivals := arrivals + [arrival.value];
    }
  }

  // ----- the stops ahead

  lemma {:induction false} AheadMembers(stops: seq<Stop>, reached: int)
    ensures forall p :: p in Ahead(stops, reached) <==> p in stops && p.seqNo > reached
  {
    if stops != [] {
      AheadMembers(stops[1..], reached);
      assert stops == [stops[0]] + stops[1..];
    }
  }

  lemma {:induction false} AheadDistinct(stops: seq<Stop>, reached: int)
    requires DistinctNumbers(stops)
    ensures DistinctNumbers(Ahead(stops, reached))
  {
    if stops != [] {
      AheadDistinct(stops[1..], reached);
      AheadMembers(stops[1..], reached);
      var rest := Ahead(stops[1..], reached);
      forall i | 0 <= i < |rest| ensures rest[i].seqNo != stops[0].seqNo {
        assert rest[i] in rest;
        var k :| 0 <= k < |stops[1..]| && stops[1..][k] == rest[i];
        assert stops[k + 1] == rest[i];
      }
    }
  }

  /** Exactly the stops beyond progress, in route order. */
  lemma RemainingOrder(stops: seq<Stop>, reached: int)
    requires DistinctNumbers(stops)
    ensures var r := Remaining(stops, reached);
      && (forall p :: p in r <==> p in stops && p.seqNo > reached)
      && Increasing(r)
  {
    var key := (p: Stop) => p.seqNo as real;
    var ahead := Ahead(stops, reached);
    AheadMembers(stops, reached);
    AheadDistinct(stops, reached);
    Sorting.SortMembers(key, ahead);
    Sorting.SortSorts(key, ahead);
    Sorting.SortPermutes(key, ahead);
    var r := Remaining(stops, reached);
    forall i, j | 0 <= i < j < |r| ensures r[i].seqNo < r[j].seqNo {
      assert key(r[i]) <= key(r[j]);
      NoTwins(ahead, r, i, j);
    }
  }

  /** A rearrangement of distinctly numbered stops is distinctly numbered. */
  lemma NoTwins(a: seq<Stop>, b: seq<Stop>, i: nat, j: nat)
    requires DistinctNumbers(a) && multiset(a) == multiset(b) && i < j < |b|
    ensures b[i].seqNo != b[j].seqNo
  {
    var x, y := b[i], b[j];
    assert x in multiset(a) && y in multiset(a);
    if x == y {
      assert b == b[..i] + [x] + b[i + 1..j] + [x] + b[j + 1..];
      assert multiset(b)[x] >= 2;
      OnceEach(a, x);
    }
  }

  lemma {:induction false} OnceEach(a: seq<Stop>, x: Stop)
    requires DistinctNumbers(a)
    ensures multiset(a)[x] <= 1
  {
    if a != [] {
      var n := |a| - 1;
      OnceEach(a[..n], x);
      assert a == a[..n] + [a[n]];
      assert a[n] == x ==> x !in a[..n];
    }
  }
}
