/** What every entry of a board says, from the route, the clock and the position alone: which stops are listed, on what
    basis, for when, and how far. */
module EtaTimes {
  import opened Base
  import opened EtaProgress
  import opened EtaArrivals
  import EtaGuarantees
  import Rounding
  import Sorting

  // ----- the way ahead

  /** The stops beyond the one reached, along the route. */
  ghost predicate InRouteOrder(s: Situation, way: seq<Stop>) {
    && (forall p :: p in way <==> p in s.stops && p.seqNo > if s.progress.Some? then s.progress.value.reached else 0)
    && forall i, j :: 0 <= i < j < |way| ==> way[i].seqNo < way[j].seqNo
  }

  lemma RestOf(a: seq<Stop>)
    requires Increasing(a) && a != []
    ensures Increasing(a[1..]) && forall p :: p in a[1..] <==> p in a && p != a[0]
  {
    assert a == [a[0]] + a[1..];
    assert a[0] !in a[1..];
  }

  lemma NeitherEmpty(a: seq<Stop>, b: seq<Stop>)
    requires a != [] && forall p :: p in a ==> p in b
    ensures b != []
  {
    assert a[0] in b;
  }

  lemma {:induction false} OneOrder(a: seq<Stop>, b: seq<Stop>)
    requires Increasing(a) && Increasing(b) && forall p :: p in a <==> p in b
    ensures a == b
    decreases |a|
  {
    if a != [] {
      NeitherEmpty(a, b);
      assert a[0] in b && b[0] in a;
      RestOf(a);
      RestOf(b);
      OneOrder(a[1..], b[1..]);
      assert a == [a[0]] + a[1..] && b == [b[0]] + b[1..];
    } else if b != [] {
      NeitherEmpty(b, a);
    }
  }

  lemma WayIsRemaining(s: Situation, way: seq<Stop>)
    requires DistinctNumbers(s.stops) && InRouteOrder(s, way)
    ensures way == Remaining(s.stops, SeqOf(s.progress))
  {
    RemainingOrder(s.stops, SeqOf(s.progress));
    OneOrder(way, Remaining(s.stops, SeqOf(s.progress)));
  }

  /** The stops the bus comes to first. */
  function Nearer(s: Situation, stop: Stop): set<Stop> {
    set p | p in s.stops && (if s.progress.Some? then s.progress.value.reached else 0) < p.seqNo < stop.seqNo
  }

  function Members(stops: seq<Stop>): set<Stop> {
    set p | p in stops
  }

  lemma OneMoreMember(front: seq<Stop>, last: Stop)
    requires last !in front
    ensures |Members(front + [last])| == |Members(front)| + 1
  {
    assert Members(front + [last]) == Members(front) + {last};
  }

  lemma {:induction false} AllDifferent(a: seq<Stop>)
    requires Increasing(a)
    ensures |Members(a)| == |a|
    decreases |a|
  {
    if a != [] {
      var front, last := a[..|a| - 1], a[|a| - 1];
      AllDifferent(front);
      OneMoreMember(front, last);
      assert a == front + [last];
    }
  }

  lemma NearerCount(s: Situation, way: seq<Stop>, i: nat)
    requires InRouteOrder(s, way) && i < |way|
    ensures |Nearer(s, way[i])| == i
  {
    AllDifferent(way[..i]);
    forall p ensures p in Nearer(s, way[i]) <==> p in way[..i] {
      if p in Nearer(s, way[i]) {
        var k :| 0 <= k < |way| && way[k] == p;
        assert k < i;
        assert way[..i][k] == p;
      }
      if p in way[..i] {
        assert p in way;
      }
    }
    assert Nearer(s, way[i]) == Members(way[..i]);
  }

  // ----- how far

  /** The sum of the straight legs through these points. */
  function Legs(dist: Distance, points: seq<Point>): real {
    if |points| < 2 then 0.0 else dist(points[0], points[1]) + Legs(dist, points[1..])
  }

  function Places(stops: seq<Stop>): seq<Point> {
    seq(|stops|, i requires 0 <= i < |stops| => stops[i].at)
  }

  /** By road to the i-th stop ahead, through every stop before it; nothing without a position. */
  function RoadKm(dist: Distance, s: Situation, way: seq<Stop>, i: nat): real
    requires i < |way|
  {
    if s.position.None? then 0.0 else 1.3 * Legs(dist, [s.position.value] + Places(way[..i + 1]))
  }

  lemma {:induction false} OneLegMore(dist: Distance, points: seq<Point>, last: Point)
    requires points != []
    ensures Legs(dist, points + [last]) == Legs(dist, points) + dist(points[|points| - 1], last)
    decreases |points|
  {
    if |points| > 1 {
      OneLegMore(dist, points[1..], last);
      assert (points + [last])[1..] == points[1..] + [last];
    } else {
      assert (points + [last])[1..] == [last];
    }
  }

  lemma {:induction false} WalkIsRoad(dist: Distance, from: Point, way: seq<Stop>, i: nat)
    requires i < |way|
    ensures Walk(dist, from, way, i) == 1.3 * Legs(dist, [from] + Places(way[..i + 1]))
    decreases i
  {
    var before := [from] + Places(way[..i]);
    assert [from] + Places(way[..i + 1]) == before + [way[i].at];
    OneLegMore(dist, before, way[i].at);
    if i == 0 {
      assert before == [from];
    } else {
      WalkIsRoad(dist, from, way, i - 1);
      assert before[|before| - 1] == way[i - 1].at;
    }
  }

  lemma DistanceIsRoad(dist: Distance, s: Situation, way: seq<Stop>, i: nat)
    requires i < |way|
    ensures DistanceTo(dist, s, way, i) == RoadKm(dist, s, way, i)
  {
    if s.position.Some? {
      WalkIsRoad(dist, s.position.value, way, i);
    }
  }

  // ----- how fast

  function Spots(fixes: seq<Fix>): seq<Point> {
    seq(|fixes|, i requires 0 <= i < |fixes| => fixes[i].at)
  }

  lemma {:induction false} PathIsLegs(dist: Distance, fixes: seq<Fix>)
    ensures PathLength(dist, fixes) == Legs(dist, Spots(fixes))
    decreases |fixes|
  {
    if |fixes| >= 2 {
      var n := |fixes| - 1;
      PathIsLegs(dist, fixes[..n]);
      assert Spots(fixes) == Spots(fixes[..n]) + [fixes[n].at];
      OneLegMore(dist, Spots(fixes[..n]), fixes[n].at);
    }
  }

  lemma Quotient(x: real, h: real, low: real)
    requires h > 0.0
    ensures (low <= x / h <==> low * h <= x) && (x / h <= low <==> x <= low * h) && x / h * h == x
  {}

  /** A speed is given exactly when the newest fix is at most five minutes old, time passed since the oldest, and the
      way covered makes at least three kilometres and at most eighty an hour; it is then that way over that time,
      standing still included. */
  lemma SpeedExactly(dist: Distance, fixes: seq<Fix>, now: real, oldest: Fix, newest: Fix)
    requires oldest in fixes && newest in fixes && forall f :: f in fixes ==> oldest.ts <= f.ts <= newest.ts
    ensures var hours, way := (newest.ts - oldest.ts) / 3600.0, Legs(dist, Spots(ByTime(fixes)));
      && (RollingSpeed(dist, fixes, now).Some? <==>
            now - newest.ts <= 300.0 && hours > 0.0 && 3.0 * hours <= way <= 80.0 * hours)
      && (RollingSpeed(dist, fixes, now).Some? ==> RollingSpeed(dist, fixes, now).value * hours == way)
  {
    EndsOfWindow(fixes, oldest, newest);
    PathIsLegs(dist, ByTime(fixes));
    var hours, way := (newest.ts - oldest.ts) / 3600.0, PathLength(dist, ByTime(fixes));
    if hours > 0.0 {
      assert |fixes| >= 2;
      Quotient(way, hours, MIN_USABLE_KMH);
      Quotient(way, hours, MAX_PLAUSIBLE_KMH);
    }
  }

  lemma EndsOfWindow(fixes: seq<Fix>, oldest: Fix, newest: Fix)
    requires oldest in fixes && newest in fixes && forall f :: f in fixes ==> oldest.ts <= f.ts <= newest.ts
    ensures var ordered := ByTime(fixes);
      |ordered| == |fixes| > 0 && ordered[0].ts == oldest.ts && ordered[|ordered| - 1].ts == newest.ts
  {
    var key, ordered := (f: Fix) => f.ts, ByTime(fixes);
    Sorting.SortMembers(key, fixes);
    Sorting.SortSorts(key, fixes);
    var i :| 0 <= i < |ordered| && ordered[i] == oldest;
    var j :| 0 <= j < |ordered| && ordered[j] == newest;
    assert ordered[0] in fixes && ordered[|ordered| - 1] in fixes;
    assert key(ordered[0]) <= key(ordered[i]) && key(ordered[j]) <= key(ordered[|ordered| - 1]);
  }

  // ----- when

  /** How late the bus was at the stop it reached: its time there against that stop's on the timetable. Not known before
      the first stop, or where the timetable is silent: then nothing. */
  ghost predicate LateBy(s: Situation, late: real) {
    if s.progress.Some? && s.progress.value.reached > 0
       && exists p :: p in s.stops && p.seqNo == s.progress.value.reached && p.offsetMin.Some? then
      exists p :: p in s.stops && p.seqNo == s.progress.value.reached && p.offsetMin.Some?
               && late == s.progress.value.at - (s.actualStart + 60.0 * p.offsetMin.value as real)
    else late == 0.0
  }

  lemma {:induction false} OffsetIsItsStops(stops: seq<Stop>, number: int)
    requires DistinctNumbers(stops)
    ensures forall p :: p in stops && p.seqNo == number ==> OffsetOf(stops, number) == p.offsetMin
    ensures (forall p :: p in stops ==> p.seqNo != number) ==> OffsetOf(stops, number) == None
  {
    if stops != [] {
      OffsetIsItsStops(stops[1..], number);
      assert stops == [stops[0]] + stops[1..];
    }
  }

  lemma DelayIsLate(s: Situation, late: real)
    requires DistinctNumbers(s.stops)
    ensures LateBy(s, late) <==> late == ScheduleDelay(s.stops, s.progress, s.actualStart)
  {
    if s.progress.Some? {
      OffsetIsItsStops(s.stops, s.progress.value.reached);
    }
  }

  /** Speed is used when there is any and the bus is seen, for a stop with fewer than two before it. */
  predicate GoesBySpeed(s: Situation, stop: Stop) {
    s.speedKmh.Some? && s.speedKmh.value != 0.0 && s.position.Some? && |Nearer(s, stop)| < 2
  }

  /** When the bus is due at the i-th stop ahead, if anything says. */
  function Due(dist: Distance, s: Situation, way: seq<Stop>, i: nat, late: real): Option<real>
    requires i < |way|
  {
    if GoesBySpeed(s, way[i]) then Some(s.now + 3600.0 * (RoadKm(dist, s, way, i) / s.speedKmh.value))
    else if way[i].offsetMin.Some? then Some(s.actualStart + 60.0 * way[i].offsetMin.value as real + late)
    else None
  }

  /** The entry for the i-th stop ahead: due within three hours, or already and then now. */
  ghost predicate Says(dist: Distance, s: Situation, way: seq<Stop>, i: nat, late: real, a: Arrival)
    requires i < |way|
  {
    var due := Due(dist, s, way, i, late);
    && due.Some? && due.value <= s.now + 10800.0
    && a.stopId == way[i].id && a.seqNo == way[i].seqNo
    && a.basis == (if GoesBySpeed(s, way[i]) then Live else Scheduled)
    && a.eta == (if due.value < s.now then s.now else due.value)
    && InHundredths(RoadKm(dist, s, way, i), a.distanceKm)
  }

  ghost predicate InHundredths(x: real, rounded: real) {
    exists n: int :: Hundredths(rounded, n) && Rounding.Nearest(x * 100.0, n)
  }

  predicate Hundredths(x: real, n: int) {
    x == n as real / 100.0
  }

  lemma Round2IsNearest(x: real, rounded: real)
    ensures InHundredths(x, rounded) <==> rounded == Rounding.Round2(x)
  {
    var n := Rounding.RoundHalfEven(x * 100.0);
    Rounding.RoundsToNearest(x * 100.0, n);
    if InHundredths(x, rounded) {
      var m: int :| Hundredths(rounded, m) && Rounding.Nearest(x * 100.0, m);
      Rounding.RoundsToNearest(x * 100.0, m);
    }
    if rounded == Rounding.Round2(x) {
      assert Hundredths(rounded, n);
    }
  }

  lemma RawIsDue(dist: Distance, s: Situation, way: seq<Stop>, i: nat, late: real)
    requires DistinctNumbers(s.stops) && InRouteOrder(s, way) && LateBy(s, late) && i < |way|
    ensures var due, basis := Due(dist, s, way, i, late), if GoesBySpeed(s, way[i]) then Live else Scheduled;
      RawTime(dist, s, way, i) == if due.Some? then Some((due.value, basis)) else None
  {
    NearerCount(s, way, i);
    DistanceIsRoad(dist, s, way, i);
    DelayIsLate(s, late);
  }

  lemma EstimateSays(dist: Distance, s: Situation, way: seq<Stop>, i: nat, late: real, a: Arrival)
    requires DistinctNumbers(s.stops) && InRouteOrder(s, way) && LateBy(s, late) && i < |way|
    ensures Estimate(dist, s, way, i) == Some(a) <==> Says(dist, s, way, i, late, a)
  {
    RawIsDue(dist, s, way, i, late);
    DistanceIsRoad(dist, s, way, i);
    Round2IsNearest(RoadKm(dist, s, way, i), a.distanceKm);
  }

  /** Before the repair, the board holds exactly these entries. */
  lemma RawBoardExactly(dist: Distance, s: Situation, way: seq<Stop>, late: real)
    requires DistinctNumbers(s.stops) && InRouteOrder(s, way) && LateBy(s, late)
    ensures forall a :: a in RawBoard(dist, s) <==> exists i :: 0 <= i < |way| && Says(dist, s, way, i, late, a)
  {
    WayIsRemaining(s, way);
    var raw := RawBoard(dist, s);
    assert raw == Estimates(dist, s, way, |way|);
    forall a ensures a in raw <==> exists i :: 0 <= i < |way| && Says(dist, s, way, i, late, a) {
      EntrySays(dist, s, way, late, a);
    }
  }

  lemma EntrySays(dist: Distance, s: Situation, way: seq<Stop>, late: real, a: Arrival)
    requires DistinctNumbers(s.stops) && InRouteOrder(s, way) && LateBy(s, late)
    ensures a in Estimates(dist, s, way, |way|) <==> exists i :: 0 <= i < |way| && Says(dist, s, way, i, late, a)
  {
    EtaGuarantees.ListedIffEstimated(dist, s, way, |way|);
    forall i | 0 <= i < |way| ensures Estimate(dist, s, way, i) == Some(a) <==> Says(dist, s, way, i, late, a) {
      EstimateSays(dist, s, way, i, late, a);
    }
  }

  /** So a stop ahead is left out if and only if neither speed nor timetable speaks for it, or it is due in more than
      three hours. */
  lemma OmittedIff(dist: Distance, s: Situation, way: seq<Stop>, i: nat, late: real)
    requires DistinctNumbers(s.stops) && InRouteOrder(s, way) && LateBy(s, late) && i < |way|
    ensures var due := Due(dist, s, way, i, late);
      (forall a :: a in RawBoard(dist, s) ==> a.seqNo != way[i].seqNo)
        <==> due.None? || due.value > s.now + 10800.0
  {
    RawBoardExactly(dist, s, way, late);
    var due := Due(dist, s, way, i, late);
    if due.Some? && due.value <= s.now + 10800.0 {
      var km := Rounding.Round2(RoadKm(dist, s, way, i));
      Round2IsNearest(RoadKm(dist, s, way, i), km);
      var a := Arrival(way[i].id, way[i].seqNo, if due.value < s.now then s.now else due.value,
                       if GoesBySpeed(s, way[i]) then Live else Scheduled, km);
      assert Says(dist, s, way, i, late, a);
    }
  }
}
