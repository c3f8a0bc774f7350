/** What an arrival board promises, for every route, position, speed and delay. */
module EtaGuarantees {
  import opened Base
  import opened EtaProgress
  import opened EtaArrivals
  import Rounding

  ghost predicate NonNegative(dist: Distance) {
    forall a, b :: dist(a, b) >= 0.0
  }

  lemma {:induction false} WalkGrows(dist: Distance, s: Situation, stops: seq<Stop>, i: nat, j: nat)
    requires NonNegative(dist) && i <= j < |stops|
    ensures 0.0 <= DistanceTo(dist, s, stops, i) <= DistanceTo(dist, s, stops, j)
  {
    if s.position.Some? {
      if i < j {
        WalkGrows(dist, s, stops, i, j - 1);
      } else if 0 < i {
        WalkGrows(dist, s, stops, i - 1, i - 1);
      }
    }
  }

  /** Times lie within the horizon, and a later entry is a later stop, no nearer. */
  ghost predicate InOrder(s: Situation, board: seq<Arrival>) {
    && (forall k :: 0 <= k < |board| ==> s.now <= board[k].eta <= s.now + MAX_HORIZON_S && board[k].distanceKm >= 0.0)
    && (forall k, m :: 0 <= k < m < |board| ==>
          board[k].seqNo < board[m].seqNo && board[k].distanceKm <= board[m].distanceKm)
  }

  /** Every entry is at or before the given stop. */
  ghost predicate UpTo(board: seq<Arrival>, seqNo: int, distanceKm: real) {
    forall k :: 0 <= k < |board| ==> board[k].seqNo <= seqNo && board[k].distanceKm <= distanceKm
  }

  lemma AddedInOrder(s: Situation, board: seq<Arrival>, a: Arrival, seqNo: int, distanceKm: real)
    requires InOrder(s, board)
    requires board == [] || (UpTo(board, seqNo, distanceKm) && seqNo < a.seqNo && distanceKm <= a.distanceKm)
    requires s.now <= a.eta <= s.now + MAX_HORIZON_S && 0.0 <= a.distanceKm
    ensures InOrder(s, board + [a]) && UpTo(board + [a], a.seqNo, a.distanceKm)
  {}

  function RoundedTo(dist: Distance, s: Situation, stops: seq<Stop>, i: nat): real
    requires i < |stops|
  {
    Rounding.Round2(DistanceTo(dist, s, stops, i))
  }

  lemma RoundedGrows(dist: Distance, s: Situation, stops: seq<Stop>, i: nat, j: nat)
    requires NonNegative(dist) && i <= j < |stops|
    ensures 0.0 <= RoundedTo(dist, s, stops, i) <= RoundedTo(dist, s, stops, j)
  {
    WalkGrows(dist, s, stops, i, j);
    Rounding.Round2Monotone(0.0, DistanceTo(dist, s, stops, i));
    Rounding.Round2Monotone(DistanceTo(dist, s, stops, i), DistanceTo(dist, s, stops, j));
  }

  lemma EstimateShape(dist: Distance, s: Situation, stops: seq<Stop>, i: nat)
    requires i < |stops| && Estimate(dist, s, stops, i).Some?
    ensures var a := Estimate(dist, s, stops, i).value;
      && a.seqNo == stops[i].seqNo && a.distanceKm == RoundedTo(dist, s, stops, i)
      && s.now <= a.eta <= s.now + MAX_HORIZON_S
  {}

  /** The first n stops' entries are in order and none lies beyond the last of those stops. */
  ghost predicate OrderedUpTo(dist: Distance, s: Situation, stops: seq<Stop>, n: nat, board: seq<Arrival>)
    requires n <= |stops|
  {
    && InOrder(s, board)
    && (board == [] || (n > 0 && UpTo(board, stops[n - 1].seqNo, RoundedTo(dist, s, stops, n - 1))))
  }

  lemma OneStopFurther(dist: Distance, s: Situation, stops: seq<Stop>, n: nat, board: seq<Arrival>)
    requires NonNegative(dist) && Increasing(stops) && 0 < n <= |stops| && OrderedUpTo(dist, s, stops, n - 1, board)
    ensures OrderedUpTo(dist, s, stops, n, board)
    ensures Estimate(dist, s, stops, n - 1).Some? ==>
      OrderedUpTo(dist, s, stops, n, board + [Estimate(dist, s, stops, n - 1).value])
  {
    RoundedGrows(dist, s, stops, if n > 1 then n - 2 else 0, n - 1);
    if Estimate(dist, s, stops, n - 1).Some? {
      EstimateShape(dist, s, stops, n - 1);
      var a := Estimate(dist, s, stops, n - 1).value;
      if n > 1 {
        AddedInOrder(s, board, a, stops[n - 2].seqNo, RoundedTo(dist, s, stops, n - 2));
      } else {
        AddedInOrder(s, board, a, 0, 0.0);
      }
    }
  }

  lemma EstimatesNext(dist: Distance, s: Situation, stops: seq<Stop>, n: nat)
    requires 0 < n <= |stops|
    ensures var before, e := Estimates(dist, s, stops, n - 1), Estimate(dist, s, stops, n - 1);
      Estimates(dist, s, stops, n) == if e.Some? then before + [e.value] else before
  {}

  lemma {:induction false} EstimatesInOrder(dist: Distance, s: Situation, stops: seq<Stop>, n: nat)
    requires NonNegative(dist) && Increasing(stops) && n <= |stops|
    ensures OrderedUpTo(dist, s, stops, n, Estimates(dist, s, stops, n))
  {
    if n > 0 {
      EstimatesInOrder(dist, s, stops, n - 1);
      OneStopFurther(dist, s, stops, n, Estimates(dist, s, stops, n - 1));
      EstimatesNext(dist, s, stops, n);
    }
  }

  /** A stop is listed exactly when it has an estimate, once, with that estimate. */
  lemma {:induction false} ListedIffEstimated(dist: Distance, s: Situation, stops: seq<Stop>, n: nat)
    requires n <= |stops|
    ensures forall a :: a in Estimates(dist, s, stops, n) <==>
      exists i :: 0 <= i < n && Estimate(dist, s, stops, i) == Some(a)
  {
    if n > 0 {
      ListedIffEstimated(dist, s, stops, n - 1);
    }
  }

  lemma {:induction false} LatestBounds(arrivals: seq<Arrival>, i: nat, low: real, high: real)
    requires i < |arrivals| && forall k :: 0 <= k <= i ==> low <= arrivals[k].eta <= high
    ensures low <= Latest(arrivals, i) <= high && arrivals[i].eta <= Latest(arrivals, i)
    ensures i > 0 ==> Latest(arrivals, i - 1) <= Latest(arrivals, i)
  {
    if i > 0 {
      LatestBounds(arrivals, i - 1, low, high);
    }
  }

  lemma {:induction false} LatestGrows(arrivals: seq<Arrival>, i: nat, j: nat)
    requires i <= j < |arrivals|
    ensures Latest(arrivals, i) <= Latest(arrivals, j)
  {
    if i < j {
      LatestGrows(arrivals, i, j - 1);
    }
  }

  /** Nothing nondecreasing that pulls no arrival earlier is anywhere below the repaired times. */
  lemma {:induction false} LatestIsLeast(arrivals: seq<Arrival>, times: seq<real>, i: nat)
    requires |times| == |arrivals| && i < |arrivals|
    requires forall k :: 0 <= k < |times| ==> arrivals[k].eta <= times[k]
    requires forall k, m :: 0 <= k < m < |times| ==> times[k] <= times[m]
    ensures Latest(arrivals, i) <= times[i]
  {
    if i > 0 {
      LatestIsLeast(arrivals, times, i - 1);
    }
  }

  /** An entry is for a stop of the route beyond progress. */
  ghost predicate ForStopAhead(s: Situation, a: Arrival) {
    a.seqNo > SeqOf(s.progress) && exists p :: p in s.stops && p.seqNo == a.seqNo && p.id == a.stopId
  }

  lemma ListedStopsAreAhead(dist: Distance, s: Situation, a: Arrival)
    requires DistinctNumbers(s.stops) && a in RawBoard(dist, s)
    ensures ForStopAhead(s, a)
  {
    var stops := Remaining(s.stops, SeqOf(s.progress));
    RemainingOrder(s.stops, SeqOf(s.progress));
    ListedIffEstimated(dist, s, stops, |stops|);
    var i :| 0 <= i < |stops| && Estimate(dist, s, stops, i) == Some(a);
    assert stops[i] in stops;
  }

  lemma RepairedInOrder(s: Situation, raw: seq<Arrival>)
    requires InOrder(s, raw)
    ensures InOrder(s, Repaired(raw))
  {
    forall k | 0 <= k < |raw| ensures s.now <= Latest(raw, k) <= s.now + MAX_HORIZON_S {
      LatestBounds(raw, k, s.now, s.now + MAX_HORIZON_S);
    }
  }

  /** The board in route order beyond progress: distances never shrink, times lie within three hours of now. */
  lemma BoardInOrder(dist: Distance, s: Situation)
    requires NonNegative(dist) && DistinctNumbers(s.stops)
    ensures InOrder(s, Board(dist, s))
    ensures forall k :: 0 <= k < |Board(dist, s)| ==> ForStopAhead(s, Board(dist, s)[k])
  {
    var stops := Remaining(s.stops, SeqOf(s.progress));
    var raw := RawBoard(dist, s);
    RemainingOrder(s.stops, SeqOf(s.progress));
    EstimatesInOrder(dist, s, stops, |stops|);
    RepairedInOrder(s, raw);
    forall k | 0 <= k < |raw| ensures ForStopAhead(s, Board(dist, s)[k]) {
      ListedStopsAreAhead(dist, s, raw[k]);
    }
  }

  /** The repair changes nothing but times, makes them nondecreasing, pulls none earlier, and is the least such
      change. */
  lemma RepairIsLeast(dist: Distance, s: Situation)
    ensures var raw, board := RawBoard(dist, s), Board(dist, s);
      && |board| == |raw|
      && (forall k :: 0 <= k < |raw| ==> board[k] == raw[k].(eta := board[k].eta) && raw[k].eta <= board[k].eta)
      && (forall k, m :: 0 <= k < m < |board| ==> board[k].eta <= board[m].eta)
      && (forall times: seq<real> ::
            && |times| == |raw|
            && (forall k :: 0 <= k < |raw| ==> raw[k].eta <= times[k])
            && (forall k, m :: 0 <= k < m < |raw| ==> times[k] <= times[m])
            ==> forall k :: 0 <= k < |raw| ==> board[k].eta <= times[k])
  {
    var raw, board := RawBoard(dist, s), Board(dist, s);
    forall k | 0 <= k < |raw| ensures raw[k].eta <= board[k].eta {}
    forall k, m | 0 <= k < m < |board| ensures board[k].eta <= board[m].eta {
      LatestGrows(raw, k, m);
    }
    forall times: seq<real>, k |
      && |times| == |raw|
      && (forall k :: 0 <= k < |raw| ==> raw[k].eta <= times[k])
      && (forall k, m :: 0 <= k < m < |raw| ==> times[k] <= times[m])
      && 0 <= k < |raw|
      ensures board[k].eta <= times[k]
    {
      LatestIsLeast(raw, times, k);
    }
  }

  /** A timetable estimate carries the measured lateness over whole: the last arrival plus the timetabled gap,
      whenever the trip really started. */
  lemma LatenessCarriesOver(dist: Distance, s: Situation, stops: seq<Stop>, i: nat, reachedOffset: int)
    requires i < |stops| && RawTime(dist, s, stops, i).Some? && RawTime(dist, s, stops, i).value.1 == Scheduled
    requires s.progress.Some? && s.progress.value.reached > 0
    requires OffsetOf(s.stops, s.progress.value.reached) == Some(reachedOffset)
    ensures stops[i].offsetMin.Some?
    ensures RawTime(dist, s, stops, i).value.0
      == s.progress.value.at + 60.0 * (stops[i].offsetMin.value - reachedOffset) as real
  {}
}
