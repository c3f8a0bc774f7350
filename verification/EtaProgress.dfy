/** How far along its route a bus has got (app/services/eta.py, `advance_progress`), pass after pass. */
module EtaProgress {
  import opened Base
  import opened Sorting

  datatype Point = Point(lat: real, lng: real)

  /** One GPS observation. */
  datatype Fix = Fix(at: Point, ts: real)

  /** One stop in a route's order, with its scheduled offset if anyone set one. */
  datatype Stop = Stop(id: string, seqNo: int, at: Point, offsetMin: Option<int>)

  datatype Progress = Progress(reached: int, at: real)

  const ARRIVAL_RADIUS_KM := 0.15

  /** Distance is any function of two points. */
  datatype Terrain = Terrain(distance: (Point, Point) -> real, radius: real)

  predicate Hits(w: Terrain, f: Fix, stop: Stop) {
    w.distance(f.at, stop.at) <= w.radius
  }

  function SeqOf(p: Option<Progress>): int {
    if p.None? then 0 else p.value.reached
  }

  // ----- the loops as folds

  /** Look at one stop for one fix. */
  function Look(w: Terrain, f: Fix, best: Option<Progress>, stop: Stop): Option<Progress> {
    if stop.seqNo <= SeqOf(best) then best
    else if Hits(w, f, stop) then Some(Progress(stop.seqNo, f.ts))
    else best
  }

  function OverStops(w: Terrain, f: Fix, stops: seq<Stop>, best: Option<Progress>): Option<Progress> {
    if stops == [] then best
    else Look(w, f, OverStops(w, f, stops[..|stops| - 1], best), stops[|stops| - 1])
  }

  function OverFixes(w: Terrain, fixes: seq<Fix>, stops: seq<Stop>, best: Option<Progress>): Option<Progress> {
    if fixes == [] then best
    else OverStops(w, fixes[|fixes| - 1], stops, OverFixes(w, fixes[..|fixes| - 1], stops, best))
  }

  function ByTime(fixes: seq<Fix>): seq<Fix> {
    Sort((f: Fix) => f.ts, fixes)
  }

  function Advance(w: Terrain, stops: seq<Stop>, fixes: seq<Fix>, previous: Option<Progress>): Option<Progress> {
    OverFixes(w, ByTime(fixes), stops, previous)
  }

  method AdvanceProgress(w: Terrain, stops: seq<Stop>, fixes: seq<Fix>, previous: Option<Progress>)
    returns (result: Option<Progress>)
    ensures result == Advance(w, stops, fixes, previous)
    ensures IsAdvance(w, stops, fixes, previous, result)
  {
    var reached := if previous.None? then 0 else previous.value.reached;
    var best := previous;
    var ordered := ByTime(fixes);
    for k := 0 to |ordered|
      invariant best == OverFixes(w, ordered[..k], stops, previous)
    {
      assert ordered[..k + 1][..k] == ordered[..k];
      ghost var before := best;
      for m := 0 to |stops|
        invariant best == OverStops(w, ordered[k], stops[..m], before)
      {
        assert stops[..m + 1][..m] == stops[..m];
        var stop := stops[m];
        if stop.seqNo <= (if best.None? then 0 else best.value.reached) {
          continue;
        }
        if w.distance(ordered[k].at, stop.at) <= w.radius {
          best := Some(Progress(stop.seqNo, ordered[k].ts));
        }
      }
      assert stops[..|stops|] == stops;
    }
    assert ordered[..|ordered|] == ordered;
    AdvanceClosedForm(w, stops, fixes, previous);
    if best.Some? && best.value.reached == reached {
      return previous;
    }
    result := best;
  }

  // ----- the closed form

  /** The fix was within the radius of a stop numbered `s`. */
  ghost predicate HitBy(w: Terrain, stops: seq<Stop>, f: Fix, s: int) {
    exists stop :: stop in stops && stop.seqNo == s && w.distance(f.at, stop.at) <= w.radius
  }

  ghost predicate Hit(w: Terrain, stops: seq<Stop>, fixes: seq<Fix>, s: int) {
    exists f :: f in fixes && HitBy(w, stops, f, s)
  }

  /** `t` is the earliest time any of the fixes was at stop `s`. */
  ghost predicate FirstAt(w: Terrain, stops: seq<Stop>, fixes: seq<Fix>, s: int, t: real) {
    && (exists f :: f in fixes && HitBy(w, stops, f, s) && f.ts == t)
    && (forall f :: f in fixes && HitBy(w, stops, f, s) ==> t <= f.ts)
  }

  /** Nothing new was hit and progress stands, or it moves to the furthest stop hit, stamped with the first hit there.
      */
  ghost predicate IsAdvance(w: Terrain, stops: seq<Stop>, fixes: seq<Fix>,
      previous: Option<Progress>, r: Option<Progress>)
  {
    if exists s :: s > SeqOf(previous) && Hit(w, stops, fixes, s) then
      && r.Some? && r.value.reached > SeqOf(previous)
      && Hit(w, stops, fixes, r.value.reached)
      && (forall s :: Hit(w, stops, fixes, s) ==> s <= r.value.reached)
      && FirstAt(w, stops, fixes, r.value.reached, r.value.at)
    else r == previous
  }

  /** One fix moves progress to the furthest stop it hits, if that is new. */
  lemma {:induction false} OverStopsClosedForm(w: Terrain, f: Fix, stops: seq<Stop>, best: Option<Progress>)
    ensures var r := OverStops(w, f, stops, best);
      && (forall s :: s > SeqOf(best) && HitBy(w, stops, f, s) ==> s <= SeqOf(r))
      && (r == best || (r == Some(Progress(SeqOf(r), f.ts)) && SeqOf(r) > SeqOf(best) && HitBy(w, stops, f, SeqOf(r))))
  {
    if stops != [] {
      var front, last := stops[..|stops| - 1], stops[|stops| - 1];
      OverStopsClosedForm(w, f, front, best);
      var mid, r := OverStops(w, f, front, best), OverStops(w, f, stops, best);
      forall s | s > SeqOf(best) && HitBy(w, stops, f, s) ensures s <= SeqOf(r) {
        var stop :| stop in stops && stop.seqNo == s && w.distance(f.at, stop.at) <= w.radius;
        assert stop in front || stop == last;
        assert stop in front ==> HitBy(w, front, f, s);
      }
      if r == mid && r != best {
        var stop :| stop in front && stop.seqNo == SeqOf(r) && w.distance(f.at, stop.at) <= w.radius;
        assert stop in stops;
      }
    }
  }

  lemma {:induction false} OverFixesClosedForm(w: Terrain, fixes: seq<Fix>, stops: seq<Stop>,
      previous: Option<Progress>)
    requires SortedBy((f: Fix) => f.ts, fixes)
    ensures IsAdvance(w, stops, fixes, previous, OverFixes(w, fixes, stops, previous))
  {
    if fixes != [] {
      var front, last := fixes[..|fixes| - 1], fixes[|fixes| - 1];
      OverFixesClosedForm(w, front, stops, previous);
      var mid := OverFixes(w, front, stops, previous);
      OverStopsClosedForm(w, last, stops, mid);
      assert forall f :: f in fixes <==> f in front || f == last;
      assert forall f :: f in front ==> f.ts <= last.ts;
      LaterFixAdvances(w, front, last, fixes, stops, previous, mid, OverStops(w, last, stops, mid));
    }
  }

  /** Adding one fix no earlier than the others to what they gave. */
  lemma LaterFixAdvances(w: Terrain, front: seq<Fix>, last: Fix, fixes: seq<Fix>, stops: seq<Stop>,
      previous: Option<Progress>, mid: Option<Progress>, r: Option<Progress>)
    requires IsAdvance(w, stops, front, previous, mid)
    requires forall f :: f in fixes <==> f in front || f == last
    requires forall f :: f in front ==> f.ts <= last.ts
    requires forall s :: s > SeqOf(mid) && HitBy(w, stops, last, s) ==> s <= SeqOf(r)
    requires r == mid
      || (r == Some(Progress(SeqOf(r), last.ts)) && SeqOf(r) > SeqOf(mid) && HitBy(w, stops, last, SeqOf(r)))
    ensures IsAdvance(w, stops, fixes, previous, r)
  {
    assert forall s :: Hit(w, stops, fixes, s) <==> Hit(w, stops, front, s) || HitBy(w, stops, last, s);
    if r != mid {
      assert Hit(w, stops, fixes, SeqOf(r));
      assert forall f :: f in front && HitBy(w, stops, f, SeqOf(r)) ==> Hit(w, stops, front, SeqOf(r));
      assert forall f :: f in fixes && HitBy(w, stops, f, SeqOf(r)) ==> f == last;
    }
  }

  /** The closed form of `advance_progress`. */
  lemma AdvanceClosedForm(w: Terrain, stops: seq<Stop>, fixes: seq<Fix>, previous: Option<Progress>)
    ensures IsAdvance(w, stops, fixes, previous, Advance(w, stops, fixes, previous))
  {
    var ordered := ByTime(fixes);
    SortSorts((f: Fix) => f.ts, fixes);
    SortMembers((f: Fix) => f.ts, fixes);
    OverFixesClosedForm(w, ordered, stops, previous);
    assert forall s :: Hit(w, stops, fixes, s) <==> Hit(w, stops, ordered, s);
  }

  /** The closed form leaves no choice. */
  lemma AdvanceIsUnique(w: Terrain, stops: seq<Stop>, fixes: seq<Fix>, previous: Option<Progress>,
      r: Option<Progress>, q: Option<Progress>)
    requires IsAdvance(w, stops, fixes, previous, r) && IsAdvance(w, stops, fixes, previous, q)
    ensures r == q
  {}

  lemma SameMembersSameAdvance(w: Terrain, stops: seq<Stop>, fixes: seq<Fix>, stops': seq<Stop>, fixes': seq<Fix>,
      previous: Option<Progress>, r: Option<Progress>)
    requires forall s :: s in stops <==> s in stops'
    requires forall f :: f in fixes <==> f in fixes'
    requires IsAdvance(w, stops', fixes', previous, r)
    ensures IsAdvance(w, stops, fixes, previous, r)
  {
    forall f, s ensures HitBy(w, stops, f, s) <==> HitBy(w, stops', f, s) {}
    forall s ensures Hit(w, stops, fixes, s) <==> Hit(w, stops', fixes', s) {}
    forall s, t ensures FirstAt(w, stops, fixes, s, t) <==> FirstAt(w, stops', fixes', s, t) {}
  }

  /** Fixes and stops are read only as sets. */
  lemma OrderDoesNotMatter(w: Terrain, stops: seq<Stop>, fixes: seq<Fix>, stops': seq<Stop>, fixes': seq<Fix>,
      previous: Option<Progress>)
    requires forall s :: s in stops <==> s in stops'
    requires forall f :: f in fixes <==> f in fixes'
    ensures Advance(w, stops, fixes, previous) == Advance(w, stops', fixes', previous)
  {
    var r, q := Advance(w, stops, fixes, previous), Advance(w, stops', fixes', previous);
    AdvanceClosedForm(w, stops, fixes, previous);
    AdvanceClosedForm(w, stops', fixes', previous);
    SameMembersSameAdvance(w, stops, fixes, stops', fixes', previous, q);
    AdvanceIsUnique(w, stops, fixes, previous, r, q);
  }
}
