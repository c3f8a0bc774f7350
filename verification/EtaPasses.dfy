/** Progress carried between engine passes (app/worker/eta_engine.py), however the fix windows overlap or repeat. */
module EtaPasses {
  import opened Base
  import opened EtaProgress

  /** What the store holds after one pass: an empty window leaves it alone. */
  function Pass(w: Terrain, stops: seq<Stop>, stored: Option<Progress>, window: seq<Fix>): Option<Progress> {
    if window == [] then stored else Advance(w, stops, window, stored)
  }

  /** What the store holds after the passes, starting from nothing. */
  function Stored(w: Terrain, stops: seq<Stop>, windows: seq<seq<Fix>>): Option<Progress> {
    if windows == [] then None
    else Pass(w, stops, Stored(w, stops, windows[..|windows| - 1]), windows[|windows| - 1])
  }

  /** Every fix any pass has seen. */
  function Union(windows: seq<seq<Fix>>): seq<Fix> {
    if windows == [] then [] else Union(windows[..|windows| - 1]) + windows[|windows| - 1]
  }

  lemma PassClosedForm(w: Terrain, stops: seq<Stop>, stored: Option<Progress>, window: seq<Fix>)
    ensures IsAdvance(w, stops, window, stored, Pass(w, stops, stored, window))
  {
    AdvanceClosedForm(w, stops, window, stored);
  }

  /** Progress is at the furthest stop hit by any of the fixes, or at none when no stop was hit. */
  ghost predicate AtFurthest(w: Terrain, stops: seq<Stop>, fixes: seq<Fix>, p: Option<Progress>) {
    && (p.None? <==> forall s :: Hit(w, stops, fixes, s) ==> s <= 0)
    && (p.Some? ==> p.value.reached > 0 && Hit(w, stops, fixes, p.value.reached))
    && (p.Some? ==> forall s :: Hit(w, stops, fixes, s) ==> s <= p.value.reached)
  }

  lemma FromScratchIsFurthest(w: Terrain, stops: seq<Stop>, fixes: seq<Fix>, r: Option<Progress>)
    requires IsAdvance(w, stops, fixes, None, r)
    ensures AtFurthest(w, stops, fixes, r)
  {}

  lemma PassKeepsFurthest(w: Terrain, stops: seq<Stop>, seen: seq<Fix>, stored: Option<Progress>, window: seq<Fix>,
      r: Option<Progress>)
    requires AtFurthest(w, stops, seen, stored) && IsAdvance(w, stops, window, stored, r)
    ensures AtFurthest(w, stops, seen + window, r)
  {
    assert forall s :: Hit(w, stops, seen + window, s) <==> Hit(w, stops, seen, s) || Hit(w, stops, window, s);
  }

  /** Over every run of passes the stored stop is the furthest one any fix ever seen was at. */
  lemma {:induction false} StoredIsFurthest(w: Terrain, stops: seq<Stop>, windows: seq<seq<Fix>>)
    ensures AtFurthest(w, stops, Union(windows), Stored(w, stops, windows))
  {
    if windows != [] {
      var n := |windows| - 1;
      StoredIsFurthest(w, stops, windows[..n]);
      PassClosedForm(w, stops, Stored(w, stops, windows[..n]), windows[n]);
      PassKeepsFurthest(w, stops, Union(windows[..n]), Stored(w, stops, windows[..n]), windows[n],
                        Stored(w, stops, windows));
    }
  }

  /** The window brings a fix at the stop already reached that is older than the recorded arrival there. */
  ghost predicate OlderArrival(w: Terrain, stops: seq<Stop>, window: seq<Fix>, stored: Option<Progress>) {
    stored.Some? && exists f :: f in window && HitBy(w, stops, f, stored.value.reached) && f.ts < stored.value.at
  }

  /** One pass over a new window agrees with one pass over everything seen, exactly unless the bus stays at its stop and
      the window brings an older arrival there. */
  lemma PassAgreesIff(w: Terrain, stops: seq<Stop>, seen: seq<Fix>, window: seq<Fix>)
    ensures var stored := Advance(w, stops, seen, None);
      var passed := Pass(w, stops, stored, window);
      var whole := Advance(w, stops, seen + window, None);
      && SeqOf(passed) == SeqOf(whole)
      && (passed == whole <==> !(SeqOf(passed) == SeqOf(stored) && OlderArrival(w, stops, window, stored)))
  {
    var stored := Advance(w, stops, seen, None);
    var passed := Pass(w, stops, stored, window);
    var whole := Advance(w, stops, seen + window, None);
    AdvanceClosedForm(w, stops, seen, None);
    AdvanceClosedForm(w, stops, seen + window, None);
    PassClosedForm(w, stops, stored, window);
    FromScratchIsFurthest(w, stops, seen, stored);
    FromScratchIsFurthest(w, stops, seen + window, whole);
    PassKeepsFurthest(w, stops, seen, stored, window, passed);
    if SeqOf(passed) == SeqOf(stored) {
      StayedAgrees(w, stops, seen, window, stored, whole);
    } else {
      MovedAgrees(w, stops, seen, window, stored, passed, whole);
    }
  }

  lemma FirstAtUnique(w: Terrain, stops: seq<Stop>, fixes: seq<Fix>, s: int, t: real, u: real)
    requires FirstAt(w, stops, fixes, s, t) && FirstAt(w, stops, fixes, s, u)
    ensures t == u
  {}

  lemma StayedAgrees(w: Terrain, stops: seq<Stop>, seen: seq<Fix>, window: seq<Fix>,
      stored: Option<Progress>, whole: Option<Progress>)
    requires IsAdvance(w, stops, seen, None, stored) && AtFurthest(w, stops, seen, stored)
    requires IsAdvance(w, stops, seen + window, None, whole) && SeqOf(whole) == SeqOf(stored)
    requires AtFurthest(w, stops, seen + window, whole)
    ensures stored == whole <==> !OlderArrival(w, stops, window, stored)
  {
    if stored.Some? {
      var s := stored.value.reached;
      assert FirstAt(w, stops, seen, s, stored.value.at);
      assert FirstAt(w, stops, seen + window, s, whole.value.at);
      if !OlderArrival(w, stops, window, stored) {
        assert FirstAt(w, stops, seen + window, s, stored.value.at);
        FirstAtUnique(w, stops, seen + window, s, stored.value.at, whole.value.at);
      }
    }
  }

  lemma MovedAgrees(w: Terrain, stops: seq<Stop>, seen: seq<Fix>, window: seq<Fix>,
      stored: Option<Progress>, passed: Option<Progress>, whole: Option<Progress>)
    requires AtFurthest(w, stops, seen, stored) && IsAdvance(w, stops, window, stored, passed)
    requires IsAdvance(w, stops, seen + window, None, whole)
    requires SeqOf(passed) == SeqOf(whole) != SeqOf(stored)
    ensures passed == whole
  {
    var s := SeqOf(whole);
    assert !Hit(w, stops, seen, s);
    assert FirstAt(w, stops, window, s, passed.value.at);
    assert FirstAt(w, stops, seen + window, s, passed.value.at);
    FirstAtUnique(w, stops, seen + window, s, passed.value.at, whole.value.at);
  }

  /** No pass brings a fix older than any seen before, unless it was itself seen before. */
  ghost predicate NewFixesAreLater(windows: seq<seq<Fix>>) {
    windows != [] ==>
      var n := |windows| - 1;
      && NewFixesAreLater(windows[..n])
      && forall f, g :: f in windows[n] && f !in Union(windows[..n]) && g in Union(windows[..n]) ==> g.ts <= f.ts
  }

  /** Then the store holds exactly what one pass over everything would give, arrival time included. */
  lemma {:induction false} StoredIsOnePass(w: Terrain, stops: seq<Stop>, windows: seq<seq<Fix>>)
    requires NewFixesAreLater(windows)
    ensures Stored(w, stops, windows) == Advance(w, stops, Union(windows), None)
  {
    if windows != [] {
      var n := |windows| - 1;
      var seen, window := Union(windows[..n]), windows[n];
      StoredIsOnePass(w, stops, windows[..n]);
      PassAgreesIff(w, stops, seen, window);
      var stored := Advance(w, stops, seen, None);
      AdvanceClosedForm(w, stops, seen, None);
      if stored.Some? {
        var s := stored.value.reached;
        assert FirstAt(w, stops, seen, s, stored.value.at);
        forall f | f in window && HitBy(w, stops, f, s) ensures stored.value.at <= f.ts {
          var g :| g in seen && HitBy(w, stops, g, s) && g.ts == stored.value.at;
        }
      }
    }
  }

  /** The order condition is needed: a fix at the same stop that turns up late but is older. */
  lemma LateFixKeepsLaterArrival()
    ensures var here := Point(0.0, 0.0);
      var w := Terrain((p, q) => 0.0, ARRIVAL_RADIUS_KM);
      var stops := [Stop("a", 1, here, None)];
      Pass(w, stops, Advance(w, stops, [Fix(here, 10.0)], None), [Fix(here, 5.0)])
        != Advance(w, stops, [Fix(here, 10.0)] + [Fix(here, 5.0)], None)
  {
    var here := Point(0.0, 0.0);
    var w := Terrain((p, q) => 0.0, ARRIVAL_RADIUS_KM);
    var stops := [Stop("a", 1, here, None)];
    var early, late := Fix(here, 5.0), Fix(here, 10.0);
    AdvanceClosedForm(w, stops, [late], None);
    OneStop(w, stops, [late], 10.0, Advance(w, stops, [late], None));
    assert stops[0] in stops && HitBy(w, stops, early, 1);
    PassClosedForm(w, stops, Some(Progress(1, 10.0)), [early]);
    assert forall g, s :: HitBy(w, stops, g, s) ==> s == 1;
    PassAgreesIff(w, stops, [late], [early]);
  }

  lemma OneStop(w: Terrain, stops: seq<Stop>, fixes: seq<Fix>, t: real, r: Option<Progress>)
    requires |stops| == 1 && stops[0].seqNo == 1
    requires exists f :: f in fixes && Hits(w, f, stops[0]) && f.ts == t
    requires forall f :: f in fixes ==> t <= f.ts
    requires IsAdvance(w, stops, fixes, None, r)
    ensures r == Some(Progress(1, t))
  {
    var f :| f in fixes && Hits(w, f, stops[0]) && f.ts == t;
    assert stops[0] in stops;
    assert HitBy(w, stops, f, 1);
    assert Hit(w, stops, fixes, 1);
    assert forall g, s :: HitBy(w, stops, g, s) ==> s == 1;
  }
}
