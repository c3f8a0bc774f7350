/** What refresh-token rotation guarantees over every interleaving, and exactly how fast calls must be. */
module RotationGuarantees {
  import opened Base
  import opened Revocation
  import opened Rotation
  import Runs

  /** However many calls present one token, whoever is answered gets the same pair. */
  lemma OnePairPerToken(d: real, s: State)
    requires 0.0 < d <= ROTATION_GRACE_S / 2.0 && Reachable(d, s)
    ensures AtMostOnePair(s)
  {
    ReachableInv(d, s);
    forall a, b |
      && a in s.calls && b in s.calls && s.calls[a].token.jti == s.calls[b].token.jti
      && s.calls[a].phase.Returned? && s.calls[b].phase.Returned?
      ensures s.calls[a].phase.pair == s.calls[b].phase.pair
    {
      assert CallAgrees(d, s, a) && CallAgrees(d, s, b);
    }
  }

  /** One login gives one chain of refresh tokens. */
  lemma TokensFormOneChain(d: real, s: State)
    requires 0.0 < d <= ROTATION_GRACE_S / 2.0 && Reachable(d, s)
    ensures SingleChain(s)
  {
    ReachableInv(d, s);
    forall id | id in s.calls && s.calls[id].phase.Returned?
      ensures exists i :: 0 <= i < |s.held| - 1 && Answered(s, id, s.held[i], s.held[i + 1])
    {
      AnsweredIsALink(d, s, id);
    }
    forall i | 0 <= i < |s.held| - 1 ensures Rotated(s, s.held[i], s.held[i + 1]) {
      assert Link(s, i);
    }
  }

  lemma AnsweredIsALink(d: real, s: State, id: nat)
    requires Inv(d, s) && id in s.calls && s.calls[id].phase.Returned?
    ensures exists i :: 0 <= i < |s.held| - 1 && Answered(s, id, s.held[i], s.held[i + 1])
  {
    assert CallAgrees(d, s, id);
    var token, next := s.calls[id].token, s.calls[id].phase.pair.refresh;
    var i :| 0 <= i < |s.held| && s.held[i] == token;
    var k :| 0 <= k < |s.held| && s.held[k] == next;
    assert RecordOf(d, s, token.jti);
    if 0 < k {
      assert Link(s, k - 1);
      assert RecordOf(d, s, s.held[k - 1].jti);
      assert i == k - 1;
    }
    assert Answered(s, id, s.held[i], s.held[i + 1]);
  }

  lemma OlderTokenIsDead(d: real, s: State, i: int)
    requires 0.0 < d <= ROTATION_GRACE_S / 2.0 && Reachable(d, s) && Quiet(s)
    requires 0 <= i < |s.held| - 1
    ensures !Usable(s, s.held[i])
  {
    ReachableInv(d, s);
    assert Link(s, i);
    assert RecordOf(d, s, s.held[i].jti);
    assert CallAgrees(d, s, s.winner[s.held[i].jti]);
  }

  /** With no refresh in flight at most one token of the session, the newest, can still be exchanged. */
  lemma QuietLeavesOneUsable(d: real, s: State)
    requires 0.0 < d <= ROTATION_GRACE_S / 2.0 && Reachable(d, s) && Quiet(s)
    ensures |s.held| > 0
    ensures forall t :: t in s.held && Usable(s, t) ==> t == s.held[|s.held| - 1]
  {
    ReachableInv(d, s);
    forall i | 0 <= i < |s.held| - 1 ensures !Usable(s, s.held[i]) {
      OlderTokenIsDead(d, s, i);
    }
  }

  /** A caller that finds a rotated token revoked is handed its replacement exactly while the grace
      window since the claim lasts; only a logout can leave a revoked token with no record. */
  lemma GraceWindow(d: real, s: State, id: nat)
    requires 0.0 < d <= ROTATION_GRACE_S / 2.0 && Reachable(d, s) && Enabled(d, s, RecallPair(id))
    ensures var token := s.calls[id].token;
      var after := Next(s, RecallPair(id)).calls[id].phase;
      && (token.jti in s.redis.revoked && token.jti !in s.loggedOut ==> token.jti in s.redis.rotated)
      && (after.Returned? <==> token.jti in s.redis.rotated && s.now < ClaimedAt(s, token.jti) + ROTATION_GRACE_S)
      && (after.Returned? ==>
            forall b :: b in s.calls && s.calls[b].token == token && s.calls[b].phase.Returned? ==>
              s.calls[b].phase == after)
  {
    ReachableInv(d, s);
    assert CallAgrees(d, s, id);
    forall b | b in s.calls && s.calls[b].token == s.calls[id].token && s.calls[b].phase.Returned?
      ensures s.calls[b].phase == Returned(s.redis.rotated[s.calls[id].token.jti].pair)
    {
      assert CallAgrees(d, s, b);
    }
  }

  // ----- the time bound is exact

  const ROOT := Token(0, REFRESH_TTL_S)

  /** The pair call 0 mints at instant 0, and the one call 1 mints at instant 60. */
  const EARLY := IssuePair(0.0, 1, 2)
  const LATE := IssuePair(60.0, 3, 4)

  /** Two calls: the second is admitted just before the first revokes, and claims when the record is gone. */
  function SlowRun(): seq<Action> {
    [Check(0, ROOT), Mint(0, 1, 2), Claim(0), Tick(30.0), Check(1, ROOT), RevokeOld(0),
     Tick(30.0), Mint(1, 3, 4), Claim(1), RevokeOld(1)]
  }

  /** The state before the k-th action of `SlowRun`. */
  function Trace(k: nat): State
    requires k <= 10
  {
    var now := if k < 4 then 0.0 else if k < 7 then 30.0 else 60.0;
    var first :=
      if k < 2 then Admitted else if k < 3 then Minted(EARLY) else if k < 6 then Won(EARLY) else Returned(EARLY);
    var second :=
      if k < 8 then Admitted else if k < 9 then Minted(LATE) else if k < 10 then Won(LATE) else Returned(LATE);
    var revokedUntil := if k < 10 then 30.0 + (REFRESH_TTL_S - 30) as real else 60.0 + (REFRESH_TTL_S - 60) as real;
    State(
      now,
      Redis(if k < 6 then map[] else map[0 := revokedUntil],
            if k < 3 then map[] else if k < 9 then map[0 := Record(EARLY, 60.0)] else map[0 := Record(LATE, 120.0)]),
      if k == 0 then map[] else if k < 5 then map[0 := Call(ROOT, 0.0, first)]
      else map[0 := Call(ROOT, 0.0, first), 1 := Call(ROOT, 30.0, second)],
      if k < 2 then map[0 := None] else if k < 8 then map[0 := None, 1 := Some(0), 2 := Some(0)]
      else map[0 := None, 1 := Some(0), 2 := Some(0), 3 := Some(1), 4 := Some(1)],
      if k < 3 then map[] else if k < 9 then map[0 := 0] else map[0 := 1],
      {},
      if k < 6 then [ROOT] else if k < 10 then [ROOT, EARLY.refresh] else [ROOT, EARLY.refresh, LATE.refresh])
  }

  ghost predicate StepOfTrace(d: real, k: nat)
    requires k < 10
  {
    Enabled(d, Trace(k), SlowRun()[k]) && Next(Trace(k), SlowRun()[k]) == Trace(k + 1)
  }

  lemma FirstRefreshSteps(d: real)
    ensures StepOfTrace(d, 0) && StepOfTrace(d, 1) && StepOfTrace(d, 2)
  {}

  lemma FirstSteps(d: real, k: nat)
    requires ROTATION_GRACE_S / 2.0 < d && k < 4
    ensures StepOfTrace(d, k)
  {
    FirstRefreshSteps(d);
    if k == 3 {}
  }

  lemma MiddleSteps(d: real, k: nat)
    requires ROTATION_GRACE_S / 2.0 < d && 4 <= k < 7
    ensures StepOfTrace(d, k)
  {
    if k == 4 {} else if k == 5 {} else {}
  }

  lemma LateMint(d: real)
    ensures StepOfTrace(d, 7)
  {}

  lemma LateClaim(d: real)
    ensures StepOfTrace(d, 8)
  {}

  lemma LateRevoke(d: real)
    ensures StepOfTrace(d, 9)
  {}

  lemma LastSteps(d: real, k: nat)
    requires 7 <= k < 10
    ensures StepOfTrace(d, k)
  {
    if k == 7 { LateMint(d); } else if k == 8 { LateClaim(d); } else { LateRevoke(d); }
  }

  lemma {:induction false} TraceIsARun(d: real, k: nat)
    requires ROTATION_GRACE_S / 2.0 < d && k <= 10
    ensures Runs.Legal(Enabling(d), Next, Trace(0), SlowRun()[..k])
    ensures Runs.After(Next, Trace(0), SlowRun()[..k]) == Trace(k)
  {
    if 0 < k {
      TraceIsARun(d, k - 1);
      if k <= 4 { FirstSteps(d, k - 1); } else if k <= 7 { MiddleSteps(d, k - 1); } else { LastSteps(d, k - 1); }
      Runs.Extend(Enabling(d), Next, Trace(0), SlowRun()[..k - 1], SlowRun()[k - 1]);
      assert SlowRun()[..k] == SlowRun()[..k - 1] + [SlowRun()[k - 1]];
    }
  }

  /** Beyond half the grace period one token can be exchanged for two pairs. */
  lemma TwoPairsWhenSlow(d: real)
    requires ROTATION_GRACE_S / 2.0 < d
    ensures Reachable(d, Trace(10)) && !AtMostOnePair(Trace(10))
  {
    TraceIsARun(d, 10);
    assert SlowRun()[..10] == SlowRun();
    assert Init(Trace(0));
    assert Trace(10).calls[0].phase.pair != Trace(10).calls[1].phase.pair;
  }

  /** Rotation is safe for every interleaving if and only if every call finishes within half the grace period. */
  lemma HalfTheGraceIsExact(d: real)
    requires 0.0 < d
    ensures (forall s :: Reachable(d, s) ==> AtMostOnePair(s)) <==> d <= ROTATION_GRACE_S / 2.0
  {
    if d <= ROTATION_GRACE_S / 2.0 {
      forall s | Reachable(d, s) ensures AtMostOnePair(s) {
        OnePairPerToken(d, s);
      }
    } else {
      TwoPairsWhenSlow(d);
    }
  }
}
