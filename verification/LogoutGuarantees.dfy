/** When a session is over for good, in any reachable state, and so what a logout with any of its tokens ends. */
module LogoutGuarantees {
  import opened Base
  import opened Revocation
  import opened Rotation
  import opened RotationGuarantees
  import Runs

  function Newest(s: State): Token
    requires |s.held| > 0
  {
    s.held[|s.held| - 1]
  }

  predicate FlyingOn(s: State, id: nat, j: Jti) {
    id in s.calls && s.calls[id].token.jti == j && InFlight(s.calls[id])
  }

  ghost predicate Flying(s: State, j: Jti) {
    exists id :: FlyingOn(s, id, j)
  }

  /** Past its own expiry, or denied until then. */
  predicate Dead(s: State, t: Token) {
    Expired(t, s.now) || (t.jti in s.redis.revoked && s.redis.revoked[t.jti] >= t.exp as real)
  }

  /** The newest token is dead, nobody is exchanging it and no pair is on record for it. */
  ghost predicate Sealed(s: State, held: seq<Token>) {
    && s.held == held && |held| > 0 && DistinctIds(s)
    && Newest(s).jti !in s.redis.rotated && Dead(s, Newest(s)) && !Flying(s, Newest(s).jti)
  }

  // ----- a dead newest token that nobody is exchanging stays the last

  lemma NewestUnrecorded(d: real, s: State)
    requires Inv(d, s) && !Flying(s, Newest(s).jti)
    ensures Newest(s).jti !in s.redis.rotated
  {
    var n := Newest(s);
    if n.jti in s.redis.rotated {
      assert RecordOf(d, s, n.jti);
      var w := s.winner[n.jti];
      assert !FlyingOn(s, w, n.jti);
      AnsweredIsALink(d, s, w);
    }
  }

  /** What is on record for any other token is already held. */
  lemma RecordedIsHeld(d: real, s: State, token: Token)
    requires Inv(d, s) && token in s.held && token.jti in s.redis.rotated && token.jti != Newest(s).jti
    ensures s.redis.rotated[token.jti].pair.refresh in s.held
  {
    var i :| 0 <= i < |s.held| && s.held[i] == token;
    assert Link(s, i);
  }

  lemma SameToken(s: State, t: Token, u: Token)
    requires DistinctIds(s) && t in s.held && u in s.held && t.jti == u.jti
    ensures t == u
  {}

  /** A step of one call that hands out nothing new, records nothing for the newest token and leaves it dead. */
  lemma SealKept(s: State, t: State, held: seq<Token>, id: nat)
    requires Sealed(s, held) && t.held == s.held
    requires Newest(s).jti !in t.redis.rotated && Dead(t, Newest(s))
    requires forall x :: x in t.calls && x != id ==> x in s.calls && t.calls[x] == s.calls[x]
    requires id in t.calls ==> t.calls[id].token.jti != Newest(s).jti || !InFlight(t.calls[id])
    ensures Sealed(t, held)
  {
    forall x ensures !FlyingOn(t, x, Newest(t).jti) {
      assert !FlyingOn(s, x, Newest(s).jti);
    }
  }

  lemma SealedCheck(d: real, s: State, held: seq<Token>, id: nat, token: Token)
    requires Sealed(s, held) && Enabled(d, s, Check(id, token))
    ensures Sealed(Next(s, Check(id, token)), held)
  {
    if token.jti == Newest(s).jti {
      SameToken(s, token, Newest(s));
    }
    SealKept(s, Next(s, Check(id, token)), held, id);
  }

  lemma SealedRecall(d: real, s: State, held: seq<Token>, id: nat)
    requires Sealed(s, held) && Enabled(d, s, RecallPair(id))
    requires var j := s.calls[id].token.jti; j in s.redis.rotated ==> s.redis.rotated[j].pair.refresh in s.held
    ensures Sealed(Next(s, RecallPair(id)), held)
  {
    SealKept(s, Next(s, RecallPair(id)), held, id);
  }

  lemma SealedRead(d: real, s: State, held: seq<Token>, id: nat)
    requires Sealed(s, held) && Enabled(d, s, ReadWinner(id)) && s.calls[id].token.jti != Newest(s).jti
    requires var j := s.calls[id].token.jti; j in s.redis.rotated ==> s.redis.rotated[j].pair.refresh in s.held
    ensures Sealed(Next(s, ReadWinner(id)), held)
  {
    SealKept(s, Next(s, ReadWinner(id)), held, id);
  }

  lemma SealedRevoke(d: real, s: State, held: seq<Token>, id: nat)
    requires Sealed(s, held) && Enabled(d, s, RevokeOld(id)) && s.calls[id].token.jti != Newest(s).jti
    requires s.calls[id].phase.own.refresh in s.held
    ensures Sealed(Next(s, RevokeOld(id)), held)
  {
    SealKept(s, Next(s, RevokeOld(id)), held, id);
  }

  /** The calls that answer work on older tokens, whose pairs are held. */
  lemma SealedAnswer(d: real, s: State, held: seq<Token>, a: Action)
    requires Inv(d, s) && Sealed(s, held) && Enabled(d, s, a) && (a.RecallPair? || a.ReadWinner? || a.RevokeOld?)
    ensures Sealed(Next(s, a), held)
  {
    var token := s.calls[a.id].token;
    assert CallAgrees(d, s, a.id);
    assert !FlyingOn(s, a.id, Newest(s).jti);
    if token.jti in s.redis.rotated {
      assert RecordOf(d, s, token.jti);
      RecordedIsHeld(d, s, token);
    }
    match a
    case RecallPair(id) => SealedRecall(d, s, held, id);
    case ReadWinner(id) => SealedRead(d, s, held, id);
    case RevokeOld(id) => SealedRevoke(d, s, held, id);
  }

  lemma SealedClaim(d: real, s: State, held: seq<Token>, id: nat)
    requires Sealed(s, held) && Enabled(d, s, Claim(id))
    ensures Sealed(Next(s, Claim(id)), held)
  {
    assert !FlyingOn(s, id, Newest(s).jti);
    SealKept(s, Next(s, Claim(id)), held, id);
  }

  lemma SealedLogout(d: real, s: State, held: seq<Token>, token: Token)
    requires Sealed(s, held) && Enabled(d, s, Logout(token))
    ensures Sealed(Next(s, Logout(token)), held)
  {
    if token.jti == Newest(s).jti {
      SameToken(s, token, Newest(s));
    }
    forall x ensures !FlyingOn(Next(s, Logout(token)), x, Newest(s).jti) {
      assert !FlyingOn(s, x, Newest(s).jti);
    }
  }

  lemma SealedOther(d: real, s: State, held: seq<Token>, a: Action)
    requires Sealed(s, held) && Enabled(d, s, a) && (a.Tick? || a.UserInactive? || a.Mint?)
    ensures Sealed(Next(s, a), held)
  {
    var t := Next(s, a);
    forall x ensures !FlyingOn(t, x, Newest(t).jti) {
      assert !FlyingOn(s, x, Newest(s).jti);
    }
  }

  lemma SealedStep(d: real, s: State, held: seq<Token>, a: Action)
    requires Inv(d, s) && Sealed(s, held) && Enabled(d, s, a)
    ensures Sealed(Next(s, a), held)
  {
    match a
    case Check(id, token) => SealedCheck(d, s, held, id, token);
    case Claim(id) => SealedClaim(d, s, held, id);
    case Logout(token) => SealedLogout(d, s, held, token);
    case RecallPair(_) => SealedAnswer(d, s, held, a);
    case ReadWinner(_) => SealedAnswer(d, s, held, a);
    case RevokeOld(_) => SealedAnswer(d, s, held, a);
    case _ => SealedOther(d, s, held, a);
  }

  ghost predicate AllDead(s: State) {
    forall t :: t in s.held ==> Dead(s, t)
  }

  /** Revoking a held token kills it and leaves every other one dead. */
  lemma DeathsKept(s: State, t: State, token: Token)
    requires AllDead(s) && DistinctIds(s) && token in s.held && t.held == s.held && t.now == s.now
    requires t.redis.revoked == Revoke(s.redis, token, s.now).revoked
    ensures AllDead(t)
  {
    forall u | u in t.held ensures Dead(t, u) {
      assert Dead(s, u);
      if u.jti == token.jti {
        SameToken(s, u, token);
      }
    }
  }

  lemma DeadStaysDead(d: real, s: State, a: Action)
    requires DistinctIds(s) && AllDead(s) && Enabled(d, s, a) && Next(s, a).held == s.held
    requires a.RevokeOld? ==> s.calls[a.id].token in s.held
    ensures AllDead(Next(s, a))
  {
    var t := Next(s, a);
    if a.RevokeOld? {
      DeathsKept(s, t, s.calls[a.id].token);
    } else if a.Logout? {
      DeathsKept(s, t, a.token);
    } else {
      assert t.redis.revoked == s.redis.revoked && t.now >= s.now;
    }
  }

  /** Of a held token, dead is the same as not usable. */
  lemma DeadIffUnusable(d: real, s: State, t: Token)
    requires Inv(d, s) && t in s.held
    ensures Dead(s, t) <==> !Usable(s, t)
  {
    assert t.jti in s.redis.revoked ==> Denied(s, t);
  }

  lemma Seals(d: real, s: State)
    requires Inv(d, s) && !Flying(s, Newest(s).jti) && !Usable(s, Newest(s))
    ensures Sealed(s, s.held)
  {
    NewestUnrecorded(d, s);
    DeadIffUnusable(d, s, Newest(s));
  }

  lemma SealedForGood(d: real, s: State, run: seq<Action>)
    requires 0.0 < d <= ROTATION_GRACE_S / 2.0 && Inv(d, s) && Sealed(s, s.held)
    requires Runs.Legal(Enabling(d), Next, s, run)
    ensures Runs.After(Next, s, run).held == s.held
  {
    var inv := (u: State) => Inv(d, u) && Sealed(u, s.held);
    forall u, a | inv(u) && Enabling(d)(u, a) ensures inv(Next(u, a)) {
      NextInv(d, u, a);
      SealedStep(d, u, s.held, a);
    }
    Runs.InvariantOverRuns(inv, Enabling(d), Next, s, run);
  }

  lemma DeadForGood(d: real, s: State, run: seq<Action>)
    requires 0.0 < d <= ROTATION_GRACE_S / 2.0 && Inv(d, s) && Sealed(s, s.held) && AllDead(s)
    requires Runs.Legal(Enabling(d), Next, s, run)
    ensures var t := Runs.After(Next, s, run); Inv(d, t) && AllDead(t)
  {
    var inv := (u: State) => Inv(d, u) && Sealed(u, s.held) && AllDead(u);
    forall u, a | inv(u) && Enabling(d)(u, a) ensures inv(Next(u, a)) {
      NextInv(d, u, a);
      SealedStep(d, u, s.held, a);
      assert a.RevokeOld? ==> CallAgrees(d, u, a.id);
      DeadStaysDead(d, u, a);
    }
    Runs.InvariantOverRuns(inv, Enabling(d), Next, s, run);
  }

  // ----- an exchange of the newest token can always be finished

  lemma StepReaches(d: real, s: State, a: Action)
    requires Reachable(d, s) && Enabled(d, s, a)
    ensures Reachable(d, Next(s, a))
  {
    var s0, actions :| Init(s0) && Runs.Legal(Enabling(d), Next, s0, actions) && s == Runs.After(Next, s0, actions);
    Runs.Extend(Enabling(d), Next, s0, actions, a);
  }

  lemma InitReaches(d: real, s: State)
    requires Init(s)
    ensures Reachable(d, s)
  {
    assert Runs.Legal(Enabling(d), Next, s, []) && Runs.After(Next, s, []) == s;
  }

  /** A pair still to be handed out is as young as the call that minted it. */
  ghost predicate Young(s: State) {
    forall id :: id in s.calls && (s.calls[id].phase.Minted? || s.calls[id].phase.Lost? || s.calls[id].phase.Won?) ==>
      s.calls[id].phase.own.refresh.exp >= s.calls[id].since.Floor + REFRESH_TTL_S
  }

  lemma YoungStep(d: real, s: State, a: Action)
    requires CallsInTime(d, s) && Young(s) && Enabled(d, s, a)
    ensures Young(Next(s, a))
  {}

  lemma ReachableYoung(d: real, s: State)
    requires 0.0 < d <= ROTATION_GRACE_S / 2.0 && Reachable(d, s)
    ensures Inv(d, s) && Young(s)
  {
    var s0, actions :| Init(s0) && Runs.Legal(Enabling(d), Next, s0, actions) && s == Runs.After(Next, s0, actions);
    InitInv(d, s0);
    var inv := (u: State) => Inv(d, u) && Young(u);
    forall u, a | inv(u) && Enabling(d)(u, a) ensures inv(Next(u, a)) {
      NextInv(d, u, a);
      YoungStep(d, u, a);
    }
    Runs.InvariantOverRuns(inv, Enabling(d), Next, s0, actions);
  }

  lemma WinnerStillFlies(d: real, s: State)
    requires Inv(d, s) && Newest(s).jti in s.redis.rotated
    ensures RecordOf(d, s, Newest(s).jti) && s.calls[s.winner[Newest(s).jti]].phase.Won?
  {
    assert RecordOf(d, s, Newest(s).jti);
    var w := s.winner[Newest(s).jti];
    if s.calls[w].phase.Returned? {
      AnsweredIsALink(d, s, w);
      assert false;
    }
  }

  /** The pair on record for the newest token is one nobody holds, and still good. */
  lemma RecordedIsFresh(d: real, s: State)
    requires 0.0 < d <= ROTATION_GRACE_S / 2.0 && Inv(d, s) && Young(s) && Newest(s).jti in s.redis.rotated
    ensures var next := s.redis.rotated[Newest(s).jti].pair.refresh;
      next !in s.held && !HeldId(s, next.jti) && Usable(s, next)
  {
    var n := Newest(s);
    var next := s.redis.rotated[n.jti].pair.refresh;
    WinnerStillFlies(d, s);
    forall m | 0 < m < |s.held| ensures s.held[m] != next {
      assert Link(s, m - 1);
      assert RecordOf(d, s, s.held[m - 1].jti);
    }
    assert s.held[0] != next;
    NextTokenIsNew(d, s, n.jti);
  }

  /** `run` hands out one token more, and that token can be exchanged. */
  ghost predicate HandsOut(d: real, s: State, run: seq<Action>) {
    var t := Runs.After(Next, s, run);
    Runs.Legal(Enabling(d), Next, s, run) && |t.held| == |s.held| + 1 && Usable(t, Newest(t))
  }

  lemma HandsOutLater(d: real, s: State, a: Action, t: State, rest: seq<Action>) returns (run: seq<Action>)
    requires Enabled(d, s, a) && t == Next(s, a) && t.held == s.held && HandsOut(d, t, rest)
    ensures HandsOut(d, s, run)
  {
    run := [a] + rest;
    Runs.Prepend(Enabling(d), Next, s, a, rest);
  }

  lemma HandsOutNow(d: real, s: State, a: Action, next: Token)
    requires Enabled(d, s, a) && Next(s, a).held == s.held + [next] && Usable(Next(s, a), next)
    ensures HandsOut(d, s, [a])
  {
    Runs.Prepend(Enabling(d), Next, s, a, []);
    assert [a] + [] == [a];
  }

  lemma WinnerHandsOut(d: real, s: State, id: nat, next: Token)
    requires Enabled(d, s, RevokeOld(id)) && s.calls[id].phase.own.refresh == next && next !in s.held
    requires Usable(s, next) && s.calls[id].token.jti != next.jti
    ensures HandsOut(d, s, [RevokeOld(id)])
  {
    HandsOutNow(d, s, RevokeOld(id), next);
  }

  lemma LoserHandsOut(d: real, s: State, id: nat, pair: Pair)
    requires Enabled(d, s, ReadWinner(id)) && Recall(s.redis, s.calls[id].token.jti, s.now) == Some(pair)
    requires Usable(s, pair.refresh) && pair.refresh !in s.held
    ensures HandsOut(d, s, [ReadWinner(id)])
  {
    HandsOutNow(d, s, ReadWinner(id), pair.refresh);
  }

  /** The last step of an exchange of the newest token. */
  lemma LastStepHandsOut(d: real, s: State, id: nat) returns (run: seq<Action>)
    requires 0.0 < d <= ROTATION_GRACE_S / 2.0 && Reachable(d, s) && |s.held| > 0
    requires FlyingOn(s, id, Newest(s).jti) && (s.calls[id].phase.Won? || s.calls[id].phase.Lost?)
    ensures HandsOut(d, s, run)
  {
    var n := Newest(s);
    ReachableYoung(d, s);
    FactsOf(d, s, id);
    var pair := s.redis.rotated[n.jti].pair;
    RecordedIsFresh(d, s);
    WinnerStillFlies(d, s);
    assert n in s.held && HeldId(s, n.jti);
    if s.calls[id].phase.Won? {
      run := [RevokeOld(id)];
      assert s.winner[n.jti] == id && s.calls[id].phase == Won(pair);
      WinnerHandsOut(d, s, id, pair.refresh);
    } else {
      run := [ReadWinner(id)];
      RecordStillLive(d, s, id);
      LoserHandsOut(d, s, id, pair);
    }
  }

  lemma {:induction false} AboveAll(ids: set<nat>) returns (k: nat)
    ensures forall j :: j in ids ==> j < k
  {
    if ids == {} {
      k := 0;
    } else {
      var j :| j in ids;
      var m := AboveAll(ids - {j});
      k := if m <= j then j + 1 else m;
      forall i | i in ids ensures i < k {
        assert i == j || i in ids - {j};
      }
    }
  }

  /** An exchange of the newest token, before its last step, takes the next one. */
  lemma ClaimStep(d: real, s: State, id: nat) returns (a: Action, t: State)
    requires Reachable(d, s) && |s.held| > 0 && FlyingOn(s, id, Newest(s).jti) && s.calls[id].phase.Minted?
    ensures Enabled(d, s, a) && t == Next(s, a) && t.held == s.held && Reachable(d, t)
    ensures FlyingOn(t, id, Newest(t).jti) && (t.calls[id].phase.Won? || t.calls[id].phase.Lost?)
  {
    a := Claim(id);
    t := Next(s, a);
    StepReaches(d, s, a);
  }

  lemma MintStep(d: real, s: State, id: nat) returns (a: Action, t: State)
    requires Reachable(d, s) && |s.held| > 0 && FlyingOn(s, id, Newest(s).jti) && s.calls[id].phase.Admitted?
    ensures Enabled(d, s, a) && t == Next(s, a) && t.held == s.held && Reachable(d, t)
    ensures FlyingOn(t, id, Newest(t).jti) && t.calls[id].phase.Minted?
  {
    var k := AboveAll(s.minted.Keys);
    a := Mint(id, k, k + 1);
    t := Next(s, a);
    StepReaches(d, s, a);
  }

  lemma CheckStep(d: real, s: State) returns (a: Action, t: State, id: nat)
    requires Reachable(d, s) && |s.held| > 0 && Usable(s, Newest(s))
    ensures Enabled(d, s, a) && t == Next(s, a) && t.held == s.held && Reachable(d, t)
    ensures FlyingOn(t, id, Newest(t).jti)
  {
    id := AboveAll(s.calls.Keys);
    a := Check(id, Newest(s));
    t := Next(s, a);
    StepReaches(d, s, a);
  }

  lemma FinishMinted(d: real, s: State, id: nat) returns (run: seq<Action>)
    requires 0.0 < d <= ROTATION_GRACE_S / 2.0 && Reachable(d, s) && |s.held| > 0
    requires FlyingOn(s, id, Newest(s).jti) && s.calls[id].phase.Minted?
    ensures HandsOut(d, s, run)
  {
    var a, t := ClaimStep(d, s, id);
    var rest := LastStepHandsOut(d, t, id);
    run := HandsOutLater(d, s, a, t, rest);
  }

  lemma FinishAdmitted(d: real, s: State, id: nat) returns (run: seq<Action>)
    requires 0.0 < d <= ROTATION_GRACE_S / 2.0 && Reachable(d, s) && |s.held| > 0
    requires FlyingOn(s, id, Newest(s).jti) && s.calls[id].phase.Admitted?
    ensures HandsOut(d, s, run)
  {
    var a, t := MintStep(d, s, id);
    var rest := FinishMinted(d, t, id);
    run := HandsOutLater(d, s, a, t, rest);
  }

  /** However far an exchange of the newest token has got, it can be finished, and what it hands out is good. */
  lemma ExchangeCanFinish(d: real, s: State, id: nat) returns (run: seq<Action>)
    requires 0.0 < d <= ROTATION_GRACE_S / 2.0 && Reachable(d, s) && |s.held| > 0
    requires FlyingOn(s, id, Newest(s).jti)
    ensures HandsOut(d, s, run)
  {
    if s.calls[id].phase.Admitted? {
      run := FinishAdmitted(d, s, id);
    } else if s.calls[id].phase.Minted? {
      run := FinishMinted(d, s, id);
    } else {
      run := LastStepHandsOut(d, s, id);
    }
  }

  /** A newest token that can be exchanged can be exchanged from scratch. */
  lemma ExchangeCanStart(d: real, s: State) returns (run: seq<Action>)
    requires 0.0 < d <= ROTATION_GRACE_S / 2.0 && Reachable(d, s) && |s.held| > 0 && Usable(s, Newest(s))
    ensures HandsOut(d, s, run)
  {
    var a, t, id := CheckStep(d, s);
    var rest := ExchangeCanFinish(d, t, id);
    run := HandsOutLater(d, s, a, t, rest);
  }

  // ----- when a session is over

  /** No continuation hands out another token. */
  ghost predicate EndOfTheLine(d: real, s: State) {
    forall run :: Runs.Legal(Enabling(d), Next, s, run) ==> Runs.After(Next, s, run).held == s.held
  }

  /** In no continuation can any token ever handed out be exchanged. */
  ghost predicate Over(d: real, s: State) {
    forall run, t :: Runs.Legal(Enabling(d), Next, s, run) && t in Runs.After(Next, s, run).held ==>
      !Usable(Runs.After(Next, s, run), t)
  }

  /** As long as the newest token can be exchanged, or its exchange is under way, another can be handed out. */
  lemma AnotherCanBeHandedOut(d: real, s: State) returns (run: seq<Action>)
    requires 0.0 < d <= ROTATION_GRACE_S / 2.0 && Reachable(d, s) && |s.held| > 0
    requires Flying(s, Newest(s).jti) || Usable(s, Newest(s))
    ensures HandsOut(d, s, run)
  {
    if id :| FlyingOn(s, id, Newest(s).jti) {
      run := ExchangeCanFinish(d, s, id);
    } else {
      run := ExchangeCanStart(d, s);
    }
  }

  /** In every reachable state: nothing more will ever be handed out if and only if the newest token is dead and
      nobody is exchanging it. */
  lemma EndOfTheLineIff(d: real, s: State)
    requires 0.0 < d <= ROTATION_GRACE_S / 2.0 && Reachable(d, s) && |s.held| > 0
    ensures EndOfTheLine(d, s) <==> !Flying(s, Newest(s).jti) && !Usable(s, Newest(s))
  {
    if Flying(s, Newest(s).jti) || Usable(s, Newest(s)) {
      var run := AnotherCanBeHandedOut(d, s);
      assert Runs.Legal(Enabling(d), Next, s, run) && Runs.After(Next, s, run).held != s.held;
      assert !EndOfTheLine(d, s);
    } else {
      ReachableInv(d, s);
      Seals(d, s);
      forall run | Runs.Legal(Enabling(d), Next, s, run) ensures Runs.After(Next, s, run).held == s.held {
        SealedForGood(d, s, run);
      }
      assert EndOfTheLine(d, s);
    }
  }

  /** In every reachable state: the session is over for good if and only if no token of it can be exchanged now and
      nobody is exchanging the newest. */
  lemma OverIff(d: real, s: State)
    requires 0.0 < d <= ROTATION_GRACE_S / 2.0 && Reachable(d, s) && |s.held| > 0
    ensures Over(d, s) <==> !Flying(s, Newest(s).jti) && forall t :: t in s.held ==> !Usable(s, t)
  {
    ReachableInv(d, s);
    if t :| t in s.held && Usable(s, t) {
      assert Runs.Legal(Enabling(d), Next, s, []) && Runs.After(Next, s, []) == s;
      assert !Over(d, s);
    } else if Flying(s, Newest(s).jti) {
      var run := AnotherCanBeHandedOut(d, s);
      assert Newest(Runs.After(Next, s, run)) in Runs.After(Next, s, run).held;
      assert !Over(d, s);
    } else {
      NobodyUsableIsOver(d, s);
    }
  }

  lemma NobodyUsableIsOver(d: real, s: State)
    requires 0.0 < d <= ROTATION_GRACE_S / 2.0 && Inv(d, s)
    requires !Flying(s, Newest(s).jti) && forall t :: t in s.held ==> !Usable(s, t)
    ensures Over(d, s)
  {
    Seals(d, s);
    forall t | t in s.held ensures Dead(s, t) {
      DeadIffUnusable(d, s, t);
    }
    forall run, t | Runs.Legal(Enabling(d), Next, s, run) && t in Runs.After(Next, s, run).held
      ensures !Usable(Runs.After(Next, s, run), t)
    {
      DeadForGood(d, s, run);
      DeadIffUnusable(d, Runs.After(Next, s, run), t);
    }
  }

  // ----- what a logout ends

  /** A logout kills the token it is given and no other, and stops no exchange under way. */
  lemma LogoutKillsOne(d: real, s: State, token: Token)
    requires Inv(d, s) && token in s.held
    ensures var t := Next(s, Logout(token));
      && t.held == s.held && (Flying(t, Newest(t).jti) <==> Flying(s, Newest(s).jti))
      && forall u :: u in s.held ==> (Usable(t, u) <==> Usable(s, u) && u != token)
  {
    var t := Next(s, Logout(token));
    RevocationIsFinal(s.redis, token, s.now, s.now);
    forall u | u in s.held && u.jti == token.jti ensures u == token {
      SameToken(s, u, token);
    }
    forall id ensures FlyingOn(t, id, Newest(t).jti) <==> FlyingOn(s, id, Newest(s).jti) {}
  }

  /** Logging out with any held token is the end of handing out tokens, whatever happens next, if and only if nobody is
      exchanging the newest and the token given is the newest, or the newest is dead anyway. */
  lemma LogoutIsFinalIff(d: real, s: State, token: Token)
    requires 0.0 < d <= ROTATION_GRACE_S / 2.0 && Reachable(d, s) && token in s.held
    ensures |s.held| > 0
    ensures EndOfTheLine(d, Next(s, Logout(token)))
      <==> !Flying(s, Newest(s).jti) && (token == Newest(s) || !Usable(s, Newest(s)))
  {
    ReachableInv(d, s);
    StepReaches(d, s, Logout(token));
    LogoutKillsOne(d, s, token);
    EndOfTheLineIff(d, Next(s, Logout(token)));
  }

  /** Logging out with any held token ends the session for good, whatever happens next, if and only if no other token
      of it can be exchanged and nobody is exchanging the newest. */
  lemma LogoutEndsSessionIff(d: real, s: State, token: Token)
    requires 0.0 < d <= ROTATION_GRACE_S / 2.0 && Reachable(d, s) && token in s.held
    ensures |s.held| > 0
    ensures Over(d, Next(s, Logout(token)))
      <==> !Flying(s, Newest(s).jti) && forall u :: u in s.held && u != token ==> !Usable(s, u)
  {
    ReachableInv(d, s);
    StepReaches(d, s, Logout(token));
    LogoutKillsOne(d, s, token);
    OverIff(d, Next(s, Logout(token)));
  }

  /** With nothing in flight, logging out with the newest token always does. */
  lemma LogoutEndsSession(d: real, s: State)
    requires 0.0 < d <= ROTATION_GRACE_S / 2.0 && Reachable(d, s) && Quiet(s)
    ensures |s.held| > 0 && Over(d, Next(s, Logout(Newest(s))))
  {
    QuietLeavesOneUsable(d, s);
    assert !Flying(s, Newest(s).jti);
    LogoutEndsSessionIff(d, s, Newest(s));
  }

  /** A logout does not stop an exchange of the newest token that has passed its revocation check: some continuation
      hands out one more token, and that token can be exchanged. */
  lemma LogoutCanBeOutrun(d: real, s: State, token: Token) returns (run: seq<Action>)
    requires 0.0 < d <= ROTATION_GRACE_S / 2.0 && Reachable(d, s) && token in s.held && Flying(s, Newest(s).jti)
    ensures HandsOut(d, Next(s, Logout(token)), run)
  {
    ReachableInv(d, s);
    StepReaches(d, s, Logout(token));
    LogoutKillsOne(d, s, token);
    run := AnotherCanBeHandedOut(d, Next(s, Logout(token)));
  }

  /** Nor does a logout with an older token end anything while the newest can be exchanged. */
  lemma OlderLogoutEndsNothing(d: real, s: State, token: Token) returns (run: seq<Action>)
    requires 0.0 < d <= ROTATION_GRACE_S / 2.0 && Reachable(d, s) && token in s.held
    requires token != Newest(s) && Usable(s, Newest(s))
    ensures HandsOut(d, Next(s, Logout(token)), run)
  {
    ReachableInv(d, s);
    StepReaches(d, s, Logout(token));
    LogoutKillsOne(d, s, token);
    run := AnotherCanBeHandedOut(d, Next(s, Logout(token)));
  }

  // ----- the input: two holders, one refresh

  /** After one refresh at instant 0: the old token revoked, the new one handed out. */
  const REFRESHED := State(
    0.0, Redis(map[0 := REFRESH_TTL_S as real], map[0 := Record(EARLY, 60.0)]),
    map[0 := Call(ROOT, 0.0, Returned(EARLY))], map[0 := None, 1 := Some(0), 2 := Some(0)], map[0 := 0], {},
    [ROOT, EARLY.refresh])

  lemma RefreshEnds(d: real)
    ensures Enabled(d, Trace(3), RevokeOld(0)) && Next(Trace(3), RevokeOld(0)) == REFRESHED
  {}

  lemma OneRefresh(d: real)
    requires 0.0 < d
    ensures Reachable(d, REFRESHED)
  {
    InitReaches(d, Trace(0));
    FirstRefreshSteps(d);
    RefreshEnds(d);
    StepReaches(d, Trace(0), SlowRun()[0]);
    StepReaches(d, Trace(1), SlowRun()[1]);
    StepReaches(d, Trace(2), SlowRun()[2]);
    StepReaches(d, Trace(3), RevokeOld(0));
  }

  /** With nothing in flight, one holder has refreshed and the other, still with the old token, logs out: the session
      goes on. */
  lemma LogoutCanEndNothing(d: real) returns (run: seq<Action>)
    requires 0.0 < d <= ROTATION_GRACE_S / 2.0
    ensures Reachable(d, REFRESHED) && Quiet(REFRESHED) && ROOT in REFRESHED.held
    ensures HandsOut(d, Next(REFRESHED, Logout(ROOT)), run)
  {
    OneRefresh(d);
    run := OlderLogoutEndsNothing(d, REFRESHED, ROOT);
  }
}
