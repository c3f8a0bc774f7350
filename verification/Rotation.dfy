/** Refresh-token rotation as a concurrent, timed protocol (app/api/routes/auth.py, `refresh`).

    Any number of calls, each a small program, are interleaved over one store and one clock.
    The state keeps a little history: which call's pair was recorded for a token, which tokens
    were logged out, and the refresh tokens handed to the client in order. */
module Rotation {
  import opened Base
  import opened Revocation
  import Runs

  /** Where one call of `refresh` stands. */
  datatype Phase =
    | Recalling                 // found the token revoked; about to read the rotation record
    | Admitted                  // token live; about to look up the user and mint
    | Minted(own: Pair)         // about to claim
    | Lost(own: Pair)           // SET NX refused; about to read the winner
    | Won(own: Pair)            // about to revoke the presented token
    | Returned(pair: Pair)
    | Refused

  datatype Call = Call(token: Token, since: real, phase: Phase)

  datatype State = State(
    now: real,
    redis: Redis,
    calls: map<nat, Call>,
    minted: map<Jti, Option<nat>>,  // every id in use, with the call that minted it
    winner: map<Jti, nat>,          // the call whose pair was recorded last for a token
    loggedOut: set<Jti>,
    held: seq<Token>                // refresh tokens handed out, in order of first hand-out
  )

  datatype Action =
    | Tick(dt: real)
    | Check(id: nat, token: Token)
    | RecallPair(id: nat)
    | UserInactive(id: nat)
    | Mint(id: nat, access: Jti, refresh: Jti)
    | Claim(id: nat)
    | ReadWinner(id: nat)
    | RevokeOld(id: nat)
    | Logout(token: Token)

  /** The state right after one login at instant `now`. */
  ghost predicate Init(s: State) {
    && |s.held| == 1
    && s.redis == Redis(map[], map[])
    && s.calls == map[]
    && s.minted == map[s.held[0].jti := None]
    && s.winner == map[]
    && s.loggedOut == {}
  }

  /** The call has passed its revocation check and has not finished. */
  predicate InFlight(c: Call) {
    c.phase.Admitted? || c.phase.Minted? || c.phase.Lost? || c.phase.Won?
  }

  /** `d` bounds how long a call may take from its revocation check to its last store access. */
  ghost predicate Enabled(d: real, s: State, a: Action) {
    match a
    case Tick(dt) =>
      && 0.0 < dt
      && forall id :: id in s.calls && InFlight(s.calls[id]) ==> s.now + dt < s.calls[id].since + d
    case Check(id, token) => id !in s.calls && token in s.held
    case RecallPair(id) => id in s.calls && s.calls[id].phase.Recalling?
    case UserInactive(id) => id in s.calls && s.calls[id].phase.Admitted?
    case Mint(id, access, refresh) =>
      && id in s.calls && s.calls[id].phase.Admitted?
      && access !in s.minted && refresh !in s.minted && access != refresh
    case Claim(id) => id in s.calls && s.calls[id].phase.Minted?
    case ReadWinner(id) => id in s.calls && s.calls[id].phase.Lost?
    case RevokeOld(id) => id in s.calls && s.calls[id].phase.Won?
    case Logout(token) => token in s.held
  }

  function Goto(s: State, id: nat, phase: Phase): State
    requires id in s.calls
  {
    s.(calls := s.calls[id := s.calls[id].(phase := phase)])
  }

  /** Answer the caller with `pair`. */
  function Answer(s: State, id: nat, pair: Pair): State
    requires id in s.calls
  {
    Goto(s, id, Returned(pair)).(held := if pair.refresh in s.held then s.held else s.held + [pair.refresh])
  }

  function Next(s: State, a: Action): State {
    match a
    case Tick(dt) => s.(now := s.now + dt)
    case Check(id, token) =>
      var phase :=
        if Expired(token, s.now) then Refused
        else if IsRevoked(s.redis, token.jti, s.now) then Recalling
        else Admitted;
      s.(calls := s.calls[id := Call(token, s.now, phase)])
    case RecallPair(id) =>
      if id !in s.calls then s else
      (match Recall(s.redis, s.calls[id].token.jti, s.now)
       case Some(pair) => Answer(s, id, pair)
       case None => Goto(s, id, Refused))
    case UserInactive(id) => if id !in s.calls then s else Goto(s, id, Refused)
    case Mint(id, access, refresh) =>
      if id !in s.calls then s else
      Goto(s, id, Minted(IssuePair(s.now, access, refresh)))
        .(minted := s.minted[access := Some(id)][refresh := Some(id)])
    case Claim(id) =>
      if id !in s.calls || !s.calls[id].phase.Minted? then s else
      var jti, own := s.calls[id].token.jti, s.calls[id].phase.own;
      if Recall(s.redis, jti, s.now).Some? then Goto(s, id, Lost(own))
      else Goto(s, id, Won(own)).(redis := SetIfAbsent(s.redis, jti, own, s.now), winner := s.winner[jti := id])
    case ReadWinner(id) =>
      if id !in s.calls || !s.calls[id].phase.Lost? then s else
      (match Recall(s.redis, s.calls[id].token.jti, s.now)
       case Some(pair) => Answer(s, id, pair)
       case None => Goto(s, id, Won(s.calls[id].phase.own)))  // nothing to return: rotates anyway
    case RevokeOld(id) =>
      if id !in s.calls || !s.calls[id].phase.Won? then s else
      Answer(s, id, s.calls[id].phase.own).(redis := Revoke(s.redis, s.calls[id].token, s.now))
    case Logout(token) =>
      s.(redis := Revoke(s.redis, token, s.now), loggedOut := s.loggedOut + {token.jti})
  }

  ghost function Enabling(d: real): (State, Action) -> bool {
    (s, a) => Enabled(d, s, a)
  }

  /** Reachable from one login with every call finishing in under `d` seconds. */
  ghost predicate Reachable(d: real, s: State) {
    exists s0, actions ::
      Init(s0) && Runs.Legal(Enabling(d), Next, s0, actions) && s == Runs.After(Next, s0, actions)
  }

  // ----- what the protocol promises

  /** All callers that presented one token and were answered hold the same pair. */
  ghost predicate AtMostOnePair(s: State) {
    forall a, b ::
      && a in s.calls && b in s.calls && s.calls[a].token.jti == s.calls[b].token.jti
      && s.calls[a].phase.Returned? && s.calls[b].phase.Returned?
      ==> s.calls[a].phase.pair == s.calls[b].phase.pair
  }

  /** Call `id` presented `presented` and was answered with a pair whose refresh token is `next`. */
  ghost predicate Answered(s: State, id: nat, presented: Token, next: Token) {
    && id in s.calls && s.calls[id].token == presented
    && s.calls[id].phase.Returned? && s.calls[id].phase.pair.refresh == next
  }

  ghost predicate Rotated(s: State, presented: Token, next: Token) {
    exists id :: Answered(s, id, presented, next)
  }

  ghost predicate DistinctIds(s: State) {
    forall i, j :: 0 <= i < j < |s.held| ==> s.held[i].jti != s.held[j].jti
  }

  /** The tokens handed out form one chain: no repeats, and whoever presented the i-th token and
      was answered got the (i+1)-st. */
  ghost predicate SingleChain(s: State) {
    && DistinctIds(s)
    && (forall id :: id in s.calls && s.calls[id].phase.Returned? ==>
          exists i :: 0 <= i < |s.held| - 1 && Answered(s, id, s.held[i], s.held[i + 1]))
    && (forall i :: 0 <= i < |s.held| - 1 ==> Rotated(s, s.held[i], s.held[i + 1]))
  }

  ghost predicate Usable(s: State, t: Token) {
    !Expired(t, s.now) && !IsRevoked(s.redis, t.jti, s.now)
  }

  ghost predicate Quiet(s: State) {
    forall id :: id in s.calls ==> !InFlight(s.calls[id])
  }

  // ----- the inductive invariant

  ghost predicate CallsInTime(d: real, s: State) {
    forall id :: id in s.calls ==>
      && s.calls[id].since <= s.now
      && (InFlight(s.calls[id]) ==> s.now < s.calls[id].since + d)
  }

  ghost predicate IdsFresh(s: State) {
    forall id :: id in s.calls && (s.calls[id].phase.Minted? || s.calls[id].phase.Lost? || s.calls[id].phase.Won?) ==>
      s.calls[id].phase.own.refresh.jti in s.minted && s.minted[s.calls[id].phase.own.refresh.jti] == Some(id)
  }

  function ClaimedAt(s: State, j: Jti): real
    requires j in s.redis.rotated
  {
    s.redis.rotated[j].until - ROTATION_GRACE_S
  }

  ghost predicate Denied(s: State, t: Token) {
    t.jti in s.redis.revoked && s.redis.revoked[t.jti] >= t.exp as real
  }

  /** A recorded pair was minted by its winner, which is still about to revoke or has done so. */
  ghost predicate RecordOf(d: real, s: State, j: Jti)
    requires j in s.winner && j in s.redis.rotated
  {
    var w, pair := s.winner[j], s.redis.rotated[j].pair;
    && w in s.calls && s.calls[w].token.jti == j
    && s.calls[w].since <= ClaimedAt(s, j) <= s.now
    && pair.refresh.jti in s.minted && s.minted[pair.refresh.jti] == Some(w)
    && (s.calls[w].phase == Won(pair) || (s.calls[w].phase == Returned(pair) && Denied(s, s.calls[w].token)))
  }

  ghost predicate Records(d: real, s: State) {
    && s.winner.Keys == s.redis.rotated.Keys
    && forall j :: j in s.winner ==> RecordOf(d, s, j)
  }

  /** What the recorded pair means for each call on that token. */
  ghost predicate CallAgrees(d: real, s: State, id: nat)
    requires id in s.calls
  {
    var j := s.calls[id].token.jti;
    && s.calls[id].token in s.held
    && (match s.calls[id].phase
        case Admitted => j in s.redis.rotated ==> s.calls[id].since < ClaimedAt(s, j) + d
        case Minted(_) => j in s.redis.rotated ==> s.calls[id].since < ClaimedAt(s, j) + d
        case Lost(_) => j in s.redis.rotated && s.calls[id].since < ClaimedAt(s, j) + d
        case Won(own) => j in s.winner && s.winner[j] == id
        case Returned(pair) => j in s.redis.rotated && s.redis.rotated[j].pair == pair && pair.refresh in s.held
        case _ => true)
  }

  ghost predicate CallsAgree(d: real, s: State) {
    forall id :: id in s.calls ==> CallAgrees(d, s, id)
  }

  ghost predicate Link(s: State, i: int)
    requires 0 <= i < |s.held| - 1
  {
    && s.held[i].jti in s.redis.rotated
    && s.redis.rotated[s.held[i].jti].pair.refresh == s.held[i + 1]
    && Rotated(s, s.held[i], s.held[i + 1])
  }

  ghost predicate ChainFollowsRecords(s: State) {
    && |s.held| > 0
    && s.held[0].jti in s.minted && s.minted[s.held[0].jti] == None
    && DistinctIds(s)
    && (forall i :: 0 <= i < |s.held| - 1 ==> Link(s, i))
  }

  ghost predicate HeldId(s: State, j: Jti) {
    exists t :: t in s.held && t.jti == j
  }

  /** Only tokens the client holds are revoked, and never for less than their lifetime. */
  ghost predicate RevokedStayRevoked(s: State) {
    && (forall j :: j in s.redis.revoked ==> HeldId(s, j) && (j in s.loggedOut || j in s.redis.rotated))
    && (forall t :: t in s.held && t.jti in s.redis.revoked ==> Denied(s, t))
  }

  ghost predicate Core(d: real, s: State) {
    && CallsInTime(d, s)
    && IdsFresh(s)
    && Records(d, s)
    && CallsAgree(d, s)
    && RevokedStayRevoked(s)
  }

  ghost predicate Inv(d: real, s: State) {
    Core(d, s) && ChainFollowsRecords(s)
  }

  lemma InitInv(d: real, s: State)
    requires Init(s)
    ensures Inv(d, s)
  {}

  // ----- one step of call `id`: what it leaves alone, and what it must establish

  /** The clock, the other calls, every record and every minted id are untouched. */
  ghost predicate Frame(s: State, t: State, id: nat) {
    && t.now == s.now && s.held <= t.held && id in t.calls
    && (forall x :: x in t.calls && x != id ==> x in s.calls)
    && (forall x :: x in s.calls && x != id ==> x in t.calls && t.calls[x] == s.calls[x])
    && (forall j :: j in s.redis.rotated ==> j in t.redis.rotated && t.redis.rotated[j] == s.redis.rotated[j])
    && (forall j :: j in s.winner ==> j in t.winner && t.winner[j] == s.winner[j])
    && (forall j :: j in s.minted ==> j in t.minted && t.minted[j] == s.minted[j])
  }

  ghost predicate OwnIdFresh(s: State, id: nat)
    requires id in s.calls
  {
    (s.calls[id].phase.Minted? || s.calls[id].phase.Lost? || s.calls[id].phase.Won?) ==>
      s.calls[id].phase.own.refresh.jti in s.minted && s.minted[s.calls[id].phase.own.refresh.jti] == Some(id)
  }

  ghost predicate InTime(d: real, s: State, id: nat)
    requires id in s.calls
  {
    s.calls[id].since <= s.now && (InFlight(s.calls[id]) ==> s.now < s.calls[id].since + d)
  }

  /** What the invariant says about one call and the record of its token. */
  ghost predicate CallFacts(d: real, s: State, id: nat)
    requires id in s.calls
  {
    var j := s.calls[id].token.jti;
    && InTime(d, s, id) && OwnIdFresh(s, id) && CallAgrees(d, s, id)
    && (j in s.winner <==> j in s.redis.rotated)
    && (j in s.winner ==> RecordOf(d, s, j))
  }

  /** What the step must establish about call `id` and the records it adds or completes. */
  ghost predicate Local(d: real, s: State, t: State, id: nat)
    requires id in t.calls
  {
    && InTime(d, t, id) && OwnIdFresh(t, id) && CallAgrees(d, t, id)
    && t.winner.Keys == t.redis.rotated.Keys
    && (forall j :: j in t.redis.rotated && j !in s.redis.rotated ==> ClaimedAt(t, j) == s.now)
    && (forall j :: j in t.winner && (j !in s.winner || s.winner[j] == id) ==> RecordOf(d, t, j))
  }

  /** The denylist grows by at most the (held, rotated) token of call `id`, for long enough. */
  ghost predicate DenialsGrow(s: State, t: State, token: Token) {
    && s.loggedOut <= t.loggedOut
    && (t.redis.revoked == s.redis.revoked
        || (&& token in s.held && token.jti in t.redis.rotated && Denied(t, token)
            && (forall j :: j in t.redis.revoked ==> j in s.redis.revoked || j == token.jti)
            && (forall j :: j in s.redis.revoked && j != token.jti ==>
                  j in t.redis.revoked && t.redis.revoked[j] == s.redis.revoked[j])))
  }

  lemma FactsOf(d: real, s: State, id: nat)
    requires Core(d, s) && id in s.calls
    ensures CallFacts(d, s, id)
  {}

  lemma CallsAgreeFrame(d: real, s: State, t: State, id: nat)
    requires 0.0 < d && CallsInTime(d, s) && CallsAgree(d, s) && Frame(s, t, id) && Local(d, s, t, id)
    ensures CallsAgree(d, t)
  {
    forall x | x in t.calls ensures CallAgrees(d, t, x) {
      assert x != id ==> CallAgrees(d, s, x);
    }
  }

  lemma RecordsFrame(d: real, s: State, t: State, id: nat)
    requires Records(d, s) && CallsAgree(d, s) && Frame(s, t, id) && Local(d, s, t, id)
    requires forall u :: u in s.held && Denied(s, u) ==> Denied(t, u)
    ensures Records(d, t)
  {
    forall j | j in t.winner ensures RecordOf(d, t, j) {
      assert j in s.winner ==> RecordOf(d, s, j) && CallAgrees(d, s, s.winner[j]);
    }
  }

  lemma DenialsFrame(s: State, t: State, token: Token)
    requires RevokedStayRevoked(s) && DenialsGrow(s, t, token) && DistinctIds(s)
    requires s.held <= t.held && forall j :: j in s.redis.rotated ==> j in t.redis.rotated
    requires forall u :: u in t.held && u !in s.held ==> !HeldId(s, u.jti)
    ensures RevokedStayRevoked(t)
    ensures forall u :: u in s.held && Denied(s, u) ==> Denied(t, u)
  {
    forall j | j in t.redis.revoked ensures HeldId(t, j) {
      assert HeldId(s, j);
      var u :| u in s.held && u.jti == j;
      assert u in t.held;
    }
    forall u | u in t.held && u.jti in t.redis.revoked ensures Denied(t, u) {
      assert u in s.held;
    }
  }

  lemma TimeFrame(d: real, s: State, t: State, id: nat)
    requires CallsInTime(d, s) && IdsFresh(s) && Frame(s, t, id) && InTime(d, t, id) && OwnIdFresh(t, id)
    ensures CallsInTime(d, t) && IdsFresh(t)
  {}

  /** A step of one call that meets its local obligations keeps the invariant, chain aside. */
  lemma CoreFrame(d: real, s: State, t: State, id: nat, token: Token)
    requires 0.0 < d && Core(d, s) && DistinctIds(s)
    requires Frame(s, t, id) && Local(d, s, t, id) && DenialsGrow(s, t, token)
    requires forall u :: u in t.held && u !in s.held ==> !HeldId(s, u.jti)
    ensures Core(d, t)
  {
    TimeFrame(d, s, t, id);
    CallsAgreeFrame(d, s, t, id);
    DenialsFrame(s, t, token);
    RecordsFrame(d, s, t, id);
  }

  // ----- the chain

  /** Records and answered calls of `s` are still there in `t`. */
  ghost predicate Preserves(s: State, t: State) {
    && (forall j :: j in s.redis.rotated ==> j in t.redis.rotated && t.redis.rotated[j] == s.redis.rotated[j])
    && (forall id :: id in s.calls && s.calls[id].phase.Returned? ==> id in t.calls && t.calls[id] == s.calls[id])
    && (forall j :: j in s.minted ==> j in t.minted && t.minted[j] == s.minted[j])
  }

  lemma LinkKept(s: State, t: State, i: int)
    requires Preserves(s, t) && s.held <= t.held
    requires 0 <= i < |s.held| - 1 && Link(s, i)
    ensures Link(t, i)
  {
    var id :| Answered(s, id, s.held[i], s.held[i + 1]);
    assert Answered(t, id, t.held[i], t.held[i + 1]);
  }

  lemma ChainKept(s: State, t: State)
    requires ChainFollowsRecords(s) && Preserves(s, t) && t.held == s.held
    ensures ChainFollowsRecords(t)
  {
    forall i | 0 <= i < |t.held| - 1 ensures Link(t, i) {
      LinkKept(s, t, i);
    }
  }

  /** A recorded pair carries the next token of the chain, or one whose id nobody holds. */
  lemma NextTokenIsNew(d: real, s: State, j: Jti)
    requires Records(d, s) && ChainFollowsRecords(s) && j in s.redis.rotated
    ensures var next := s.redis.rotated[j].pair.refresh; next in s.held || !HeldId(s, next.jti)
  {
    var next := s.redis.rotated[j].pair.refresh;
    assert RecordOf(d, s, j);
    if HeldId(s, next.jti) {
      var i :| 0 <= i < |s.held| && s.held[i].jti == next.jti;
      if 0 < i {
        assert Link(s, i - 1);
        assert RecordOf(d, s, s.held[i - 1].jti);
      }
    }
  }

  lemma ChainExtended(d: real, s: State, t: State, id: nat, token: Token)
    requires Records(d, s) && ChainFollowsRecords(s) && Preserves(s, t)
    requires token in s.held && token.jti in s.redis.rotated
    requires var next := s.redis.rotated[token.jti].pair.refresh;
      && Answered(t, id, token, next)
      && t.held == if next in s.held then s.held else s.held + [next]
    ensures ChainFollowsRecords(t)
  {
    var next := s.redis.rotated[token.jti].pair.refresh;
    NextTokenIsNew(d, s, token.jti);
    if next in s.held {
      ChainKept(s, t);
    } else {
      var k :| 0 <= k < |s.held| && s.held[k] == token;
      assert k < |s.held| - 1 ==> Link(s, k);
      forall i | 0 <= i < |t.held| - 1 ensures Link(t, i) {
        if i < |s.held| - 1 {
          LinkKept(s, t, i);
        }
      }
      forall i | 0 <= i < |s.held| ensures s.held[i].jti != next.jti {
        assert s.held[i] in s.held;
      }
    }
  }

  // ----- the steps

  lemma TickInv(d: real, s: State, dt: real)
    requires Inv(d, s) && Enabled(d, s, Tick(dt))
    ensures Inv(d, Next(s, Tick(dt)))
  {
    var t := Next(s, Tick(dt));
    TickKeepsCalls(d, s, t, dt);
    TickKeepsRecords(d, s, t, dt);
    ChainKept(s, t);
  }

  lemma TickKeepsCalls(d: real, s: State, t: State, dt: real)
    requires CallsInTime(d, s) && CallsAgree(d, s) && RevokedStayRevoked(s) && IdsFresh(s)
    requires Enabled(d, s, Tick(dt)) && t == Next(s, Tick(dt))
    ensures CallsInTime(d, t) && CallsAgree(d, t) && RevokedStayRevoked(t) && IdsFresh(t)
  {
    forall x | x in t.calls ensures CallAgrees(d, t, x) {
      assert CallAgrees(d, s, x);
    }
  }

  lemma TickKeepsRecords(d: real, s: State, t: State, dt: real)
    requires Records(d, s) && Enabled(d, s, Tick(dt)) && t == Next(s, Tick(dt))
    ensures Records(d, t)
  {
    forall j | j in t.winner ensures RecordOf(d, t, j) {
      assert RecordOf(d, s, j);
    }
  }

  lemma CheckInv(d: real, s: State, id: nat, token: Token)
    requires 0.0 < d && Inv(d, s) && Enabled(d, s, Check(id, token))
    ensures Inv(d, Next(s, Check(id, token)))
  {
    var t := Next(s, Check(id, token));
    if token.jti in s.winner {
      assert RecordOf(d, s, token.jti) && CallAgrees(d, s, s.winner[token.jti]);
    }
    CheckLocal(d, s, t, id, token);
    CoreFrame(d, s, t, id, token);
    ChainKept(s, t);
  }

  lemma CheckLocal(d: real, s: State, t: State, id: nat, token: Token)
    requires 0.0 < d && Enabled(d, s, Check(id, token)) && t == Next(s, Check(id, token))
    requires s.winner.Keys == s.redis.rotated.Keys
    requires forall j :: j in s.winner ==> s.winner[j] in s.calls
    requires token.jti in s.winner ==>
      RecordOf(d, s, token.jti) && s.calls[s.winner[token.jti]].token == token
    requires forall w :: w in s.calls ==> InTime(d, s, w)
    ensures Frame(s, t, id) && Local(d, s, t, id) && DenialsGrow(s, t, token)
  {}

  lemma UserInactiveInv(d: real, s: State, id: nat)
    requires 0.0 < d && Inv(d, s) && Enabled(d, s, UserInactive(id))
    ensures Inv(d, Next(s, UserInactive(id)))
  {
    var t := Next(s, UserInactive(id));
    FactsOf(d, s, id);
    WinnersMoved(d, s, id);
    CoreFrame(d, s, t, id, s.calls[id].token);
    ChainKept(s, t);
  }

  /** A call that is not yet past its claim is nobody's winner. */
  lemma WinnersMoved(d: real, s: State, id: nat)
    requires Records(d, s) && id in s.calls
    requires !s.calls[id].phase.Won? && !s.calls[id].phase.Returned?
    ensures forall j :: j in s.winner ==> s.winner[j] != id
  {
    forall j | j in s.winner ensures s.winner[j] != id {
      assert RecordOf(d, s, j);
    }
  }

  lemma MintInv(d: real, s: State, id: nat, access: Jti, refresh: Jti)
    requires 0.0 < d && Inv(d, s) && Enabled(d, s, Mint(id, access, refresh))
    ensures Inv(d, Next(s, Mint(id, access, refresh)))
  {
    var t := Next(s, Mint(id, access, refresh));
    FactsOf(d, s, id);
    WinnersMoved(d, s, id);
    CoreFrame(d, s, t, id, s.calls[id].token);
    ChainKept(s, t);
  }

  /** The time bound at work: while a call on an already claimed token is in flight, the record is live. */
  lemma RecordStillLive(d: real, s: State, id: nat)
    requires d <= ROTATION_GRACE_S / 2.0 && id in s.calls && CallFacts(d, s, id)
    requires s.calls[id].phase.Minted? || s.calls[id].phase.Lost?
    requires s.calls[id].token.jti in s.redis.rotated
    ensures Recall(s.redis, s.calls[id].token.jti, s.now) == Some(s.redis.rotated[s.calls[id].token.jti].pair)
  {}

  lemma ClaimInv(d: real, s: State, id: nat)
    requires 0.0 < d <= ROTATION_GRACE_S / 2.0 && Inv(d, s) && Enabled(d, s, Claim(id))
    ensures Inv(d, Next(s, Claim(id)))
  {
    var t := Next(s, Claim(id));
    FactsOf(d, s, id);
    WinnersMoved(d, s, id);
    ClaimLocal(d, s, t, id);
    CoreFrame(d, s, t, id, s.calls[id].token);
    ChainKept(s, t);
  }

  lemma ClaimLocal(d: real, s: State, t: State, id: nat)
    requires 0.0 < d <= ROTATION_GRACE_S / 2.0 && Enabled(d, s, Claim(id)) && t == Next(s, Claim(id))
    requires CallFacts(d, s, id) && s.winner.Keys == s.redis.rotated.Keys
    requires forall j :: j in s.winner ==> s.winner[j] != id
    ensures Frame(s, t, id) && Local(d, s, t, id) && DenialsGrow(s, t, s.calls[id].token)
  {
    if s.calls[id].token.jti in s.redis.rotated {
      RecordStillLive(d, s, id);
    }
  }

  lemma ReadWinnerInv(d: real, s: State, id: nat)
    requires 0.0 < d <= ROTATION_GRACE_S / 2.0 && Inv(d, s) && Enabled(d, s, ReadWinner(id))
    ensures Inv(d, Next(s, ReadWinner(id)))
  {
    FactsOf(d, s, id);
    RecordStillLive(d, s, id);
    AnswerInv(d, s, id);
  }

  lemma RecallInv(d: real, s: State, id: nat)
    requires 0.0 < d && Inv(d, s) && Enabled(d, s, RecallPair(id))
    ensures Inv(d, Next(s, RecallPair(id)))
  {
    if Recall(s.redis, s.calls[id].token.jti, s.now).Some? {
      AnswerInv(d, s, id);
    } else {
      var t := Next(s, RecallPair(id));
      FactsOf(d, s, id);
      WinnersMoved(d, s, id);
      CoreFrame(d, s, t, id, s.calls[id].token);
      ChainKept(s, t);
    }
  }

  /** Answering a call with the recorded pair of its token. */
  lemma AnswerInv(d: real, s: State, id: nat)
    requires 0.0 < d && Inv(d, s) && id in s.calls && s.calls[id].token.jti in s.redis.rotated
    requires s.calls[id].phase.Lost? || s.calls[id].phase.Recalling?
    ensures Inv(d, Answer(s, id, s.redis.rotated[s.calls[id].token.jti].pair))
  {
    var token := s.calls[id].token;
    var t := Answer(s, id, s.redis.rotated[token.jti].pair);
    FactsOf(d, s, id);
    WinnersMoved(d, s, id);
    AnswerLocal(d, s, t, id);
    AnsweredStep(d, s, t, id, token);
  }

  lemma OnlyNewlyHeld(d: real, s: State, t: State, j: Jti)
    requires Records(d, s) && ChainFollowsRecords(s) && j in s.redis.rotated
    requires var next := s.redis.rotated[j].pair.refresh;
      t.held == if next in s.held then s.held else s.held + [next]
    ensures forall u :: u in t.held && u !in s.held ==> !HeldId(s, u.jti)
  {
    NextTokenIsNew(d, s, j);
  }

  lemma AnsweredStep(d: real, s: State, t: State, id: nat, token: Token)
    requires 0.0 < d && Inv(d, s) && token in s.held && token.jti in s.redis.rotated
    requires Frame(s, t, id) && Local(d, s, t, id) && DenialsGrow(s, t, token) && Preserves(s, t)
    requires var next := s.redis.rotated[token.jti].pair.refresh;
      && Answered(t, id, token, next)
      && t.held == if next in s.held then s.held else s.held + [next]
    ensures Inv(d, t)
  {
    OnlyNewlyHeld(d, s, t, token.jti);
    CoreFrame(d, s, t, id, token);
    ChainExtended(d, s, t, id, token);
  }

  lemma AnswerLocal(d: real, s: State, t: State, id: nat)
    requires id in s.calls && CallFacts(d, s, id) && s.calls[id].token.jti in s.redis.rotated
    requires s.calls[id].phase.Lost? || s.calls[id].phase.Recalling?
    requires s.winner.Keys == s.redis.rotated.Keys && forall j :: j in s.winner ==> s.winner[j] != id
    requires t == Answer(s, id, s.redis.rotated[s.calls[id].token.jti].pair)
    ensures var next := s.redis.rotated[s.calls[id].token.jti].pair.refresh;
      t.held == if next in s.held then s.held else s.held + [next]
    ensures Frame(s, t, id) && Local(d, s, t, id) && DenialsGrow(s, t, s.calls[id].token) && Preserves(s, t)
    ensures Answered(t, id, s.calls[id].token, s.redis.rotated[s.calls[id].token.jti].pair.refresh)
  {}

  lemma RevokeOldInv(d: real, s: State, id: nat)
    requires 0.0 < d && Inv(d, s) && Enabled(d, s, RevokeOld(id))
    ensures Inv(d, Next(s, RevokeOld(id)))
  {
    var token := s.calls[id].token;
    var t := Next(s, RevokeOld(id));
    FactsOf(d, s, id);
    WinnerOfOneToken(d, s, id);
    RevokeOldLocal(d, s, t, id);
    AnsweredStep(d, s, t, id, token);
  }

  lemma WinnerOfOneToken(d: real, s: State, id: nat)
    requires Records(d, s) && id in s.calls
    ensures forall j :: j in s.winner && s.winner[j] == id ==> j == s.calls[id].token.jti
  {
    forall j | j in s.winner && s.winner[j] == id ensures j == s.calls[id].token.jti {
      assert RecordOf(d, s, j);
    }
  }

  lemma RevokeOldLocal(d: real, s: State, t: State, id: nat)
    requires 0.0 < d && Enabled(d, s, RevokeOld(id)) && t == Next(s, RevokeOld(id))
    requires CallFacts(d, s, id) && s.winner.Keys == s.redis.rotated.Keys
    requires forall j :: j in s.winner && s.winner[j] == id ==> j == s.calls[id].token.jti
    ensures Frame(s, t, id) && Local(d, s, t, id) && DenialsGrow(s, t, s.calls[id].token) && Preserves(s, t)
    ensures Answered(t, id, s.calls[id].token, s.redis.rotated[s.calls[id].token.jti].pair.refresh)
    ensures var next := s.redis.rotated[s.calls[id].token.jti].pair.refresh;
      t.held == if next in s.held then s.held else s.held + [next]
  {}

  lemma LogoutInv(d: real, s: State, token: Token)
    requires Inv(d, s) && Enabled(d, s, Logout(token))
    ensures Inv(d, Next(s, Logout(token)))
  {
    var t := Next(s, Logout(token));
    LogoutKeepsCalls(d, s, t, token);
    LogoutKeepsDenials(s, t, token);
    LogoutKeepsRecords(d, s, t, token);
    ChainKept(s, t);
  }

  lemma LogoutKeepsCalls(d: real, s: State, t: State, token: Token)
    requires CallsInTime(d, s) && CallsAgree(d, s) && IdsFresh(s)
    requires Enabled(d, s, Logout(token)) && t == Next(s, Logout(token))
    ensures CallsInTime(d, t) && CallsAgree(d, t) && IdsFresh(t)
  {
    forall x | x in t.calls ensures CallAgrees(d, t, x) {
      assert CallAgrees(d, s, x);
    }
  }

  lemma LogoutKeepsDenials(s: State, t: State, token: Token)
    requires RevokedStayRevoked(s) && DistinctIds(s)
    requires Enabled(0.0, s, Logout(token)) && t == Next(s, Logout(token))
    ensures RevokedStayRevoked(t)
    ensures forall u :: u in s.held && Denied(s, u) ==> Denied(t, u)
  {
    forall j | j in t.redis.revoked ensures HeldId(t, j) && (j in t.loggedOut || j in t.redis.rotated) {
      if j != token.jti {
        var u :| u in s.held && u.jti == j;
        assert u in t.held;
      }
    }
  }

  lemma LogoutKeepsRecords(d: real, s: State, t: State, token: Token)
    requires Records(d, s) && CallsAgree(d, s) && Enabled(d, s, Logout(token)) && t == Next(s, Logout(token))
    requires forall u :: u in s.held && Denied(s, u) ==> Denied(t, u)
    ensures Records(d, t)
  {
    forall j | j in t.winner ensures RecordOf(d, t, j) {
      assert RecordOf(d, s, j) && CallAgrees(d, s, s.winner[j]);
    }
  }

  lemma NextInv(d: real, s: State, a: Action)
    requires 0.0 < d <= ROTATION_GRACE_S / 2.0
    requires Inv(d, s) && Enabled(d, s, a)
    ensures Inv(d, Next(s, a))
  {
    match a
    case Tick(dt) => TickInv(d, s, dt);
    case Check(id, token) => CheckInv(d, s, id, token);
    case RecallPair(id) => RecallInv(d, s, id);
    case UserInactive(id) => UserInactiveInv(d, s, id);
    case Mint(id, access, refresh) => MintInv(d, s, id, access, refresh);
    case Claim(id) => ClaimInv(d, s, id);
    case ReadWinner(id) => ReadWinnerInv(d, s, id);
    case RevokeOld(id) => RevokeOldInv(d, s, id);
    case Logout(token) => LogoutInv(d, s, token);
  }

  lemma ReachableInv(d: real, s: State)
    requires 0.0 < d <= ROTATION_GRACE_S / 2.0 && Reachable(d, s)
    ensures Inv(d, s)
  {
    var s0, actions :| Init(s0) && Runs.Legal(Enabling(d), Next, s0, actions) && s == Runs.After(Next, s0, actions);
    InitInv(d, s0);
    forall t, a | Inv(d, t) && Enabling(d)(t, a) ensures Inv(d, Next(t, a)) {
      NextInv(d, t, a);
    }
    Runs.InvariantOverRuns(t => Inv(d, t), Enabling(d), Next, s0, actions);
  }
}
