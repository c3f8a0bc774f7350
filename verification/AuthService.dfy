/** The store client and the handlers in their own, sequential form, tied to the protocol steps. */
module AuthService {
  import opened Base
  import opened Revocation
  import opened Rotation

  /** The clock readings one refresh takes, in order. */
  datatype Instants = Instants(check: real, mint: real, claim: real, read: real, revoke: real)

  function At(s: State, now: real): State {
    s.(now := now)
  }

  function RevokeIfWon(s: State, id: nat, now: real): State {
    if id in s.calls && s.calls[id].phase.Won? then Next(At(s, now), RevokeOld(id)) else s
  }

  /** The protocol steps of one call that nobody interleaves with. */
  function LoneCall(s: State, id: nat, token: Token, active: bool, access: Jti, refresh: Jti, t: Instants): State
    requires id !in s.calls
  {
    var checked := Next(At(s, t.check), Check(id, token));
    match checked.calls[id].phase
    case Recalling => Next(At(checked, t.read), RecallPair(id))
    case Admitted =>
      if !active then Next(checked, UserInactive(id))
      else
        var claimed := Next(At(Next(At(checked, t.mint), Mint(id, access, refresh)), t.claim), Claim(id));
        if claimed.calls[id].phase.Lost? then RevokeIfWon(Next(At(claimed, t.read), ReadWinner(id)), id, t.revoke)
        else RevokeIfWon(claimed, id, t.revoke)
    case _ => checked
  }

  /** How the protocol records what the handler answered: a pair, or a 401. */
  function Outcome(answer: Option<Pair>): Phase {
    if answer.Some? then Returned(answer.value) else Refused
  }

  /** What one exchange does to the store and answers, with nobody else around. */
  function Alone(r: Redis, token: Token, active: bool, access: Jti, refresh: Jti, t: Instants): (Redis, Option<Pair>) {
    if Expired(token, t.check) then (r, None)
    else if IsRevoked(r, token.jti, t.check) then (r, Recall(r, token.jti, t.read))
    else if !active then (r, None)
    else
      var pair := IssuePair(t.mint, access, refresh);
      var claimed := SetIfAbsent(r, token.jti, pair, t.claim);
      if Recall(r, token.jti, t.claim).Some? && Recall(r, token.jti, t.read).Some? then
        (claimed, Recall(r, token.jti, t.read))
      else (Revoke(claimed, token, t.revoke), Some(pair))
  }

  lemma MintsAndClaims(s: State, id: nat, access: Jti, refresh: Jti, t: Instants)
    requires id in s.calls && s.calls[id].phase.Admitted?
    ensures var c := Next(At(Next(At(s, t.mint), Mint(id, access, refresh)), t.claim), Claim(id));
      var j, pair := s.calls[id].token.jti, IssuePair(t.mint, access, refresh);
      && id in c.calls && c.calls[id].token == s.calls[id].token
      && c.redis == SetIfAbsent(s.redis, j, pair, t.claim)
      && c.calls[id].phase == if Recall(s.redis, j, t.claim).Some? then Lost(pair) else Won(pair)
  {}

  lemma Revokes(s: State, id: nat, now: real)
    requires id in s.calls && s.calls[id].phase.Won?
    ensures var e := RevokeIfWon(s, id, now);
      && id in e.calls && e.calls[id].phase == Returned(s.calls[id].phase.own)
      && e.redis == Revoke(s.redis, s.calls[id].token, now)
  {}

  lemma ReadsWinner(s: State, id: nat, now: real)
    requires id in s.calls && s.calls[id].phase.Lost?
    ensures var e, held := Next(At(s, now), ReadWinner(id)), Recall(s.redis, s.calls[id].token.jti, now);
      && id in e.calls && e.calls[id].token == s.calls[id].token && e.redis == s.redis
      && e.calls[id].phase == if held.Some? then Returned(held.value) else Won(s.calls[id].phase.own)
  {}

  /** The lone run of a protocol call does just that. */
  lemma LoneCallIsAlone(s: State, id: nat, token: Token, active: bool, access: Jti, refresh: Jti, t: Instants)
    requires id !in s.calls
    ensures var e, (r, answer) := LoneCall(s, id, token, active, access, refresh, t),
                                  Alone(s.redis, token, active, access, refresh, t);
      e.redis == r && id in e.calls && e.calls[id].phase == Outcome(answer)
  {
    var checked := Next(At(s, t.check), Check(id, token));
    if checked.calls[id].phase.Admitted? && active {
      var claimed := Next(At(Next(At(checked, t.mint), Mint(id, access, refresh)), t.claim), Claim(id));
      MintsAndClaims(checked, id, access, refresh, t);
      if claimed.calls[id].phase.Lost? {
        var read := Next(At(claimed, t.read), ReadWinner(id));
        ReadsWinner(claimed, id, t.read);
        if read.calls[id].phase.Won? {
          Revokes(read, id, t.revoke);
        }
      } else {
        Revokes(claimed, id, t.revoke);
      }
    }
  }

  class Store {
    var revoked: map<Jti, real>
    var rotated: map<Jti, Record>

    constructor ()
      ensures Value() == Redis(map[], map[])
    {
      revoked, rotated := map[], map[];
    }

    function Value(): (r: Redis)
      reads this
    {
      Redis(revoked, rotated)
    }

    method IsRevokedStrict(jti: Jti, now: real) returns (dead: bool)
      ensures dead == IsRevoked(Value(), jti, now)
    {
      dead := jti in revoked && now < revoked[jti];
    }

    method RecallRotation(jti: Jti, now: real) returns (pair: Option<Pair>)
      ensures pair == Recall(Value(), jti, now)
    {
      pair := None;
      if jti in rotated && now < rotated[jti].until {
        pair := Some(rotated[jti].pair);
      }
    }

    /** SET NX EX at `now`; when refused, GET at `later`. `None` means "use your own pair". */
    method ClaimRotation(jti: Jti, pair: Pair, now: real, later: real) returns (winner: Option<Pair>)
      modifies this
      ensures Value() == SetIfAbsent(old(Value()), jti, pair, now)
      ensures winner == if Recall(old(Value()), jti, now).None? then None else Recall(old(Value()), jti, later)
    {
      var held := RecallRotation(jti, now);
      if held.None? {
        rotated := rotated[jti := Record(pair, now + ROTATION_GRACE_S)];
        return None;
      }
      winner := RecallRotation(jti, later);
    }

    method RevokeToken(t: Token, now: real)
      modifies this
      ensures Value() == Revoke(old(Value()), t, now)
    {
      revoked := revoked[t.jti := now + TtlSeconds(t.exp, now) as real];
    }

    /** `POST /auth/refresh`: the lone run of one protocol call, whatever the surrounding state. */
    method Refresh(token: Token, active: bool, access: Jti, refresh: Jti, t: Instants, ghost id: nat)
      returns (answer: Option<Pair>)
      modifies this
      ensures forall s: State :: s.redis == old(Value()) && id !in s.calls ==>
        var e := LoneCall(s, id, token, active, access, refresh, t);
        e.redis == Value() && id in e.calls && e.calls[id].phase == Outcome(answer)
      ensures var live := t.check < token.exp as real
                         && !(token.jti in old(revoked) && t.check < old(revoked)[token.jti]);
        && (live && !active ==> answer.None?)
        && (live && active && !(token.jti in old(rotated) && t.claim < old(rotated)[token.jti].until) ==>
              answer == Some(Pair(Token(access, t.mint.Floor + 15 * 60),
                                   Token(refresh, t.mint.Floor + 30 * 24 * 60 * 60)))
              && token.jti in rotated && rotated[token.jti] == Record(answer.value, t.claim + 60.0))
      ensures t.check >= token.exp as real ==> answer.None? && Value() == old(Value())
      ensures t.check < token.exp as real && token.jti in old(revoked) && t.check < old(revoked)[token.jti] ==>
        && Value() == old(Value())
        && answer == if token.jti in old(rotated) && t.read < old(rotated)[token.jti].until
                     then Some(old(rotated)[token.jti].pair) else None
    {
      ghost var before := Value();
      answer := Exchange(token, active, access, refresh, t);
      forall s: State | s.redis == before && id !in s.calls
        ensures var e := LoneCall(s, id, token, active, access, refresh, t);
          e.redis == Value() && id in e.calls && e.calls[id].phase == Outcome(answer)
      {
        LoneCallIsAlone(s, id, token, active, access, refresh, t);
      }
    }

    method Exchange(token: Token, active: bool, access: Jti, refresh: Jti, t: Instants) returns (answer: Option<Pair>)
      modifies this
      ensures (Value(), answer) == Alone(old(Value()), token, active, access, refresh, t)
    {
      if Expired(token, t.check) {
        return None;
      }
      var dead := IsRevokedStrict(token.jti, t.check);
      if dead {
        answer := RecallRotation(token.jti, t.read);
        return;
      }
      if !active {
        return None;
      }
      var pair := IssuePair(t.mint, access, refresh);
      var winner := ClaimRotation(token.jti, pair, t.claim, t.read);
      if winner.Some? {
        return winner;
      }
      RevokeToken(token, t.revoke);
      answer := Some(pair);
    }

    /** `POST /auth/logout`: the access token, then the caller's own refresh token if it still decodes. */
    method LogoutSession(access: Token, refresh: Option<Token>, sameUser: bool, now: real)
      modifies this
      ensures Value() ==
        if refresh.Some? && sameUser && !Expired(refresh.value, now)
        then Revoke(Revoke(old(Value()), access, now), refresh.value, now)
        else Revoke(old(Value()), access, now)
      ensures refresh.None? || refresh.value.jti != access.jti ==>
        forall later :: now <= later ==> IsRevoked(Value(), access.jti, later) || Expired(access, later)
      ensures refresh.Some? && sameUser ==> forall later ::
        now <= later ==> IsRevoked(Value(), refresh.value.jti, later) || Expired(refresh.value, later)
    {
      RevokeToken(access, now);
      if refresh.Some? {
        if Expired(refresh.value, now) {
          return;
        }
        if sameUser {
          RevokeToken(refresh.value, now);
        }
      }
    }
  }
}
