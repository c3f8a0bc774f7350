/** The shared store that makes refresh tokens single-use: the denylist and the
    rotation records of app/core/revocation.py, with Redis key expiry explicit. */
module Revocation {
  import opened Base

  const ROTATION_GRACE_S := 60.0
  const REFRESH_TTL_S := 30 * 24 * 60 * 60
  const ACCESS_TTL_S := 15 * 60

  type Jti = nat

  /** The claims that matter here: the token's id and its integral expiry instant. */
  datatype Token = Token(jti: Jti, exp: int)

  datatype Pair = Pair(access: Token, refresh: Token)

  /** A `SET ... EX` value together with the instant from which the key is gone. */
  datatype Record = Record(pair: Pair, until: real)

  /** A key whose lifetime is over stays in the map and is ignored. */
  datatype Redis = Redis(revoked: map<Jti, real>, rotated: map<Jti, Record>)

  predicate Expired(t: Token, now: real) {
    t.exp as real <= now
  }

  predicate IsRevoked(r: Redis, jti: Jti, now: real) {
    jti in r.revoked && now < r.revoked[jti]
  }

  /** GET of the rotation record. */
  function Recall(r: Redis, jti: Jti, now: real): Option<Pair> {
    if jti in r.rotated && now < r.rotated[jti].until then Some(r.rotated[jti].pair) else None
  }

  /** SET NX EX: stores the pair unless a live record is there already. */
  function SetIfAbsent(r: Redis, jti: Jti, pair: Pair, now: real): Redis {
    if Recall(r, jti, now).Some? then r
    else r.(rotated := r.rotated[jti := Record(pair, now + ROTATION_GRACE_S)])
  }

  /** Seconds until the token expires on its own, floored at 1. */
  function TtlSeconds(exp: int, now: real): (ttl: int)
    ensures ttl >= 1
    ensures now + ttl as real >= exp as real
    ensures ttl > 1 ==> (now + ttl as real) - 1.0 < exp as real
  {
    MaxInt(exp - now.Floor, 1)
  }

  function Revoke(r: Redis, t: Token, now: real): Redis {
    r.(revoked := r.revoked[t.jti := now + TtlSeconds(t.exp, now) as real])
  }

  /** The pair one refresh mints at `now`, under two ids never used before. */
  function IssuePair(now: real, access: Jti, refresh: Jti): Pair {
    Pair(Token(access, now.Floor + ACCESS_TTL_S), Token(refresh, now.Floor + REFRESH_TTL_S))
  }

  /** A revoked token is dead for good: its denylist entry outlives it. */
  lemma RevocationIsFinal(r: Redis, t: Token, now: real, later: real)
    requires now <= later
    ensures IsRevoked(Revoke(r, t, now), t.jti, later) || Expired(t, later)
  {}
}
