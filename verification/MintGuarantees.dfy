/** What a handed-out pair is: two tokens minted together, how long each lives, and when their call minted them. */
module MintGuarantees {
  import opened Base
  import opened Revocation
  import opened Rotation
  import Runs

  /** Both tokens were minted at instant `m` by call `w`, within `d` of its revocation check: fifteen minutes of access,
      thirty days of refresh. */
  ghost predicate MintedBy(d: real, s: State, pair: Pair, w: nat, m: real) {
    && pair.access.jti in s.minted && s.minted[pair.access.jti] == Some(w)
    && pair.refresh.jti in s.minted && s.minted[pair.refresh.jti] == Some(w)
    && pair.access.jti != pair.refresh.jti
    && w in s.calls && s.calls[w].since <= m <= s.now && m < s.calls[w].since + d
    && pair.access.exp == m.Floor + 15 * 60
    && pair.refresh.exp == m.Floor + 30 * 24 * 60 * 60
  }

  ghost predicate Minted(d: real, s: State, pair: Pair) {
    exists w, m :: MintedBy(d, s, pair, w, m)
  }

  /** The pair a call has minted, lost or won with, or returned. */
  function PairOf(phase: Phase): Option<Pair> {
    match phase
    case Minted(own) => Some(own)
    case Lost(own) => Some(own)
    case Won(own) => Some(own)
    case Returned(pair) => Some(pair)
    case _ => None
  }

  ghost predicate FlightsInTime(d: real, s: State) {
    forall id :: id in s.calls && InFlight(s.calls[id]) ==> s.calls[id].since <= s.now < s.calls[id].since + d
  }

  ghost predicate CallMinted(d: real, s: State, id: nat)
    requires id in s.calls
  {
    PairOf(s.calls[id].phase).Some? ==> Minted(d, s, PairOf(s.calls[id].phase).value)
  }

  ghost predicate RecordsMinted(d: real, s: State) {
    forall j :: j in s.redis.rotated ==> Minted(d, s, s.redis.rotated[j].pair)
  }

  ghost predicate AllMinted(d: real, s: State) {
    && FlightsInTime(d, s) && RecordsMinted(d, s)
    && forall id :: id in s.calls ==> CallMinted(d, s, id)
  }

  /** Ids keep their minter, calls their start, and time goes on. */
  ghost predicate HistoryKept(s: State, t: State) {
    && s.now <= t.now
    && (forall j :: j in s.minted ==> j in t.minted && t.minted[j] == s.minted[j])
    && (forall id :: id in s.calls ==> id in t.calls && t.calls[id].since == s.calls[id].since)
  }

  lemma HistoryStep(d: real, s: State, a: Action)
    requires Enabled(d, s, a)
    ensures HistoryKept(s, Next(s, a))
  {}

  lemma StaysMinted(d: real, s: State, t: State, pair: Pair)
    requires Minted(d, s, pair) && HistoryKept(s, t)
    ensures Minted(d, t, pair)
  {
    var w, m :| MintedBy(d, s, pair, w, m);
    assert MintedBy(d, t, pair, w, m);
  }

  lemma InTimeStep(d: real, s: State, a: Action)
    requires 0.0 < d && FlightsInTime(d, s) && Enabled(d, s, a)
    ensures FlightsInTime(d, Next(s, a))
  {}

  lemma RecordsStep(d: real, s: State, a: Action)
    requires AllMinted(d, s) && Enabled(d, s, a)
    ensures RecordsMinted(d, Next(s, a))
  {
    var t := Next(s, a);
    HistoryStep(d, s, a);
    forall j | j in t.redis.rotated ensures Minted(d, t, t.redis.rotated[j].pair) {
      if j in s.redis.rotated && t.redis.rotated[j] == s.redis.rotated[j] {
        StaysMinted(d, s, t, s.redis.rotated[j].pair);
      } else {
        assert a.Claim? && CallMinted(d, s, a.id);
        StaysMinted(d, s, t, s.calls[a.id].phase.own);
      }
    }
  }

  /** A pair a call holds after a step is one it minted in it, one it held, or the one on record. */
  lemma WhereFrom(d: real, s: State, a: Action, id: nat)
    requires Enabled(d, s, a) && id in Next(s, a).calls && PairOf(Next(s, a).calls[id].phase).Some?
    ensures var pair := PairOf(Next(s, a).calls[id].phase).value;
      || (id in s.calls && PairOf(s.calls[id].phase) == Some(pair))
      || (exists j :: j in s.redis.rotated && s.redis.rotated[j].pair == pair)
      || (a.Mint? && a.id == id && pair == IssuePair(s.now, a.access, a.refresh))
  {}

  lemma MintStep(d: real, s: State, id: nat, access: Jti, refresh: Jti)
    requires FlightsInTime(d, s) && Enabled(d, s, Mint(id, access, refresh))
    ensures MintedBy(d, Next(s, Mint(id, access, refresh)), IssuePair(s.now, access, refresh), id, s.now)
  {}

  lemma CallsStep(d: real, s: State, a: Action, id: nat)
    requires AllMinted(d, s) && Enabled(d, s, a) && id in Next(s, a).calls
    ensures CallMinted(d, Next(s, a), id)
  {
    var t := Next(s, a);
    HistoryStep(d, s, a);
    if PairOf(t.calls[id].phase).Some? {
      var pair := PairOf(t.calls[id].phase).value;
      WhereFrom(d, s, a, id);
      if id in s.calls && PairOf(s.calls[id].phase) == Some(pair) {
        assert CallMinted(d, s, id);
        StaysMinted(d, s, t, pair);
      } else if j :| j in s.redis.rotated && s.redis.rotated[j].pair == pair {
        StaysMinted(d, s, t, pair);
      } else {
        MintStep(d, s, a.id, a.access, a.refresh);
      }
    }
  }

  lemma AllMintedStep(d: real, s: State, a: Action)
    requires 0.0 < d && AllMinted(d, s) && Enabled(d, s, a)
    ensures AllMinted(d, Next(s, a))
  {
    InTimeStep(d, s, a);
    RecordsStep(d, s, a);
    forall id | id in Next(s, a).calls ensures CallMinted(d, Next(s, a), id) {
      CallsStep(d, s, a, id);
    }
  }

  /** In every reachable state each pair a call has minted, lost, won or returned was minted whole, at one instant, by
      one call within its time bound, for fifteen minutes and thirty days. */
  lemma PairsAreMintedWhole(d: real, s: State, id: nat)
    requires 0.0 < d && Reachable(d, s) && id in s.calls && PairOf(s.calls[id].phase).Some?
    ensures Minted(d, s, PairOf(s.calls[id].phase).value)
  {
    var s0, actions :| Init(s0) && Runs.Legal(Enabling(d), Next, s0, actions) && s == Runs.After(Next, s0, actions);
    var inv := (t: State) => AllMinted(d, t);
    forall t, a | inv(t) && Enabling(d)(t, a) ensures inv(Next(t, a)) {
      AllMintedStep(d, t, a);
    }
    Runs.InvariantOverRuns(inv, Enabling(d), Next, s0, actions);
    assert CallMinted(d, s, id);
  }
}
