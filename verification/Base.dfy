/** Small vocabulary shared by every module of the model. */
module Base {
  datatype Option<+T> = None | Some(value: T)

  function MaxReal(a: real, b: real): (m: real) {
    if a < b then b else a
  }

  function MaxInt(a: int, b: int): (m: int) {
    if a < b then b else a
  }
}

/** Finite runs of a state machine given by a guard and a total step function. */
module Runs {
  /** The state that `actions`, taken in order, lead to from `s`. */
  ghost function After<S, A>(next: (S, A) -> S, s: S, actions: seq<A>): S {
    if actions == [] then s
    else next(After(next, s, actions[..|actions| - 1]), actions[|actions| - 1])
  }

  /** Every action is enabled in the state it is taken in. */
  ghost predicate Legal<S, A>(enabled: (S, A) -> bool, next: (S, A) -> S, s: S, actions: seq<A>) {
    actions == []
    || (var n := |actions| - 1;
        Legal(enabled, next, s, actions[..n]) && enabled(After(next, s, actions[..n]), actions[n]))
  }

  /** What holds at the start and is kept by every enabled step holds after every legal run. */
  lemma {:induction false} InvariantOverRuns<S(!new), A(!new)>(
      inv: S -> bool, enabled: (S, A) -> bool, next: (S, A) -> S, s: S, actions: seq<A>)
    requires inv(s)
    requires forall t, a :: inv(t) && enabled(t, a) ==> inv(next(t, a))
    requires Legal(enabled, next, s, actions)
    ensures inv(After(next, s, actions))
  {
    if actions != [] {
      InvariantOverRuns(inv, enabled, next, s, actions[..|actions| - 1]);
    }
  }

  /** Every prefix of a legal run is legal, and the action after it is enabled where it ends. */
  lemma {:induction false} LegalPrefix<S, A>(enabled: (S, A) -> bool, next: (S, A) -> S, s: S, actions: seq<A>, i: nat)
    requires Legal(enabled, next, s, actions) && i < |actions|
    ensures Legal(enabled, next, s, actions[..i])
    ensures enabled(After(next, s, actions[..i]), actions[i])
  {
    var n := |actions| - 1;
    if i < n {
      LegalPrefix(enabled, next, s, actions[..n], i);
      assert actions[..n][..i] == actions[..i];
    }
  }

  /** A run can be extended by one enabled action. */
  lemma Extend<S, A>(enabled: (S, A) -> bool, next: (S, A) -> S, s: S, actions: seq<A>, a: A)
    requires Legal(enabled, next, s, actions)
    requires enabled(After(next, s, actions), a)
    ensures Legal(enabled, next, s, actions + [a])
    ensures After(next, s, actions + [a]) == next(After(next, s, actions), a)
  {
    assert (actions + [a])[..|actions|] == actions;
  }

  /** A run can start one enabled action earlier. */
  lemma {:induction false} Prepend<S, A>(enabled: (S, A) -> bool, next: (S, A) -> S, s: S, a: A, actions: seq<A>)
    requires enabled(s, a) && Legal(enabled, next, next(s, a), actions)
    ensures Legal(enabled, next, s, [a] + actions)
    ensures After(next, s, [a] + actions) == After(next, next(s, a), actions)
    decreases |actions|
  {
    if actions == [] {
      Extend(enabled, next, s, [], a);
      assert [] + [a] == [a] + actions;
    } else {
      var n := |actions| - 1;
      Prepend(enabled, next, s, a, actions[..n]);
      Extend(enabled, next, s, [a] + actions[..n], actions[n]);
      assert [a] + actions[..n] + [actions[n]] == [a] + actions;
    }
  }

  /** One run after another is a run. */
  lemma {:induction false} Append<S, A>(enabled: (S, A) -> bool, next: (S, A) -> S, s: S, first: seq<A>, rest: seq<A>)
    requires Legal(enabled, next, s, first) && Legal(enabled, next, After(next, s, first), rest)
    ensures Legal(enabled, next, s, first + rest)
    ensures After(next, s, first + rest) == After(next, After(next, s, first), rest)
    decreases |rest|
  {
    if rest == [] {
      assert first + rest == first;
    } else {
      var n := |rest| - 1;
      Append(enabled, next, s, first, rest[..n]);
      Extend(enabled, next, s, first + rest[..n], rest[n]);
      assert first + rest[..n] + [rest[n]] == first + rest;
    }
  }
}

/** Python's `round`, over exact numbers: to nearest, ties to even. */
module Rounding {
  function RoundHalfEven(x: real): int {
    var f := x.Floor;
    var rest := x - f as real;
    if rest < 0.5 || (rest == 0.5 && f % 2 == 0) then f else f + 1
  }

  /** `round(x, 2)`. */
  function Round2(x: real): real {
    RoundHalfEven(x * 100.0) as real / 100.0
  }

  /** The nearest whole number, halves to the even one. */
  predicate Nearest(x: real, n: int) {
    var off := x - n as real;
    -0.5 < off < 0.5 || ((off == 0.5 || off == -0.5) && n % 2 == 0)
  }

  lemma RoundsToNearest(x: real, n: int)
    ensures RoundHalfEven(x) == n <==> Nearest(x, n)
  {}

  lemma RoundMonotone(x: real, y: real)
    requires x <= y
    ensures RoundHalfEven(x) <= RoundHalfEven(y)
  {}

  lemma Round2Monotone(x: real, y: real)
    requires x <= y
    ensures Round2(x) <= Round2(y)
  {
    RoundMonotone(x * 100.0, y * 100.0);
  }

  lemma RoundOfWhole(n: int)
    ensures RoundHalfEven(n as real) == n
  {}
}

/** Python's `sorted(xs, key=...)`: a stable sort. */
module Sorting {
  ghost predicate SortedBy<T>(key: T -> real, xs: seq<T>) {
    forall i, j :: 0 <= i < j < |xs| ==> key(xs[i]) <= key(xs[j])
  }

  function Insert<T>(key: T -> real, x: T, xs: seq<T>): seq<T> {
    if xs == [] || key(x) <= key(xs[0]) then [x] + xs
    else [xs[0]] + Insert(key, x, xs[1..])
  }

  function Sort<T>(key: T -> real, xs: seq<T>): seq<T> {
    if xs == [] then [] else Insert(key, xs[0], Sort(key, xs[1..]))
  }

  lemma {:induction false} InsertKeeps<T>(key: T -> real, x: T, xs: seq<T>)
    ensures multiset(Insert(key, x, xs)) == multiset([x] + xs)
  {
    if xs != [] && key(x) > key(xs[0]) {
      InsertKeeps(key, x, xs[1..]);
      assert xs == [xs[0]] + xs[1..];
    }
  }

  lemma {:induction false} SortPermutes<T>(key: T -> real, xs: seq<T>)
    ensures multiset(Sort(key, xs)) == multiset(xs)
  {
    if xs != [] {
      SortPermutes(key, xs[1..]);
      InsertKeeps(key, xs[0], Sort(key, xs[1..]));
      assert xs == [xs[0]] + xs[1..];
    }
  }

  lemma SortMembers<T>(key: T -> real, xs: seq<T>)
    ensures |Sort(key, xs)| == |xs|
    ensures forall x :: x in Sort(key, xs) <==> x in xs
  {
    SortPermutes(key, xs);
    assert |multiset(Sort(key, xs))| == |Sort(key, xs)|;
    forall x ensures x in Sort(key, xs) <==> x in xs {
      assert x in multiset(Sort(key, xs)) <==> x in multiset(xs);
    }
  }

  lemma {:induction false} InsertSorted<T>(key: T -> real, x: T, xs: seq<T>)
    requires SortedBy(key, xs)
    ensures SortedBy(key, Insert(key, x, xs))
  {
    if xs != [] && key(x) > key(xs[0]) {
      InsertSorted(key, x, xs[1..]);
      InsertKeeps(key, x, xs[1..]);
      var rest := Insert(key, x, xs[1..]);
      forall i | 0 <= i < |rest| ensures key(xs[0]) <= key(rest[i]) {
        assert rest[i] in multiset(rest);
        assert rest[i] in multiset([x] + xs[1..]);
      }
    }
  }

  lemma {:induction false} SortSorts<T>(key: T -> real, xs: seq<T>)
    ensures SortedBy(key, Sort(key, xs))
  {
    if xs != [] {
      SortSorts(key, xs[1..]);
      InsertSorted(key, xs[0], Sort(key, xs[1..]));
    }
  }
}
