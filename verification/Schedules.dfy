/**
  The vesting schedule as a value. `Curve` is the promise made to the beneficiary: how much of the
  schedule is due at a given time. `Vested` and `Collected` describe the two walks of the source,
  and the lemmas relate the walks to the curve.
 */
module Schedules {
  import opened Sums
  import opened Types

  datatype RawSchedule = Schedule(timestamps: seq<nat>, amounts: seq<nat>)

  /** Two parallel vectors of the same length. */
  type Schedule = s: RawSchedule | |s.timestamps| == |s.amounts| witness Schedule([], [])

  const EMPTY: Schedule := Schedule([], [])

  function From(s: Schedule, k: nat): Schedule
    requires k <= |s.amounts|
  {
    Schedule(s.timestamps[k..], s.amounts[k..])
  }

  function Tail(s: Schedule): Schedule
    requires s.amounts != []
  {
    From(s, 1)
  }

  /** V(t): the sum of all amounts whose timestamp is at or before `t`. */
  function Curve(s: Schedule, t: nat): nat
    decreases |s.amounts|
  {
    if s.amounts == [] then 0
    else (if s.timestamps[0] <= t then s.amounts[0] else 0) + Curve(Tail(s), t)
  }

  /** The sum of the leading amounts, up to the first timestamp that is still ahead of `now`. */
  function Vested(s: Schedule, now: nat): nat
    decreases |s.amounts|
  {
    if s.amounts == [] || s.timestamps[0] > now then 0
    else s.amounts[0] + Vested(Tail(s), now)
  }

  /** Take `r` from the front of the schedule, never touching an entry that is ahead of `now`. */
  function Collected(s: Schedule, now: nat, r: nat): Schedule
    decreases |s.amounts|
  {
    if s.amounts == [] || s.timestamps[0] > now then s
    else if r < s.amounts[0] then s.(amounts := [s.amounts[0] - r] + s.amounts[1..])
    else if r == s.amounts[0] then Tail(s)
    else Collected(Tail(s), now, r - s.amounts[0])
  }

  /** Take `r` from the front of the schedule whatever the time. */
  function Consume(s: Schedule, r: nat): Schedule
    decreases |s.amounts|
  {
    if s.amounts == [] || r == 0 then s
    else if r < s.amounts[0] then s.(amounts := [s.amounts[0] - r] + s.amounts[1..])
    else Consume(Tail(s), r - s.amounts[0])
  }

  /** Whether a checked 128-bit walk that has already added up `vested` aborts. */
  predicate Overflows(s: Schedule, now: nat, vested: nat, r: nat)
    decreases |s.amounts|
  {
    s.amounts != [] && s.timestamps[0] <= now &&
    (|| vested + s.amounts[0] >= U128_LIMIT
     || if vested + s.amounts[0] >= r then s.amounts[0] + r >= U128_LIMIT
        else Overflows(Tail(s), now, vested + s.amounts[0], r))
  }

  /** What collecting `r` at `now` does: the stored schedule afterwards, or the error. */
  function Collect(s: Schedule, now: nat, r: nat): Result<Schedule> {
    if Overflows(s, now, 0, r) then Err(Overflow)
    else if r <= Vested(s, now) then Ok(Collected(s, now, r))
    else Err(NoSufficientUnlockedTokens)
  }

  ghost predicate Sorted(s: Schedule) {
    forall i, j :: 0 <= i < j < |s.timestamps| ==> s.timestamps[i] < s.timestamps[j]
  }

  ghost predicate Positive(s: Schedule) {
    forall i :: 0 <= i < |s.amounts| ==> 0 < s.amounts[i]
  }

  // ---------------------------------------------------------------- the curve and its walk

  lemma {:induction false} VestedBounds(s: Schedule, now: nat)
    ensures Vested(s, now) <= Curve(s, now) <= Sum(s.amounts)
    decreases |s.amounts|
  {
    if s.amounts != [] {
      VestedBounds(Tail(s), now);
    }
  }

  lemma {:induction false} CurveBeforeStart(s: Schedule, t: nat)
    requires Sorted(s)
    requires s.amounts != [] ==> t < s.timestamps[0]
    ensures Curve(s, t) == 0
    decreases |s.amounts|
  {
    if s.amounts != [] {
      CurveBeforeStart(Tail(s), t);
    }
  }

  /** On a sorted schedule the walk that stops early adds up the whole curve. */
  lemma {:induction false} VestedIsCurve(s: Schedule, now: nat)
    requires Sorted(s)
    ensures Vested(s, now) == Curve(s, now)
    decreases |s.amounts|
  {
    if s.amounts != [] {
      if s.timestamps[0] > now {
        CurveBeforeStart(s, now);
      } else {
        VestedIsCurve(Tail(s), now);
      }
    }
  }

  /** An entry is due from its timestamp on, and not a moment before. */
  lemma {:induction false} CurveSteps(s: Schedule, t: nat, k: nat)
    requires k <= |s.amounts|
    requires forall i :: 0 <= i < k ==> s.timestamps[i] <= t
    requires forall i :: k <= i < |s.amounts| ==> t < s.timestamps[i]
    ensures Curve(s, t) == Sum(s.amounts[..k])
    decreases |s.amounts|
  {
    if s.amounts != [] {
      CurveSteps(Tail(s), t, if k == 0 then 0 else k - 1);
      assert k > 0 ==> s.amounts[..k][1..] == Tail(s).amounts[..k - 1];
    }
  }

  lemma {:induction false} CurveMonotone(s: Schedule, t: nat, u: nat)
    requires t <= u
    ensures Curve(s, t) <= Curve(s, u)
    decreases |s.amounts|
  {
    if s.amounts != [] {
      CurveMonotone(Tail(s), t, u);
    }
  }

  /** Once every timestamp has passed, the whole sum is due. */
  lemma {:induction false} CurveComplete(s: Schedule, t: nat)
    requires forall i :: 0 <= i < |s.timestamps| ==> s.timestamps[i] <= t
    ensures Curve(s, t) == Vested(s, t) == Sum(s.amounts)
    decreases |s.amounts|
  {
    if s.amounts != [] {
      CurveComplete(Tail(s), t);
    }
  }

  // ---------------------------------------------------------------- collecting

  /** What is left of the timestamps is a suffix of them. */
  lemma {:induction false} CollectedSuffix(s: Schedule, now: nat, r: nat)
    ensures var c := Collected(s, now, r);
      && |c.timestamps| <= |s.timestamps|
      && c.timestamps == s.timestamps[|s.timestamps| - |c.timestamps|..]
    decreases |s.amounts|
  {
    if s.amounts != [] && s.timestamps[0] <= now && r > s.amounts[0] {
      CollectedSuffix(Tail(s), now, r - s.amounts[0]);
      var c := Collected(s, now, r);
      var dropped := |s.timestamps| - |c.timestamps|;
      assert s.timestamps[1..][dropped - 1..] == s.timestamps[dropped..];
    }
  }

  lemma {:induction false} CollectedSums(s: Schedule, now: nat, r: nat)
    requires r <= Vested(s, now)
    ensures var c := Collected(s, now, r);
      && Sum(c.amounts) == Sum(s.amounts) - r
      && Vested(c, now) == Vested(s, now) - r
    decreases |s.amounts|
  {
    if s.amounts != [] && s.timestamps[0] <= now {
      if r < s.amounts[0] {
        var c := Collected(s, now, r);
        assert c.amounts[1..] == s.amounts[1..];
        assert Tail(c) == Tail(s);
      } else if r > s.amounts[0] {
        CollectedSums(Tail(s), now, r - s.amounts[0]);
      }
    }
  }

  lemma {:induction false} CollectedPositive(s: Schedule, now: nat, r: nat)
    requires Positive(s)
    ensures Positive(Collected(s, now, r))
    decreases |s.amounts|
  {
    if s.amounts != [] && s.timestamps[0] <= now && r > s.amounts[0] {
      CollectedPositive(Tail(s), now, r - s.amounts[0]);
    }
  }

  /** A collection keeps the schedule sorted and positive and removes exactly `r` from its total. */
  lemma CollectedShape(s: Schedule, now: nat, r: nat)
    requires Sorted(s)
    requires r <= Vested(s, now)
    ensures var c := Collected(s, now, r);
      && Sorted(c)
      && Sum(c.amounts) == Sum(s.amounts) - r
      && Vested(c, now) == Vested(s, now) - r
      && |c.timestamps| <= |s.timestamps|
      && c.timestamps == s.timestamps[|s.timestamps| - |c.timestamps|..]
      && (Positive(s) ==> Positive(c))
  {
    hide Collected, Vested, Sum;
    CollectedSuffix(s, now, r);
    CollectedSums(s, now, r);
    if Positive(s) {
      CollectedPositive(s, now, r);
    }
  }

  /**
    Curve shift: a collection of `r` lowers the curve by `r` at every time, past or future,
    and never below zero.
   */
  lemma {:induction false} CurveShift(s: Schedule, now: nat, r: nat, t: nat)
    requires Sorted(s)
    requires r <= Vested(s, now)
    ensures Curve(Collected(s, now, r), t) == Max(0, Curve(s, t) - r)
    decreases |s.amounts|
  {
    if s.amounts != [] && s.timestamps[0] <= now {
      if t < s.timestamps[0] {
        CurveBeforeStart(s, t);
        CurveBeforeStart(Tail(s), t);
      }
      if r < s.amounts[0] {
        assert Tail(Collected(s, now, r)) == Tail(s);
      } else if r > s.amounts[0] {
        CurveShift(Tail(s), now, r - s.amounts[0], t);
      }
    }
  }

  /**
    The curve says everything: two sorted schedules with positive amounts and the same curve are
    the same schedule. With `CurveShift` this makes the stored result of a collection unique.
   */
  lemma {:induction false} CurveDetermines(s: Schedule, u: Schedule)
    requires Sorted(s) && Positive(s) && Sorted(u) && Positive(u)
    requires forall t: nat :: Curve(s, t) == Curve(u, t)
    ensures s == u
    decreases |s.amounts|
  {
    if s.amounts == [] || u.amounts == [] {
      if s.amounts != [] {
        CurveHead(s);
      } else if u.amounts != [] {
        CurveHead(u);
      }
    } else {
      CurveHead(s);
      CurveHead(u);
      var first := Min(s.timestamps[0], u.timestamps[0]);
      assert Curve(s, first) == Curve(u, first);
      if first < s.timestamps[0] {
        CurveBeforeStart(s, first);
      }
      if first < u.timestamps[0] {
        CurveBeforeStart(u, first);
      }
      forall t: nat
        ensures Curve(Tail(s), t) == Curve(Tail(u), t)
      {
        assert Curve(s, t) == Curve(u, t);
      }
      CurveDetermines(Tail(s), Tail(u));
      assert s.timestamps == [s.timestamps[0]] + Tail(s).timestamps;
      assert u.timestamps == [u.timestamps[0]] + Tail(u).timestamps;
      assert s.amounts == [s.amounts[0]] + Tail(s).amounts;
      assert u.amounts == [u.amounts[0]] + Tail(u).amounts;
    }
  }

  lemma CurveHead(s: Schedule)
    requires Sorted(s) && s.amounts != []
    ensures Curve(s, s.timestamps[0]) == s.amounts[0]
  {
    CurveBeforeStart(Tail(s), s.timestamps[0]);
  }

  /** Collecting everything that will ever be due empties the schedule. */
  lemma {:induction false} CollectAllEmpties(s: Schedule, now: nat)
    requires Positive(s)
    requires forall i :: 0 <= i < |s.timestamps| ==> s.timestamps[i] <= now
    ensures Collected(s, now, Sum(s.amounts)) == EMPTY
    decreases |s.amounts|
  {
    if s.amounts != [] {
      CollectAllEmpties(Tail(s), now);
      if Tail(s).amounts != [] {
        assert Tail(s).amounts[0] == s.amounts[1];
      }
    }
  }

  // ---------------------------------------------------------------- consuming

  /** With positive amounts the time of a successful collection leaves no trace. */
  lemma {:induction false} CollectedIsConsume(s: Schedule, now: nat, r: nat)
    requires Positive(s)
    requires r <= Vested(s, now)
    ensures Collected(s, now, r) == Consume(s, r)
    decreases |s.amounts|
  {
    if s.amounts != [] && s.timestamps[0] <= now {
      if r == 0 {
        assert [s.amounts[0] - r] + s.amounts[1..] == s.amounts;
      } else if r > s.amounts[0] {
        CollectedIsConsume(Tail(s), now, r - s.amounts[0]);
      }
    }
  }

  lemma {:induction false} ConsumeTwice(s: Schedule, r1: nat, r2: nat)
    requires Positive(s)
    requires r1 + r2 <= Sum(s.amounts)
    ensures Consume(Consume(s, r1), r2) == Consume(s, r1 + r2)
    decreases |s.amounts|
  {
    if s.amounts != [] && 0 < r1 {
      if r1 < s.amounts[0] {
        var c := Consume(s, r1);
        assert Tail(c) == Tail(s);
        assert c.amounts[1..] == s.amounts[1..];
      } else {
        ConsumeTwice(Tail(s), r1 - s.amounts[0], r2);
      }
    }
  }

  /** What is left after consuming `r`: a suffix of the original whose head alone may be smaller. */
  lemma {:induction false} ConsumeShape(s: Schedule, r: nat)
    requires Sorted(s) && Positive(s)
    requires r <= Sum(s.amounts)
    ensures var c := Consume(s, r);
      var dropped := |s.amounts| - |c.amounts|;
      && 0 <= dropped
      && c.timestamps == s.timestamps[dropped..]
      && (c.amounts != [] ==>
            && 0 < c.amounts[0] <= s.amounts[dropped]
            && c.amounts[1..] == s.amounts[dropped + 1..])
      && Sorted(c) && Positive(c)
      && Sum(c.amounts) == Sum(s.amounts) - r
    decreases |s.amounts|
  {
    if s.amounts != [] && 0 < r {
      if r < s.amounts[0] {
        assert Consume(s, r).amounts[1..] == s.amounts[1..];
      } else {
        ConsumeShape(Tail(s), r - s.amounts[0]);
      }
    }
  }

  /** Overflow aside, collecting `r1` and later `r2` is collecting `r1 + r2` at the later time. */
  lemma SplitIsSingle(s: Schedule, t1: nat, r1: nat, t2: nat, r2: nat)
    requires Sorted(s) && Positive(s)
    requires t1 <= t2
    requires r1 <= Vested(s, t1)
    ensures var c := Collected(s, t1, r1);
      && (r2 <= Vested(c, t2) <==> r1 + r2 <= Vested(s, t2))
      && (r2 <= Vested(c, t2) ==> Collected(c, t2, r2) == Collected(s, t2, r1 + r2))
  {
    hide Collected, Consume, Curve, Vested, Sum;
    var c := Collected(s, t1, r1);
    CollectedShape(s, t1, r1);
    VestedIsCurve(c, t2);
    VestedIsCurve(s, t1);
    VestedIsCurve(s, t2);
    CurveMonotone(s, t1, t2);
    CurveShift(s, t1, r1, t2);
    if r2 <= Vested(c, t2) {
      CollectedIsConsume(s, t1, r1);
      CollectedIsConsume(c, t2, r2);
      CollectedIsConsume(s, t2, r1 + r2);
      VestedBounds(s, t2);
      ConsumeTwice(s, r1, r2);
    }
  }

  // ---------------------------------------------------------------- 128-bit arithmetic

  /** Below half of the range no request can make the walk overflow. */
  lemma {:induction false} NoOverflowBelowHalf(s: Schedule, now: nat, vested: nat, r: nat)
    requires 2 * (vested + Sum(s.amounts)) < U128_LIMIT
    ensures !Overflows(s, now, vested, r)
    decreases |s.amounts|
  {
    if s.amounts != [] && s.timestamps[0] <= now {
      NoOverflowBelowHalf(Tail(s), now, vested + s.amounts[0], r);
    }
  }

  /** The running total up to and including entry `k`. */
  ghost function Through(s: Schedule, k: nat): nat
    requires k < |s.amounts|
  {
    Sum(s.amounts[..k + 1])
  }

  /** The entry that reaches the request, added to the request, fits 128 bits. */
  ghost predicate LastSumFits(s: Schedule, now: nat, r: nat) {
    forall k: nat :: ReachedAt(s, now, r, k) ==> s.amounts[k] + r < U128_LIMIT
  }

  /** The entry at which the running total first reaches `r`, among those due at `now`. */
  ghost predicate ReachedAt(s: Schedule, now: nat, r: nat, k: nat) {
    && k < |s.amounts|
    && (forall i :: 0 <= i <= k ==> s.timestamps[i] <= now)
    && Through(s, k) >= r
    && (forall i :: 0 <= i < k ==> Through(s, i) < r)
  }

  /**
    For a schedule whose total fits 128 bits the walk aborts exactly when the entry that reaches
    the request, added to the request, does not fit.
   */
  lemma OverflowExactly(s: Schedule, now: nat, r: nat)
    requires Sum(s.amounts) < U128_LIMIT
    ensures Overflows(s, now, 0, r) <==> !LastSumFits(s, now, r)
  {
    if s.amounts != [] {
      assert s.amounts[..0] == [];
      assert From(s, 0) == s;
    }
    OverflowFrom(s, now, r, 0);
  }

  lemma {:induction false} OverflowFrom(s: Schedule, now: nat, r: nat, k: nat)
    requires Sum(s.amounts) < U128_LIMIT
    requires k <= |s.amounts|
    requires forall i :: 0 <= i < k ==> s.timestamps[i] <= now
    requires forall i :: 0 <= i < k ==> Through(s, i) < r
    ensures Overflows(From(s, k), now, Sum(s.amounts[..k]), r) <==>
            exists j: nat :: ReachedAt(s, now, r, j) && s.amounts[j] + r >= U128_LIMIT
    decreases |s.amounts| - k
  {
    hide Sum;
    if k < |s.amounts| && s.timestamps[k] <= now {
      SumSnoc(s.amounts, k);
      SumSplit(s.amounts, k + 1);
      assert Tail(From(s, k)) == From(s, k + 1);
      if Through(s, k) >= r {
        assert ReachedAt(s, now, r, k);
        forall j: nat | ReachedAt(s, now, r, j)
          ensures j == k
        {
        }
      } else {
        OverflowFrom(s, now, r, k + 1);
      }
    } else {
      forall j: nat | ReachedAt(s, now, r, j)
        ensures false
      {
      }
    }
  }

  /** A request that is covered can still abort: the last sum of the walk may not fit 128 bits. */
  lemma OverflowExample()
    ensures var s: Schedule := Schedule([1], [340282366920938463463374607431768211455]);
      1 <= Vested(s, 1) && Collect(s, 1, 1) == Err(Overflow)
  {
    var s: Schedule := Schedule([1], [U128_LIMIT - 1]);
    assert Tail(s) == EMPTY;
  }

  /** When everything is due, a request for all of it is reached by the last entry. */
  lemma AllDueLastSum(s: Schedule, now: nat)
    requires Positive(s)
    requires forall i :: 0 <= i < |s.timestamps| ==> s.timestamps[i] <= now
    requires Sum(s.amounts) < U128_LIMIT
    ensures LastSumFits(s, now, Sum(s.amounts)) <==>
            s.amounts == [] || s.amounts[|s.amounts| - 1] + Sum(s.amounts) < U128_LIMIT
  {
    if s.amounts != [] {
      var last := |s.amounts| - 1;
      var r := Sum(s.amounts);
      assert s.amounts[..last + 1] == s.amounts;
      forall i: nat | i < last
        ensures Through(s, i) < r
      {
        SumSplit(s.amounts, i + 1);
        assert s.amounts[i + 1..][0] > 0;
      }
      assert ReachedAt(s, now, r, last);
    }
  }

  // ---------------------------------------------------------------- history independence

  /** A walk that starts lower and asks for less, by the same amount, aborts no earlier. */
  lemma {:induction false} LowerWalk(s: Schedule, now: nat, v: nat, r: nat, d: nat)
    requires !Overflows(s, now, v + d, r + d)
    ensures !Overflows(s, now, v, r)
    decreases |s.amounts|
  {
    if s.amounts != [] && s.timestamps[0] <= now && v + s.amounts[0] < r {
      LowerWalk(Tail(s), now, v + s.amounts[0], r, d);
    }
  }

  /** If a single collection does not abort, neither does the second of two that add up to it. */
  lemma {:induction false} SecondHalfFits(s: Schedule, t1: nat, r1: nat, t2: nat, r2: nat, v: nat)
    requires t1 <= t2
    requires Sum(s.amounts) < U128_LIMIT
    requires r1 <= Vested(s, t1)
    requires !Overflows(s, t2, v, v + r1 + r2)
    ensures !Overflows(Collected(s, t1, r1), t2, 0, r2)
    decreases |s.amounts|
  {
    if s.amounts == [] || s.timestamps[0] > t1 {
      LowerWalk(s, t2, 0, r2, v);
    } else {
      var a, rest := s.amounts[0], Tail(s);
      if r1 > a {
        SecondHalfFits(rest, t1, r1 - a, t2, r2, v + a);
      } else if a < r1 + r2 {
        LowerWalk(rest, t2, a - r1, r2, v + r1);
        assert Tail(s.(amounts := [a - r1] + s.amounts[1..])) == rest;
      }
    }
  }

  /**
    History independence: collecting `r1` and later `r2` leaves what one collection of `r1 + r2`
    at the later time leaves. Whenever the single collection is granted the split one is, with
    the same result. The converse holds exactly when the last sum of the single walk fits, and
    always for a total below 2^127; then refusals agree as well.
   */
  lemma HistoryIndependence(s: Schedule, t1: nat, r1: nat, t2: nat, r2: nat)
    requires Sorted(s) && Positive(s)
    requires Sum(s.amounts) < U128_LIMIT
    requires t1 <= t2
    requires Collect(s, t1, r1).Ok?
    ensures var split := Collect(Collect(s, t1, r1).value, t2, r2);
      var single := Collect(s, t2, r1 + r2);
      && (single.Ok? ==> split == single)
      && (split.Ok? ==> (single.Ok? <==> LastSumFits(s, t2, r1 + r2)))
      && (2 * Sum(s.amounts) < U128_LIMIT ==> split == single)
  {
    hide Collected, Vested, Overflows, LastSumFits, Sum;
    SplitIsSingle(s, t1, r1, t2, r2);
    OverflowExactly(s, t2, r1 + r2);
    if !Overflows(s, t2, 0, r1 + r2) {
      SecondHalfFits(s, t1, r1, t2, r2, 0);
    }
    if 2 * Sum(s.amounts) < U128_LIMIT {
      CollectedShape(s, t1, r1);
      NoOverflowBelowHalf(s, t2, 0, r1 + r2);
      NoOverflowBelowHalf(Collected(s, t1, r1), t2, 0, r2);
    }
  }

  /** Two collections that are granted although the single one aborts. */
  lemma SplitAvoidsOverflow()
    ensures var half := U128_LIMIT / 2;
      var s: Schedule := Schedule([1, 2], [half, half - 1]);
      var first := Collect(s, 1, half - 1);
      && Sum(s.amounts) < U128_LIMIT
      && first.Ok?
      && Collect(first.value, 2, 2).Ok?
      && Collect(s, 2, half + 1) == Err(Overflow)
  {
    var half: nat := U128_LIMIT / 2;
    var s: Schedule := Schedule([1, 2], [half, half - 1]);
    var c: Schedule := Schedule([1, 2], [1, half - 1]);
    var rest: Schedule := Schedule([2], [half - 1]);
    assert Tail(s) == rest == Tail(c) && Tail(rest) == EMPTY;
    assert Sum(s.amounts) == half + Sum(rest.amounts) && Sum(rest.amounts) == half - 1 + Sum([]);
    assert Vested(s, 1) == half + Vested(rest, 1) && Vested(rest, 1) == 0;
    assert Vested(c, 2) == 1 + Vested(rest, 2) && Vested(rest, 2) == half - 1 + Vested(EMPTY, 2);
    assert Collected(s, 1, half - 1) == c;
    assert Overflows(rest, 2, half, half + 1);
    assert Overflows(s, 2, 0, half + 1);
    assert !Overflows(rest, 2, 1, 2);
    assert !Overflows(c, 2, 0, 2);
  }

  // ---------------------------------------------------------------- wrapping builds

  function WrappingAdd(a: nat, b: nat): nat {
    (a + b) % U128_LIMIT
  }

  function WrappingSub(a: nat, b: nat): nat {
    (a - b) % U128_LIMIT
  }

  /**
    A build whose 128-bit operations wrap around instead of aborting still takes the right amount
    off the entry that reaches the request: what remains of it is smaller, never zero, and exact.
   */
  lemma WrappedCutIsExact(amount: nat, vested: nat, r: nat)
    requires vested + amount < U128_LIMIT
    requires vested < r < vested + amount || vested == 0 == r < amount
    ensures var cut := WrappingSub(WrappingAdd(amount, r), WrappingAdd(vested, amount));
      cut == r - vested && 0 < amount - cut
  {
    assert amount + r < 2 * U128_LIMIT;
    if amount + r >= U128_LIMIT {
      assert WrappingAdd(amount, r) == amount + r - U128_LIMIT;
      var d := amount + r - U128_LIMIT - (vested + amount);
      assert d == r - vested - U128_LIMIT;
      assert d % U128_LIMIT == d + U128_LIMIT;
    }
  }

  lemma WrappingSubExact(a: nat, b: nat)
    requires b <= a < U128_LIMIT
    ensures WrappingSub(a, b) == a - b
  {
  }

  /**
    The walk of a build whose additions and subtractions wrap around, from a running total of
    `vested`: the schedule it stores, or nothing if it refuses.
   */
  function WrappingCollect(s: Schedule, now: nat, vested: nat, r: nat): Option<Schedule>
    decreases |s.amounts|
  {
    if s.amounts == [] || s.timestamps[0] > now then
      if vested < r then None else Some(s)
    else
      var next := WrappingAdd(vested, s.amounts[0]);
      if next < r then WrappingCollect(Tail(s), now, next, r)
      else if next == r then Some(Tail(s))
      else
        var cut := WrappingSub(WrappingAdd(s.amounts[0], r), next);
        Some(s.(amounts := [WrappingSub(s.amounts[0], cut)] + s.amounts[1..]))
  }

  /**
    For totals within 128 bits the wrapping build is exact: it grants a request exactly when that
    much is vested, and stores the collected schedule.
   */
  lemma WrappingCollectIsExact(s: Schedule, now: nat, r: nat)
    requires Sum(s.amounts) < U128_LIMIT
    ensures WrappingCollect(s, now, 0, r) ==
            if r <= Vested(s, now) then Some(Collected(s, now, r)) else None
  {
    WrappingCollectFrom(s, now, 0, r);
  }

  lemma {:induction false} WrappingCollectFrom(s: Schedule, now: nat, v: nat, r: nat)
    requires v + Sum(s.amounts) < U128_LIMIT
    requires v < r || v == r == 0
    ensures WrappingCollect(s, now, v, r) ==
            if r - v <= Vested(s, now) then Some(Collected(s, now, r - v)) else None
    decreases |s.amounts|
  {
    hide WrappingSub;
    if s.amounts != [] && s.timestamps[0] <= now {
      var a := s.amounts[0];
      assert WrappingAdd(v, a) == v + a;
      if v + a < r {
        WrappingCollectFrom(Tail(s), now, v + a, r);
      } else if v + a > r {
        WrappedCutIsExact(a, v, r);
        WrappingSubExact(a, r - v);
      }
    }
  }
}
