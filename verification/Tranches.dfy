/** The vesting plan offered at instantiation, and the check it must pass. */
module Tranches {
  import opened Schedules
  import opened Sums
  import opened Types

  const HUNDRED_YEARS_IN_SECONDS: nat := 100 * 365 * 24 * 60 * 60

  datatype Tranche = Tranche(
    denom: string,
    timestamps: seq<nat>,
    amounts: seq<nat>,
    unlockAddress: Addr,
    rewardAddress: Addr)

  predicate InWindow(t: nat, now: nat) {
    now <= t && t / NANOS_PER_SECOND <= now / NANOS_PER_SECOND + HUNDRED_YEARS_IN_SECONDS
  }

  ghost predicate TimestampsAcceptable(timestamps: seq<nat>, now: nat) {
    && (forall i :: 0 <= i < |timestamps| ==> 0 < timestamps[i] && InWindow(timestamps[i], now))
    && (forall i, j :: 0 <= i < j < |timestamps| ==> timestamps[i] < timestamps[j])
  }

  ghost predicate Acceptable(t: Tranche, now: nat, funds: seq<Coin>) {
    && |t.amounts| == |t.timestamps|
    && t.amounts != []
    && (forall i :: 0 <= i < |t.amounts| ==> 0 < t.amounts[i])
    && Sum(t.amounts) <= Sum(InDenom(funds, t.denom)) < U128_LIMIT
    && TimestampsAcceptable(t.timestamps, now)
  }

  /** What an error says about the plan. */
  ghost predicate Blame(e: Error, t: Tranche, now: nat, funds: seq<Coin>) {
    match e
    case InvalidTranche(MismatchedLengths) => |t.amounts| != |t.timestamps|
    case InvalidTranche(NothingToVest) => t.amounts == [] == t.timestamps
    case InvalidTranche(ZeroAmount) => 0 in t.amounts
    case InvalidTranche(InsufficientDeposit) => Sum(t.amounts) > Sum(InDenom(funds, t.denom))
    case InvalidTranche(NotIncreasing) =>
      exists i :: 0 <= i < |t.timestamps| && t.timestamps[i] <= (if i == 0 then 0 else t.timestamps[i - 1])
    case InvalidTranche(BeforeNow) => exists i :: 0 <= i < |t.timestamps| && t.timestamps[i] < now
    case InvalidTranche(TooFarAhead) =>
      exists i :: 0 <= i < |t.timestamps| && now <= t.timestamps[i] && !InWindow(t.timestamps[i], now)
    case Overflow => Sum(t.amounts) >= U128_LIMIT || Sum(InDenom(funds, t.denom)) >= U128_LIMIT
    case _ => false
  }

  lemma PrefixAtMost(amounts: seq<nat>, k: nat)
    requires k <= |amounts|
    ensures Sum(amounts[..k]) <= Sum(amounts)
  {
    SumSplit(amounts, k);
  }

  lemma NoDepositNoPlan(t: Tranche, now: nat, funds: seq<Coin>)
    ensures (forall c :: c in funds ==> c.denom != t.denom) ==> !Acceptable(t, now, funds)
  {
    if forall c :: c in funds ==> c.denom != t.denom {
      SumZeros(InDenom(funds, t.denom));
    }
  }

  /**
    A plan is accepted exactly if it has as many amounts as times and at least one, all amounts are
    positive, the coins deposited in its denomination add up to 128 bits at most and cover it, and
    the times follow each other from now on, the last at most 3,153,600,000 whole seconds ahead.
   */
  lemma AcceptedExactly(t: Tranche, now: nat, funds: seq<Coin>)
    ensures Acceptable(t, now, funds) <==>
            && |t.amounts| == |t.timestamps| && t.amounts != [] && 0 !in t.amounts
            && Sum(t.amounts) <= Sum(CoinAmounts(Only(funds, t.denom)))
            && Sum(CoinAmounts(Only(funds, t.denom))) < 0x1_0000_0000_0000_0000_0000_0000_0000_0000
            && 0 < t.timestamps[0] && now <= t.timestamps[0]
            && (forall i :: 0 < i < |t.timestamps| ==> t.timestamps[i - 1] < t.timestamps[i])
            && t.timestamps[|t.timestamps| - 1] / 1_000_000_000 <= now / 1_000_000_000 + 3_153_600_000
  {
    hide Sum, Only, CoinAmounts, InDenom;
    SumInDenom(funds, t.denom);
    if |t.amounts| == |t.timestamps| && t.amounts != [] {
      if forall i :: 0 < i < |t.timestamps| ==> t.timestamps[i - 1] < t.timestamps[i] {
        IncreasingIsSorted(t.timestamps);
      }
    }
  }

  lemma {:induction false} IncreasingIsSorted(ts: seq<nat>)
    requires forall i :: 0 < i < |ts| ==> ts[i - 1] < ts[i]
    ensures forall i, j :: 0 <= i < j < |ts| ==> ts[i] < ts[j]
  {
    if ts != [] {
      var n := |ts| - 1;
      IncreasingIsSorted(ts[..n]);
      forall i, j | 0 <= i < j < |ts|
        ensures ts[i] < ts[j]
      {
        if j == n && i < n - 1 {
          assert ts[..n][i] < ts[..n][n - 1];
        }
      }
    }
  }

  /** Accepts exactly the acceptable plans, and blames a refused one truthfully. */
  method Validate(t: Tranche, now: nat, funds: seq<Coin>) returns (res: Result<()>)
    ensures res.Ok? <==> Acceptable(t, now, funds)
    ensures res.Err? ==> Blame(res.error, t, now, funds)
    ensures (forall c :: c in funds ==> c.denom != t.denom) ==> res.Err?
    ensures res == Err(InvalidTranche(MismatchedLengths)) <==> |t.amounts| != |t.timestamps|
    ensures res == Err(InvalidTranche(NothingToVest)) <==> t.amounts == [] == t.timestamps
    ensures res == Err(InvalidTranche(InsufficientDeposit)) <==>
              && |t.amounts| == |t.timestamps| && t.amounts != [] && 0 !in t.amounts
              && Sum(t.amounts) < U128_LIMIT
              && Sum(CoinAmounts(Only(funds, t.denom))) < U128_LIMIT
              && Sum(CoinAmounts(Only(funds, t.denom))) < Sum(t.amounts)
  {
    hide Only, CoinAmounts, Sum, TimestampsAcceptable;
    SumNone();
    SumInDenom(funds, t.denom);
    NoDepositNoPlan(t, now, funds);
    if |t.amounts| != |t.timestamps| {
      return Err(InvalidTranche(MismatchedLengths));
    }
    if |t.amounts| == 0 {
      return Err(InvalidTranche(NothingToVest));
    }
    var totalVestingAmount: nat := 0;
    for i := 0 to |t.amounts|
      invariant totalVestingAmount == Sum(t.amounts[..i]) < U128_LIMIT
      invariant forall k :: 0 <= k < i ==> 0 < t.amounts[k]
    {
      if t.amounts[i] == 0 {
        return Err(InvalidTranche(ZeroAmount));
      }
      SumSnoc(t.amounts, i);
      PrefixAtMost(t.amounts, i + 1);
      if totalVestingAmount + t.amounts[i] >= U128_LIMIT {
        return Err(Overflow);
      }
      totalVestingAmount := totalVestingAmount + t.amounts[i];
    }
    assert t.amounts[..|t.amounts|] == t.amounts;
    var depositedAmount := 0;
    ghost var deposits := InDenom(funds, t.denom);
    for i := 0 to |funds|
      invariant depositedAmount == Sum(deposits[..i]) < U128_LIMIT
    {
      SumSnoc(deposits, i);
      PrefixAtMost(deposits, i + 1);
      if funds[i].denom == t.denom {
        if depositedAmount + funds[i].amount >= U128_LIMIT {
          return Err(Overflow);
        }
        depositedAmount := depositedAmount + funds[i].amount;
      }
    }
    assert deposits[..|deposits|] == deposits;
    if totalVestingAmount > depositedAmount {
      return Err(InvalidTranche(InsufficientDeposit));
    }
    res := ValidateTimestamps(t, now, funds);
  }

  method ValidateTimestamps(t: Tranche, now: nat, ghost funds: seq<Coin>) returns (res: Result<()>)
    ensures res.Ok? <==> TimestampsAcceptable(t.timestamps, now)
    ensures res.Err? ==> Blame(res.error, t, now, funds)
  {
    var last := 0;
    for i := 0 to |t.timestamps|
      invariant last == if i == 0 then 0 else t.timestamps[i - 1]
      invariant TimestampsAcceptable(t.timestamps[..i], now)
    {
      var ts := t.timestamps[i];
      if ts <= last {
        return Err(InvalidTranche(NotIncreasing));
      }
      if ts < now {
        return Err(InvalidTranche(BeforeNow));
      }
      if ts / NANOS_PER_SECOND > now / NANOS_PER_SECOND + HUNDRED_YEARS_IN_SECONDS {
        return Err(InvalidTranche(TooFarAhead));
      }
      last := ts;
      assert forall k :: 0 <= k < i ==> t.timestamps[..i][k] == t.timestamps[k];
    }
    assert t.timestamps[..|t.timestamps|] == t.timestamps;
    return Ok(());
  }

  // ---------------------------------------------------------------- wrapping builds

  /** A running total of `total`, to which `amounts` are added one after the other, wrapping around. */
  function WrappingSum(total: nat, amounts: seq<nat>): nat
    decreases |amounts|
  {
    if amounts == [] then total else WrappingSum(WrappingAdd(total, amounts[0]), amounts[1..])
  }

  lemma {:induction false} WrappingSumIsRemainder(total: nat, amounts: seq<nat>)
    requires total < U128_LIMIT
    ensures WrappingSum(total, amounts) == (total + Sum(amounts)) % U128_LIMIT
    decreases |amounts|
  {
    if amounts != [] {
      WrappingSumIsRemainder(WrappingAdd(total, amounts[0]), amounts[1..]);
    }
  }

  /** What a build whose additions wrap around accepts. */
  ghost predicate WrappingAcceptable(t: Tranche, now: nat, funds: seq<Coin>) {
    && |t.amounts| == |t.timestamps|
    && t.amounts != []
    && (forall i :: 0 <= i < |t.amounts| ==> 0 < t.amounts[i])
    && WrappingSum(0, t.amounts) <= WrappingSum(0, InDenom(funds, t.denom))
    && TimestampsAcceptable(t.timestamps, now)
  }

  /**
    What wrapping checks accept is acceptable exactly when both sums fit 128 bits, and they refuse
    nothing acceptable.
   */
  lemma WrappingValidation(t: Tranche, now: nat, funds: seq<Coin>)
    ensures Acceptable(t, now, funds) <==>
            && WrappingAcceptable(t, now, funds)
            && Sum(t.amounts) < U128_LIMIT
            && Sum(InDenom(funds, t.denom)) < U128_LIMIT
  {
    hide Sum, InDenom, WrappingSum, TimestampsAcceptable;
    WrappingSumIsRemainder(0, t.amounts);
    WrappingSumIsRemainder(0, InDenom(funds, t.denom));
  }

  /** A deposit of one token is then enough for a plan that promises more than 2^128, counted as one. */
  lemma WrappingExample(t: Tranche, now: nat, funds: seq<Coin>)
    requires t.amounts == [U128_LIMIT - 1, 2] && funds == [Coin(t.denom, 1)]
    requires |t.timestamps| == 2 && TimestampsAcceptable(t.timestamps, now)
    ensures WrappingAcceptable(t, now, funds) && WrappingSum(0, t.amounts) == 1
    ensures !Acceptable(t, now, funds)
  {
    assert t.amounts[1..] == [2];
    assert InDenom(funds, t.denom) == [1];
    assert WrappingSum(0, [1]) == WrappingSum(1, []);
    assert WrappingSum(U128_LIMIT - 1, [2]) == WrappingSum(1, []);
  }

  // ---------------------------------------------------------------- the plan

  function PlanOf(t: Tranche): Schedule
    requires |t.timestamps| == |t.amounts|
  {
    Schedule(t.timestamps, t.amounts)
  }

  /** One second past the longest permitted span. */
  function Horizon(now: nat): nat {
    now + (HUNDRED_YEARS_IN_SECONDS + 1) * NANOS_PER_SECOND
  }

  /**
    An accepted plan is a sorted schedule of positive amounts. By its horizon all of it is due,
    and a request for the whole total is granted and leaves nothing, provided the one sum of
    the walk that can overflow, the last entry plus the request, does not.
   */
  lemma AcceptedPlanCompletes(t: Tranche, now: nat, funds: seq<Coin>, later: nat)
    requires Acceptable(t, now, funds)
    requires Horizon(now) <= later
    ensures var s := PlanOf(t);
      && Sorted(s) && Positive(s)
      && Vested(s, later) == Curve(s, later) == Sum(t.amounts)
      && Collected(s, later, Sum(t.amounts)) == EMPTY
      && (t.amounts[|t.amounts| - 1] + Sum(t.amounts) < U128_LIMIT
          <==> Collect(s, later, Sum(t.amounts)) == Ok(EMPTY))
  {
    var s := PlanOf(t);
    forall i | 0 <= i < |t.timestamps|
      ensures t.timestamps[i] <= later
    {
      assert InWindow(t.timestamps[i], now);
    }
    CurveComplete(s, later);
    CollectAllEmpties(s, later);
    OverflowExactly(s, later, Sum(t.amounts));
    AllDueLastSum(s, later);
  }
}
