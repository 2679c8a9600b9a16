/** The vesting walks over the stored vectors. */
module Vesting {
  import opened Schedules
  import opened State
  import opened Types

  /** The schedule without its first `first` entries, and with `cut` taken off the next one. */
  function Remaining(s: Schedule, first: nat, cut: nat): Schedule
    requires first <= |s.amounts|
    requires 0 < cut ==> first < |s.amounts| && cut < s.amounts[first]
  {
    var rest := From(s, first);
    if cut == 0 then rest else rest.(amounts := rest.amounts[0 := rest.amounts[0] - cut])
  }

  /** The walk stands before entry `i` with `v` added up and the request not yet reached. */
  ghost predicate Reaching(s: Schedule, now: nat, r: nat, i: nat, v: nat) {
    && i <= |s.amounts| && v <= r
    && v + Vested(From(s, i), now) == Vested(s, now)
    && Overflows(s, now, 0, r) == Overflows(From(s, i), now, v, r)
    && Collected(s, now, r) == Collected(From(s, i), now, r - v)
  }

  lemma WalkStarts(s: Schedule, now: nat, r: nat)
    ensures Reaching(s, now, r, 0, 0)
  {
  }

  lemma WalkContinues(s: Schedule, now: nat, r: nat, i: nat, v: nat)
    requires Reaching(s, now, r, i, v)
    requires i < |s.amounts| && s.timestamps[i] <= now
    requires v + s.amounts[i] < r && v + s.amounts[i] < U128_LIMIT
    ensures Reaching(s, now, r, i + 1, v + s.amounts[i])
  {
    assert Tail(From(s, i)) == From(s, i + 1);
  }

  lemma WalkReaches(s: Schedule, now: nat, r: nat, i: nat, v: nat)
    requires Reaching(s, now, r, i, v)
    requires i < |s.amounts| && s.timestamps[i] <= now
    requires r <= v + s.amounts[i] < U128_LIMIT
    requires v < r || v == 0
    ensures r <= Vested(s, now)
    ensures Overflows(s, now, 0, r) <==> s.amounts[i] + r >= U128_LIMIT
    ensures Collected(s, now, r) ==
            if v + s.amounts[i] == r then Remaining(s, i + 1, 0)
            else Remaining(s, i, s.amounts[i] + r - (v + s.amounts[i]))
  {
    var rest := From(s, i);
    assert Tail(rest) == From(s, i + 1);
    if v + s.amounts[i] > r {
      var cut := r - v;
      assert [rest.amounts[0] - cut] + rest.amounts[1..] == rest.amounts[0 := rest.amounts[0] - cut];
      if cut == 0 {
        assert rest.amounts[0 := rest.amounts[0] - cut] == rest.amounts;
      }
    }
  }

  /**
    The walk over both vectors: how many entries go, how much is taken off the next one, and how
    much is due in all, capped at the request.
   */
  method Walk(s: Schedule, now: nat, requested: nat)
    returns (aborted: bool, vestedAmount: nat, remainingFirst: nat, amountToSubtract: nat)
    ensures aborted <==> Overflows(s, now, 0, requested)
    ensures !aborted ==> vestedAmount == Min(requested, Vested(s, now))
    ensures !aborted && requested <= Vested(s, now) ==>
        && remainingFirst <= |s.amounts|
        && (0 < amountToSubtract ==>
              remainingFirst < |s.amounts| && amountToSubtract < s.amounts[remainingFirst])
        && Remaining(s, remainingFirst, amountToSubtract) == Collected(s, now, requested)
  {
    var timestamps, amounts := s.timestamps, s.amounts;
    aborted, vestedAmount, amountToSubtract, remainingFirst := false, 0, 0, 0;
    WalkStarts(s, now, requested);
    for i := 0 to |amounts|
      invariant Reaching(s, now, requested, i, vestedAmount)
      invariant !aborted && amountToSubtract == 0 && remainingFirst == i
      invariant vestedAmount < requested || i == vestedAmount == 0
    {
      if timestamps[i] > now {
        break;
      }
      ghost var before := vestedAmount;
      if vestedAmount + amounts[i] >= U128_LIMIT {
        aborted := true;
        return;
      }
      vestedAmount := vestedAmount + amounts[i];
      if vestedAmount >= requested {
        WalkReaches(s, now, requested, i, before);
        if amounts[i] + requested >= U128_LIMIT {
          aborted := true;
          return;
        }
        amountToSubtract := amounts[i] + requested - vestedAmount;
        if vestedAmount == requested {
          remainingFirst := remainingFirst + 1;
          amountToSubtract := 0;
        }
        vestedAmount := requested;
        return;
      }
      WalkContinues(s, now, requested, i, before);
      remainingFirst := i + 1;
    }
  }

  /**
    Take `requested` out of what is vested at `now`. Succeeds exactly when that much is vested
    and no checked addition aborts; on failure nothing stored changes.
   */
  method CollectVested(store: Storage, now: nat, requested: nat) returns (res: Result<nat>)
    requires store.Valid()
    modifies store`vestingTimestamps, store`vestingAmounts
    ensures store.Valid()
    ensures match Collect(old(store.Vesting()), now, requested)
            case Ok(left) => res == Ok(requested) && store.Vesting() == left
            case Err(e) => res == Err(e) && store.Vesting() == old(store.Vesting())
  {
    var timestamps, amounts := store.vestingTimestamps, store.vestingAmounts;
    var aborted, vestedAmount, remainingFirst, amountToSubtract :=
      Walk(Schedule(timestamps, amounts), now, requested);
    if aborted {
      return Err(Overflow);
    }
    if vestedAmount < requested {
      return Err(NoSufficientUnlockedTokens);
    }
    if remainingFirst >= |amounts| {
      store.vestingAmounts := [];
      store.vestingTimestamps := [];
    } else {
      var remainingAmounts := amounts[remainingFirst..];
      if amountToSubtract > 0 {
        remainingAmounts := remainingAmounts[0 := remainingAmounts[0] - amountToSubtract];
      }
      store.vestingAmounts := remainingAmounts;
      store.vestingTimestamps := timestamps[remainingFirst..];
    }
    return Ok(vestedAmount);
  }

  /** What a collection may take at most. */
  method TotalVestedAmount(store: Storage, now: nat) returns (total: nat)
    requires store.Valid()
    ensures total == Vested(store.Vesting(), now)
  {
    ghost var s := store.Vesting();
    total := 0;
    assert From(s, 0) == s;
    for i := 0 to |store.vestingTimestamps|
      invariant total + Vested(From(s, i), now) == Vested(s, now)
    {
      if store.vestingTimestamps[i] <= now {
        assert Tail(From(s, i)) == From(s, i + 1);
        total := total + store.vestingAmounts[i];
      } else {
        break;
      }
    }
  }

  /** A payment of nothing is left out. */
  function Payment(to: Addr, denom: string, amount: nat): seq<CosmosMsg> {
    if amount == 0 then [] else [Send(to, Coin(denom, amount))]
  }

  method DistributeVested(store: Storage, amount: nat, response: seq<CosmosMsg>) returns (res: seq<CosmosMsg>)
    ensures res == response + Payment(store.unlockDistributionAddress, store.denom, amount)
  {
    if amount == 0 {
      return response;
    }
    return response + [Send(store.unlockDistributionAddress, Coin(store.denom, amount))];
  }
}
