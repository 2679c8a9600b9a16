/** What the vault reads from the chain about its stake, and the reward messages it emits. */
module Staking {
  import opened Chains
  import opened State
  import opened Sums
  import opened Types

  function DelegatedValidators(ch: Chain): seq<string> {
    var all := QueryAllDelegations(ch);
    seq(|all|, i requires 0 <= i < |all| => all[i].0)
  }

  /** The rewards a validator owes in `denom`; nothing if there is no delegation. */
  function DelegationRewards(ch: Chain, denom: string, validator: string): nat {
    match QueryDelegation(ch, validator)
    case None => 0
    case Some(d) => Sum(InDenom(d.rewards, denom))
  }

  /** The rewards of a delegation are the plain sum of its reward coins in the denomination. */
  lemma RewardsAreOwn(ch: Chain, denom: string, v: string)
    ensures (forall d :: d in ch.delegations ==> d.validator != v) ==> DelegationRewards(ch, denom, v) == 0
    ensures Distinct(ch.delegations) ==>
              forall d :: d in ch.delegations && d.validator == v ==>
                DelegationRewards(ch, denom, v) == Sum(CoinAmounts(Only(d.rewards, denom)))
  {
    hide Sum, InDenom, CoinAmounts, Only;
    if Distinct(ch.delegations) {
      forall d | d in ch.delegations && d.validator == v
        ensures DelegationRewards(ch, denom, v) == Sum(CoinAmounts(Only(d.rewards, denom)))
      {
        var k :| 0 <= k < |ch.delegations| && ch.delegations[k] == d;
        LookupAt(ch.delegations, k);
        SumInDenom(d.rewards, denom);
      }
    }
  }

  /** A reward that accrues is owed by its validator from then on, in its denomination, and by no other. */
  lemma AccruedRewardIsOwed(ch: Chain, denom: string, v: string, coin: Coin, u: string)
    requires Distinct(ch.delegations)
    ensures var d := QueryDelegation(ch, v);
      DelegationRewards(Happen(ch, AccrueReward(v, coin)), denom, u) ==
      DelegationRewards(ch, denom, u) + (if d.Some? && u == v && coin.denom == denom then coin.amount else 0)
  {
    hide Sum, InDenom;
    var i := Find(ch.delegations, v);
    if i < |ch.delegations| {
      var d := ch.delegations[i];
      LookupUpdate(ch.delegations, i, d.(rewards := d.rewards + [coin]), u);
      SumInDenomAppend(d.rewards, coin, denom);
    }
  }

  method GetDelegationRewards(store: Storage, ch: Chain, validator: string) returns (rewardAmount: nat)
    ensures rewardAmount == DelegationRewards(ch, store.denom, validator)
    ensures (forall d :: d in ch.delegations ==> d.validator != validator) ==> rewardAmount == 0
    ensures Distinct(ch.delegations) ==>
              forall d :: d in ch.delegations && d.validator == validator ==>
                rewardAmount == Sum(CoinAmounts(Only(d.rewards, store.denom)))
  {
    RewardsAreOwn(ch, store.denom, validator);
    var delegation := QueryDelegation(ch, validator);
    if delegation.None? {
      return 0;
    }
    var rewards := delegation.value.rewards;
    ghost var counted := InDenom(rewards, store.denom);
    rewardAmount := 0;
    for i := 0 to |rewards|
      invariant rewardAmount == Sum(counted[..i])
    {
      SumSnoc(counted, i);
      if rewards[i].denom == store.denom {
        rewardAmount := rewardAmount + rewards[i].amount;
      }
    }
    assert counted[..|counted|] == counted;
  }

  /** Ask for a validator's rewards, then pass the amount they were queried at on to `to`. */
  function RewardPair(validator: string, amount: nat, to: Addr, denom: string): seq<CosmosMsg> {
    [WithdrawDelegatorReward(validator), Send(to, Coin(denom, amount))]
  }

  /** The pairs for each of `validators` in turn. */
  function RewardMsgs(ch: Chain, validators: seq<string>, to: Addr, denom: string): seq<CosmosMsg> {
    if validators == [] then []
    else
      var v := validators[|validators| - 1];
      RewardMsgs(ch, validators[..|validators| - 1], to, denom)
        + RewardPair(v, DelegationRewards(ch, denom, v), to, denom)
  }

  function RewardAmounts(ch: Chain, validators: seq<string>, denom: string): seq<nat> {
    seq(|validators|, i requires 0 <= i < |validators| => DelegationRewards(ch, denom, validators[i]))
  }

  /** Message by message: for each validator in order its withdrawal, then the payment of its rewards. */
  lemma {:induction false} RewardMsgsAt(ch: Chain, vs: seq<string>, to: Addr, denom: string, i: nat)
    ensures |RewardMsgs(ch, vs, to, denom)| == 2 * |vs|
    ensures i < |vs| ==>
              && RewardMsgs(ch, vs, to, denom)[2 * i] == WithdrawDelegatorReward(vs[i])
              && RewardMsgs(ch, vs, to, denom)[2 * i + 1] == Send(to, Coin(denom, DelegationRewards(ch, denom, vs[i])))
    decreases |vs|
  {
    hide DelegationRewards;
    if vs != [] {
      RewardMsgsAt(ch, vs[..|vs| - 1], to, denom, i);
    }
  }

  lemma RewardMsgsSnoc(ch: Chain, validators: seq<string>, k: nat, to: Addr, denom: string)
    requires k < |validators|
    ensures var v := validators[k];
      RewardMsgs(ch, validators[..k + 1], to, denom) ==
      RewardMsgs(ch, validators[..k], to, denom) + RewardPair(v, DelegationRewards(ch, denom, v), to, denom)
  {
    assert validators[..k + 1][..k] == validators[..k];
  }
}
