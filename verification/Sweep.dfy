/** The message list of a reward sweep, run on the chain it was computed from. */
module Sweep {
  import opened Chains
  import opened Contract
  import opened Staking
  import opened State
  import opened Sums
  import opened Types
  import opened Vesting

  lemma {:induction false} RunMsgsAppend(ch: Chain, a: seq<CosmosMsg>, b: seq<CosmosMsg>, accept: bool)
    ensures RunMsgs(ch, a + b, accept) ==
            match RunMsgs(ch, a, accept)
            case None => None
            case Some(mid) => RunMsgs(mid, b, accept)
    decreases |a|
  {
    hide RunMsg;
    if a == [] {
      assert a + b == b;
    } else {
      assert (a + b)[1..] == a[1..] + b;
      var next := RunMsg(ch, a[0], accept);
      if next.Some? {
        RunMsgsAppend(next.value, a[1..], b, accept);
      }
    }
  }

  /** A sweep never has the vault call itself. */
  lemma RewardMsgsOnChain(ch: Chain, vs: seq<string>, to: Addr, denom: string)
    ensures forall m :: m in RewardMsgs(ch, vs, to, denom) ==> !m.SelfCall?
  {
  }

  lemma RunPayment(ch: Chain, to: Addr, denom: string, amount: nat, accept: bool)
    ensures RunMsgs(ch, Payment(to, denom, amount), accept) == RunMsg(ch, Send(to, Coin(denom, amount)), accept)
    ensures RunMsgs(ch, [Send(to, Coin(denom, amount))], accept) == RunMsg(ch, Send(to, Coin(denom, amount)), accept)
  {
  }

  lemma FindDistinct(ds: seq<Delegation>, k: nat)
    requires Distinct(ds) && k < |ds|
    ensures Find(ds, ds[k].validator) == k
  {
  }

  /** The delegations after the first `k` have been paid their rewards. */
  function Cleared(ds: seq<Delegation>, k: nat): seq<Delegation> {
    seq(|ds|, i requires 0 <= i < |ds| => if i < k then ds[i].(rewards := []) else ds[i])
  }

  /** `after` is `before` with the first `k` validators withdrawn from and passed on to `to`. */
  ghost predicate PassedOn(before: Chain, after: Chain, k: nat, to: Addr, amount: nat) {
    && after == before.(bank := after.bank, received := after.received, delegations := after.delegations,
                        outbox := after.outbox)
    && after.delegations == Cleared(before.delegations, k)
    && after.bank == before.bank + (if to == before.self then amount else 0)
    && after.received == before.received + amount
    && PaysOnly(before, after, to, amount)
  }

  lemma NothingPassedOn(ch: Chain, to: Addr)
    ensures PassedOn(ch, ch, 0, to, 0)
  {
    assert Cleared(ch.delegations, 0) == ch.delegations;
    assert Fresh(ch, ch) == [];
  }

  /** Withdrawing from validator `k` and sending on what it paid. */
  lemma OnePair(before: Chain, mid: Chain, k: nat, to: Addr, amount: nat, accept: bool)
    requires Distinct(before.delegations)
    requires k < |before.delegations|
    requires PassedOn(before, mid, k, to, amount)
    ensures var pair := RewardPair(before.delegations[k].validator, Pending(before, k), to, before.denom);
      var after := RunMsgs(mid, pair, accept);
      after.Some? && PassedOn(before, after.value, k + 1, to, amount + Pending(before, k))
  {
    var ds := before.delegations;
    var v := ds[k].validator;
    var n := Pending(before, k);
    assert Distinct(mid.delegations);
    assert mid.delegations[k] == ds[k];
    FindDistinct(mid.delegations, k);
    var paid := PayRewards(mid, k);
    assert paid.delegations == Cleared(ds, k + 1);
    var send := Send(to, Coin(before.denom, n));
    var pair := RewardPair(v, n, to, before.denom);
    assert RunMsg(mid, pair[0], accept) == Some(paid);
    var after := RunMsg(paid, send, accept);
    assert after.Some?;
    SendPays(paid, to, n, accept);
    assert PaysOnly(before, paid, to, amount);
    PaysOnlyJoin(before, paid, after.value, to, amount, n);
    assert pair[1..] == [send];
    assert RunMsgs(paid, [send], accept) == after;
  }

  /**
    The pairs never overdraw the bank, whatever the number of validators: each payment is
    covered by the rewards withdrawn just before it.
   */
  lemma {:induction false} PairsRun(queried: Chain, start: Chain, k: nat, to: Addr, accept: bool)
    requires Distinct(queried.delegations)
    requires start == queried.(bank := start.bank, outbox := start.outbox)
    requires k <= |queried.delegations|
    ensures var vs := DelegatedValidators(queried);
      var after := RunMsgs(start, RewardMsgs(queried, vs[..k], to, queried.denom), accept);
      && after.Some?
      && PassedOn(start, after.value, k, to, Sum(RewardAmounts(queried, vs, queried.denom)[..k]))
    decreases k
  {
    hide RewardMsgs, RunMsg, PassedOn;
    var vs := DelegatedValidators(queried);
    var amounts := RewardAmounts(queried, vs, queried.denom);
    if k == 0 {
      NothingPassedOn(start, to);
      WithdrawFromNone(queried, [], to, queried.denom);
    } else {
      var j := k - 1;
      PairsRun(queried, start, j, to, accept);
      var msgs := RewardMsgs(queried, vs[..j], to, queried.denom);
      RewardMsgsSnoc(queried, vs, j, to, queried.denom);
      FindDistinct(queried.delegations, j);
      var n := Pending(start, j);
      assert DelegationRewards(queried, queried.denom, vs[j]) == n;
      RunMsgsAppend(start, msgs, RewardPair(vs[j], n, to, queried.denom), accept);
      OnePair(start, RunMsgs(start, msgs, accept).value, j, to, Sum(amounts[..j]), accept);
      SumSnoc(amounts, j);
    }
  }

  /** In the staking denomination the query reports the whole stake. */
  lemma StakedInOwnDenom(ch: Chain)
    ensures StakedIn(ch, ch.denom) == Staked(ch)
  {
    var all := QueryAllDelegations(ch);
    assert InDenom(seq(|all|, i requires 0 <= i < |all| => all[i].1), ch.denom) == Stakes(ch.delegations);
  }

  /** All pending rewards in the vault's denomination. */
  function AllPending(ch: Chain): nat {
    Sum(RewardAmounts(ch, DelegatedValidators(ch), ch.denom))
  }

  /**
    A sweep by an operator always goes through. It pays the surplus and every pending reward to
    the reward address and to no one else, books exactly the sum of its payments, leaves no reward
    pending and touches nothing else. What the bank held beyond the surplus is still there.
   */
  lemma SweepRuns(s: Store, ch: Chain, sender: Addr, accept: bool)
    requires sender in s.ops
    requires s.denom == ch.denom
    requires Distinct(ch.delegations)
    ensures WithdrawReward(s, ch, sender).Ok?
    ensures var (s', msgs) := WithdrawReward(s, ch, sender).value;
      var after := RunMsgs(ch, msgs, accept);
      var swept := Surplus(s, ch) + AllPending(ch);
      && after.Some?
      && s' == s.(ledger := s.ledger.(withdrawnRewards := s.ledger.withdrawnRewards + swept))
      && PaysOnly(ch, after.value, s.rewardAddress, swept)
      && after.value == ch.(bank := after.value.bank, received := ch.received + AllPending(ch),
                            delegations := Cleared(ch.delegations, |ch.delegations|),
                            outbox := after.value.outbox)
      && after.value.bank == (if s.rewardAddress == ch.self then ch.bank + AllPending(ch)
                              else ch.bank - Surplus(s, ch))
  {
    hide RunMsgs, RewardMsgs, PaysOnly, Paid, PaidToSelf, Sum;
    var to := s.rewardAddress;
    var surplus := Surplus(s, ch);
    var vs := DelegatedValidators(ch);
    var first := Payment(to, s.denom, surplus);
    var pairs := RewardMsgs(ch, vs, to, s.denom);
    RunMsgsAppend(ch, first, pairs, accept);
    var send := Send(to, Coin(ch.denom, surplus));
    var start := RunMsg(ch, send, accept);
    assert start.Some?;
    SendPays(ch, to, surplus, accept);
    RunPayment(ch, to, s.denom, surplus, accept);
    PairsRun(ch, start.value, |vs|, to, accept);
    assert vs[..|vs|] == vs;
    var amounts := RewardAmounts(ch, vs, ch.denom);
    assert amounts[..|vs|] == amounts;
    PaysOnlyJoin(ch, start.value, RunMsgs(start.value, pairs, accept).value, to, surplus, Sum(amounts));
  }

  lemma ClearedStakes(ds: seq<Delegation>, k: nat)
    ensures Stakes(Cleared(ds, k)) == Stakes(ds)
  {
  }

  lemma {:induction false} NothingPending(ch: Chain, k: nat)
    requires Distinct(ch.delegations)
    requires ch.delegations == Cleared(ch.delegations, |ch.delegations|)
    requires k <= |ch.delegations|
    ensures Sum(RewardAmounts(ch, DelegatedValidators(ch), ch.denom)[..k]) == 0
  {
    if k > 0 {
      NothingPending(ch, k - 1);
      FindDistinct(ch.delegations, k - 1);
      assert ch.delegations[k - 1] == ch.delegations[k - 1].(rewards := []);
      SumSnoc(RewardAmounts(ch, DelegatedValidators(ch), ch.denom), k - 1);
    }
  }

  /**
    A sweep repeated at once finds no pending reward. It finds no surplus either, exactly unless
    the reward address is the vault itself and what it then holds exceeds the principal.
   */
  lemma RepeatedSweep(s: Store, ch: Chain, sender: Addr, accept: bool)
    requires sender in s.ops
    requires s.denom == ch.denom
    requires Distinct(ch.delegations)
    requires WithdrawReward(s, ch, sender).Ok?
    requires RunMsgs(ch, WithdrawReward(s, ch, sender).value.1, accept).Some?
    ensures var (s', msgs) := WithdrawReward(s, ch, sender).value;
      var after := RunMsgs(ch, msgs, accept).value;
      var held := ch.bank + AllPending(ch);
      && AllPending(after) == 0
      && (Surplus(s', after) == 0 <==>
          s.rewardAddress != ch.self || held == 0
          || held + Staked(ch) + Unbonding(ch) <= Outstanding(s.ledger))
  {
    hide RunMsgs, RewardMsgs, PaysOnly;
    SweepRuns(s, ch, sender, accept);
    var (s', msgs) := WithdrawReward(s, ch, sender).value;
    var after := RunMsgs(ch, msgs, accept).value;
    var n := |ch.delegations|;
    ClearedStakes(ch.delegations, n);
    StakedInOwnDenom(ch);
    StakedInOwnDenom(after);
    assert after.delegations == Cleared(after.delegations, n);
    NothingPending(after, n);
    var amounts := RewardAmounts(after, DelegatedValidators(after), after.denom);
    assert amounts[..n] == amounts;
  }
}
