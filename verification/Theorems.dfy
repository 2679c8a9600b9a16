/**
  What holds in every state a vault can reach: from any start, after any events in any order.
 */
module Theorems {
  import opened Chains
  import opened Contract
  import opened Effects
  import opened GovernanceProofs
  import opened LedgerProofs
  import opened Machine
  import opened Payments
  import opened Schedules
  import opened State
  import opened Sums
  import opened Sweep
  import opened Tranches
  import opened Turnout
  import opened Types
  import opened Voting

  // ---------------------------------------------------------------- the money

  /**
    Solvency: what remains to be vested is always covered by what the vault holds in its bank,
    in delegations and in unbonding, except for what slashing took. Exactly: the cover in excess
    is what came in beyond the principal and has not been paid out as rewards.
   */
  lemma Solvency(w0: World, m: InstantiateMsg, funds: seq<Coin>, events: seq<Event>)
    requires Start(w0, m, funds)
    ensures var w := Run(w0, events);
      var left := Sum(w.store.ledger.schedule.amounts);
      && left <= w.chain.bank + Staked(w.chain) + Unbonding(w.chain) + w.chain.slashed
      && w.chain.bank + Staked(w.chain) + Unbonding(w.chain) + w.chain.slashed - left
         == w.chain.received + PaidToSelf(w.chain) - w.store.ledger.total - w.store.ledger.withdrawnRewards
  {
    hide Run;
    ReachableMoney(w0, m, funds, events);
  }

  /** Principal is never lost or made: what is left and what was withdrawn add up to the total. */
  lemma LedgerConservation(w0: World, m: InstantiateMsg, funds: seq<Coin>, events: seq<Event>)
    requires Start(w0, m, funds)
    ensures var w := Run(w0, events);
      var l := w.store.ledger;
      && l.total == Sum(m.tranche.amounts) < U128_LIMIT
      && Sum(l.schedule.amounts) + l.withdrawnUnlocked + l.withdrawnLocked == l.total
      && Paid(w.chain) == l.withdrawnUnlocked + l.withdrawnLocked + l.withdrawnRewards
      && PaidFor(w0, events, ForUnlocked) == l.withdrawnUnlocked
      && PaidFor(w0, events, ForEmergency) == l.withdrawnLocked
      && PaidFor(w0, events, ForRewards) == l.withdrawnRewards
  {
    hide Run;
    ReachableMoney(w0, m, funds, events);
    CountersArePayments(w0, m, funds, events);
  }

  /** All payments made by the events that serve `purpose`. */
  ghost function PaidFor(w: World, events: seq<Event>, purpose: Purpose): nat
    decreases |events|
  {
    if events == [] then 0
    else
      var n := |events| - 1;
      PaidFor(w, events[..n], purpose)
        + (if PurposeOf(events[n]) == Some(purpose) then PaidIn(Run(w, events[..n]), events[n]) else 0)
  }

  lemma {:induction false} CountersArePayments(w0: World, m: InstantiateMsg, funds: seq<Coin>, events: seq<Event>)
    requires Start(w0, m, funds)
    ensures var l := Run(w0, events).store.ledger;
      && PaidFor(w0, events, ForUnlocked) == l.withdrawnUnlocked
      && PaidFor(w0, events, ForEmergency) == l.withdrawnLocked
      && PaidFor(w0, events, ForRewards) == l.withdrawnRewards
    decreases |events|
  {
    hide Step, MoneyInv, PaidIn, Due;
    if events != [] {
      hide Start;
      var n := |events| - 1;
      CountersArePayments(w0, m, funds, events[..n]);
      ReachableMoney(w0, m, funds, events[..n]);
      StepPays(Run(w0, events[..n]), PlanOf(m.tranche), events[n]);
    }
  }

  /**
    Every payment the vault ever made was owed: an unlocked withdrawal or a sweep asked for by an
    operator of that moment, to the unlock or reward address of the tranche or the one that the
    last proposal executed before had set, or the emergency withdrawal of a proposal executed at
    that moment by an admin, to the destination it names.
   */
  lemma {:induction false} EveryPaymentWasDue(w0: World, m: InstantiateMsg, funds: seq<Coin>, events: seq<Event>,
                                              i: nat)
    requires Start(w0, m, funds)
    requires i < |Run(w0, events).chain.outbox|
    ensures exists k :: 0 <= k < |events| && PaidAt(w0, m, events, k, i, Run(w0, events).chain.outbox[i])
    decreases |events|
  {
    hide Step, MoneyInv, Due, LastUnlockAddress, LastRewardAddress, AdminAfter, Calls;
    if events != [] {
      hide Start;
      var n := |events| - 1;
      var before := Run(w0, events[..n]);
      ReachableMoney(w0, m, funds, events[..n]);
      StepPays(before, PlanOf(m.tranche), events[n]);
      var t := Run(w0, events).chain.outbox[i];
      if i < |before.chain.outbox| {
        EveryPaymentWasDue(w0, m, funds, events[..n], i);
        var k :| 0 <= k < n && PaidAt(w0, m, events[..n], k, i, t);
        assert events[..n][..k] == events[..k];
        assert PaidAt(w0, m, events, k, i, t);
      } else {
        assert t == Fresh(before.chain, Run(w0, events).chain)[i - |before.chain.outbox|];
        AddressesInForce(w0, m, funds, events[..n]);
        DueAddress(before, events[n], t);
        assert PaidAt(w0, m, events, n, i, t);
      }
    }
  }

  lemma DueAddress(w: World, e: Event, t: Transfer)
    requires Due(w, e, t)
    ensures PurposeOf(e) == Some(ForUnlocked) ==> t.to == w.store.unlockAddress
    ensures PurposeOf(e) == Some(ForRewards) ==> t.to == w.store.rewardAddress
  {
  }

  /** Event `k` made `t`, which was then owed, as payment number `i`. */
  ghost predicate PaidAt(w0: World, m: InstantiateMsg, events: seq<Event>, k: nat, i: nat, t: Transfer)
    requires k < |events|
  {
    var before := Run(w0, events[..k]);
    var after := Step(before, events[k]);
    && |before.chain.outbox| <= i < |after.chain.outbox|
    && after.chain.outbox[i] == t
    && Due(before, events[k], t)
    && (PurposeOf(events[k]) == Some(ForUnlocked) ==>
          t.to == LastUnlockAddress(m.tranche.unlockAddress, Calls(before.log)))
    && (PurposeOf(events[k]) == Some(ForRewards) ==>
          t.to == LastRewardAddress(m.tranche.rewardAddress, Calls(before.log)))
  }

  // ---------------------------------------------------------------- what is in force

  /** The unlock address last set by `calls`, or `start` if none of them sets it. */
  function LastUnlockAddress(start: Addr, calls: seq<InternalMsg>): Addr
    decreases |calls|
  {
    if calls == [] then start
    else match calls[|calls| - 1]
      case UpdateUnlockedDistributionAddress(a) => a
      case _ => LastUnlockAddress(start, calls[..|calls| - 1])
  }

  function LastRewardAddress(start: Addr, calls: seq<InternalMsg>): Addr
    decreases |calls|
  {
    if calls == [] then start
    else match calls[|calls| - 1]
      case UpdateStakingRewardDistributionAddress(a) => a
      case _ => LastRewardAddress(start, calls[..|calls| - 1])
  }

  /** Whether `a` is an admin after `calls`: as the last of them about `a` says, else as before. */
  predicate AdminAfter(a: Addr, before: bool, calls: seq<InternalMsg>)
    decreases |calls|
  {
    if calls == [] then before
    else match calls[|calls| - 1]
      case UpdateAdmin(x, remove) => if x == a then !remove else AdminAfter(a, before, calls[..|calls| - 1])
      case _ => AdminAfter(a, before, calls[..|calls| - 1])
  }

  /** What is in force in `w`: what the instantiation `m` said, unless a later call changed it. */
  ghost predicate InForce(m: InstantiateMsg, w: World, calls: seq<InternalMsg>) {
    && w.store.unlockAddress == LastUnlockAddress(m.tranche.unlockAddress, calls)
    && w.store.rewardAddress == LastRewardAddress(m.tranche.rewardAddress, calls)
    && (forall a :: a in w.store.council.admins <==> AdminAfter(a, a in m.admins, calls))
  }

  lemma {:induction false} ReplayAddresses(p: Powers, log: seq<Applied>)
    ensures Replay(p, log).unlockAddress == LastUnlockAddress(p.unlockAddress, Calls(log))
    ensures Replay(p, log).rewardAddress == LastRewardAddress(p.rewardAddress, Calls(log))
    decreases |log|
  {
    if log != [] {
      var n := |log| - 1;
      ReplayAddresses(p, log[..n]);
      assert Calls(log)[..n] == Calls(log[..n]);
    }
  }

  lemma {:induction false} ReplayAdmins(p: Powers, log: seq<Applied>, a: Addr)
    ensures a in Replay(p, log).admins <==> AdminAfter(a, a in p.admins, Calls(log))
    decreases |log|
  {
    if log != [] {
      var n := |log| - 1;
      ReplayAdmins(p, log[..n], a);
      assert Calls(log)[..n] == Calls(log[..n]);
    }
  }

  lemma StartAsAsked(w0: World, m: InstantiateMsg, funds: seq<Coin>)
    requires Start(w0, m, funds)
    ensures var p := PowersOf(w0.store);
      && p.unlockAddress == m.tranche.unlockAddress && p.rewardAddress == m.tranche.rewardAddress
      && forall a :: a in p.admins <==> a in m.admins
  {
  }

  /**
    Distribution addresses and admins are those of the instantiation until a call of an executed
    proposal changes them, and then as the last such call says.
   */
  lemma AddressesInForce(w0: World, m: InstantiateMsg, funds: seq<Coin>, events: seq<Event>)
    requires Start(w0, m, funds)
    ensures var w := Run(w0, events);
      var ids := ExecutedIds(w0, events);
      && (forall id :: id in ids <==> IsExecuted(w, id))
      && Calls(w.log) == CallsOf(w.store.council, ids)
      && InForce(m, w, CallsOf(w.store.council, ids))
  {
    hide Run, Start, Replay, Calls, AdminAfter, LastUnlockAddress, LastRewardAddress;
    PrivilegedEffectsAreExecutedProposals(w0, m, funds, events);
    StartAsAsked(w0, m, funds);
    var w, start := Run(w0, events), PowersOf(w0.store);
    ReplayAddresses(start, w.log);
    forall a
      ensures a in w.store.council.admins <==> AdminAfter(a, a in m.admins, Calls(w.log))
    {
      ReplayAdmins(start, w.log, a);
    }
  }

  /**
    No early release, and exact availability: the unlocked withdrawals never exceed what the plan
    promised by now, and what can still be withdrawn is the difference, until an emergency
    withdrawal takes the rest.
   */
  lemma NoEarlyRelease(w0: World, m: InstantiateMsg, funds: seq<Coin>, events: seq<Event>)
    requires Start(w0, m, funds)
    ensures var w := Run(w0, events);
      var l := w.store.ledger;
      var promised := Curve(PlanOf(m.tranche), w.block.time);
      && l.withdrawnUnlocked <= promised
      && Vested(l.schedule, w.block.time) ==
         if l.withdrawnLocked == 0 then promised - l.withdrawnUnlocked else 0
  {
    hide Run;
    ReachableMoney(w0, m, funds, events);
    var w := Run(w0, events);
    Available(w.store.ledger, PlanOf(m.tranche), w.block.time);
  }

  /**
    One second after the longest span a plan may have, all that is left is due. Asking for all of
    it at once goes through exactly for an operator, when the bank holds it and the last entry
    added to it fits 128 bits; then nothing is left and it is paid to the unlock address.
   */
  lemma EverythingIsDueByHorizon(w0: World, m: InstantiateMsg, funds: seq<Coin>, events: seq<Event>,
                                 sender: Addr, accept: bool)
    requires Start(w0, m, funds)
    requires Horizon(w0.block.time) <= Run(w0, events).block.time
    ensures var w := Run(w0, events);
      var s := w.store.ledger.schedule;
      var left := Sum(s.amounts);
      var after := Transact(w, sender, InitiateWithdrawUnlocked(left), accept);
      && Vested(s, w.block.time) == left
      && (after.Some? <==>
            && sender in w.store.ops
            && left <= w.chain.bank
            && (s.amounts == [] || s.amounts[|s.amounts| - 1] + left < U128_LIMIT))
      && (after.Some? ==>
            && after.value.store.ledger.schedule == EMPTY
            && PaysOnly(w.chain, after.value.chain, w.store.unlockAddress, left))
  {
    hide Run, Start, Transact, PaysOnly;
    ReachableMoney(w0, m, funds, events);
    StartAccepts(w0, m, funds);
    var w := Run(w0, events);
    var s, now := w.store.ledger.schedule, w.block.time;
    AllIsDue(w0, m, funds, events);
    LeftFits(w.store.ledger, PlanOf(m.tranche), now);
    AllDueLastSum(s, now);
    CurveComplete(s, now);
    CollectAllEmpties(s, now);
    UnlockedOutcome(w, PlanOf(m.tranche), sender, Sum(s.amounts), accept);
  }

  lemma StartAccepts(w0: World, m: InstantiateMsg, funds: seq<Coin>)
    requires Start(w0, m, funds)
    ensures Acceptable(m.tranche, w0.block.time, funds)
    ensures Sum(m.tranche.amounts) < U128_LIMIT
  {
  }

  /** By the horizon every remaining timestamp has passed. */
  lemma AllIsDue(w0: World, m: InstantiateMsg, funds: seq<Coin>, events: seq<Event>)
    requires Start(w0, m, funds)
    requires Horizon(w0.block.time) <= Run(w0, events).block.time
    ensures var w := Run(w0, events);
      var s := w.store.ledger.schedule;
      forall i :: 0 <= i < |s.timestamps| ==> s.timestamps[i] <= w.block.time
  {
    hide Run;
    var w := Run(w0, events);
    var s := w.store.ledger.schedule;
    ScheduleIsConsumedPlan(w0, m, funds, events);
    var dropped := |m.tranche.timestamps| - |s.timestamps|;
    forall i | 0 <= i < |s.timestamps|
      ensures s.timestamps[i] <= w.block.time
    {
      assert InWindow(m.tranche.timestamps[dropped + i], w0.block.time);
    }
  }

  lemma LeftFits(l: Ledger, plan: Schedule, now: nat)
    requires ScheduleInv(l, plan, now)
    ensures Positive(l.schedule)
    ensures Sum(l.schedule.amounts) <= Sum(plan.amounts)
  {
    ScheduleShape(l, plan, now);
  }

  /** A withdrawal of unlocked tokens, in any state that keeps the money invariant. */
  lemma UnlockedOutcome(w: World, plan: Schedule, sender: Addr, amount: nat, accept: bool)
    requires MoneyInv(w, plan)
    requires Sum(plan.amounts) < U128_LIMIT
    ensures var s, now := w.store.ledger.schedule, w.block.time;
      var after := Transact(w, sender, InitiateWithdrawUnlocked(amount), accept);
      && (after.Some? <==>
            && sender in w.store.ops
            && amount <= w.chain.bank
            && amount <= Vested(s, now)
            && LastSumFits(s, now, amount))
      && (after.Some? ==>
            var l := w.store.ledger;
            && after.value == w.(
                 store := w.store.(ledger := l.(schedule := Collected(s, now, amount),
                                                withdrawnUnlocked := l.withdrawnUnlocked + amount)),
                 chain := w.chain.(bank := after.value.chain.bank, outbox := after.value.chain.outbox))
            && w.chain.bank - amount <= after.value.chain.bank
            && PaysOnly(w.chain, after.value.chain, w.store.unlockAddress, amount))
  {
    hide Overflows, LastSumFits, ReachedAt, Collected, Vested, Sum, CoverInv, MsgsInv, RunAll, RunMsgs, PaysOnly;
    var s := w.store;
    LeftFits(s.ledger, plan, w.block.time);
    OverflowExactly(s.ledger.schedule, w.block.time, amount);
    var outcome := WithdrawUnlocked(s, EnvOf(w), sender, amount);
    if outcome.Ok? {
      var (s', msgs) := outcome.value;
      RunAllOnChain(w.(store := s'), msgs, accept);
      RunPayment(w.chain, s.unlockAddress, s.denom, amount, accept);
      if RunMsg(w.chain, Send(s.unlockAddress, Coin(s.denom, amount)), accept).Some? {
        SendPays(w.chain, s.unlockAddress, amount, accept);
      }
    }
  }

  /**
    The stored schedule depends only on how much was withdrawn, not on how or when: it is a suffix
    of the plan in which only the head may be smaller, and never zero.
   */
  lemma ScheduleIsConsumedPlan(w0: World, m: InstantiateMsg, funds: seq<Coin>, events: seq<Event>)
    requires Start(w0, m, funds)
    ensures var l := Run(w0, events).store.ledger;
      var s, plan := l.schedule, PlanOf(m.tranche);
      var dropped := |plan.amounts| - |s.amounts|;
      && (l.withdrawnLocked == 0 ==> s == Consume(plan, l.withdrawnUnlocked))
      && (l.withdrawnLocked > 0 ==> s == EMPTY)
      && Sorted(s) && Positive(s)
      && 0 <= dropped
      && s.timestamps == plan.timestamps[dropped..]
      && (s.amounts != [] ==>
            s.amounts[0] <= plan.amounts[dropped] && s.amounts[1..] == plan.amounts[dropped + 1..])
  {
    hide Run, Start;
    ReachableMoney(w0, m, funds, events);
    ScheduleShape(Run(w0, events).store.ledger, PlanOf(m.tranche), Run(w0, events).block.time);
  }

  lemma ScheduleShape(l: Ledger, plan: Schedule, now: nat)
    requires ScheduleInv(l, plan, now)
    ensures var s := l.schedule;
      var dropped := |plan.amounts| - |s.amounts|;
      && Sorted(s) && Positive(s)
      && 0 <= dropped
      && s.timestamps == plan.timestamps[dropped..]
      && (s.amounts != [] ==>
            s.amounts[0] <= plan.amounts[dropped] && s.amounts[1..] == plan.amounts[dropped + 1..])
  {
    hide Sum, Curve, Consume;
    if l.withdrawnLocked == 0 {
      VestedBounds(plan, now);
      ConsumeShape(plan, l.withdrawnUnlocked);
    }
  }

  /**
    A withdrawal of unlocked tokens goes through exactly when an operator asks for no more than
    is available, the bank holds it, and the entry that reaches the request, added to the request,
    fits 128 bits, which it always does for totals below 2^127. It pays the unlock address.
   */
  lemma UnlockedWithdrawalExactly(w0: World, m: InstantiateMsg, funds: seq<Coin>, events: seq<Event>,
                                  sender: Addr, amount: nat, accept: bool)
    requires Start(w0, m, funds)
    ensures var w := Run(w0, events);
      var l, now := w.store.ledger, w.block.time;
      var after := Transact(w, sender, InitiateWithdrawUnlocked(amount), accept);
      && (after.Some? <==>
            && sender in w.store.ops
            && amount <= w.chain.bank
            && l.withdrawnUnlocked + amount <= Curve(PlanOf(m.tranche), now)
            && (amount > 0 ==> l.withdrawnLocked == 0)
            && LastSumFits(l.schedule, now, amount))
      && (2 * Sum(m.tranche.amounts) < U128_LIMIT ==> LastSumFits(l.schedule, now, amount))
      && (after.Some? ==>
            && after.value.store.ledger == l.(schedule := Collected(l.schedule, now, amount),
                                              withdrawnUnlocked := l.withdrawnUnlocked + amount)
            && PaysOnly(w.chain, after.value.chain, w.store.unlockAddress, amount))
  {
    hide Run, Overflows, LastSumFits, Start, Transact, PaysOnly, Sum;
    ReachableMoney(w0, m, funds, events);
    NoEarlyRelease(w0, m, funds, events);
    StartAccepts(w0, m, funds);
    var w := Run(w0, events);
    UnlockedOutcome(w, PlanOf(m.tranche), sender, amount, accept);
    LeftFits(w.store.ledger, PlanOf(m.tranche), w.block.time);
    OverflowExactly(w.store.ledger.schedule, w.block.time, amount);
    if 2 * Sum(m.tranche.amounts) < U128_LIMIT {
      NoOverflowBelowHalf(w.store.ledger.schedule, w.block.time, 0, amount);
    }
  }

  /**
    The surplus a sweep finds is exactly what came in beyond the principal, less slashing and
    earlier rewards, as far as it is in the bank.
   */
  lemma SurplusIsExact(w0: World, m: InstantiateMsg, funds: seq<Coin>, events: seq<Event>)
    requires Start(w0, m, funds)
    ensures var w := Run(w0, events);
      var ch := w.chain;
      var extra := ch.received + PaidToSelf(ch) - w.store.ledger.total - w.store.ledger.withdrawnRewards;
      && 0 <= extra
      && Surplus(w.store, ch) == Min(ch.bank, Max(0, extra - ch.slashed))
  {
    hide Run;
    Solvency(w0, m, funds, events);
    ReachableMoney(w0, m, funds, events);
    var w := Run(w0, events);
    StakedInOwnDenom(w.chain);
  }

  /**
    A sweep took `w` to `after`: what it paid went to the reward address, is the surplus and all
    pending rewards, and is what was added to the reward counter. The principal in the bank and
    everything staked stayed, and unless the vault pays itself nothing is left to sweep.
   */
  ghost predicate SweepOutcome(w: World, after: World) {
    var l, ch, ch' := w.store.ledger, w.chain, after.chain;
    var swept := Surplus(w.store, ch) + AllPending(ch);
    var to := w.store.rewardAddress;
    && after == w.(store := w.store.(ledger := l.(withdrawnRewards := l.withdrawnRewards + swept)), chain := ch')
    && PaysOnly(ch, ch', to, swept)
    && Paid(ch') == Paid(ch) + swept
    && Sum(AmountsTo(ch'.outbox, to)) == Sum(AmountsTo(ch.outbox, to)) + swept
    && AllPending(ch') == 0
    && Staked(ch') == Staked(ch) && Unbonding(ch') == Unbonding(ch)
    && (to != ch.self ==>
          && ch'.bank == Min(ch.bank, Max(0, Outstanding(l) - Staked(ch) - Unbonding(ch)))
          && Surplus(after.store, ch') == 0)
  }

  /**
    A sweep asked for by an operator always goes through. It pays the reward address and no one
    else, exactly what is added to the reward counter, and the principal that was in the bank
    stays there.
   */
  lemma SweepIsSafe(w0: World, m: InstantiateMsg, funds: seq<Coin>, events: seq<Event>,
                    sender: Addr, accept: bool)
    requires Start(w0, m, funds)
    requires sender in Run(w0, events).store.ops
    ensures var w := Run(w0, events);
      var after := Transact(w, sender, InitiateWithdrawReward, accept);
      after.Some? && SweepOutcome(w, after.value)
  {
    hide Run, Start, MoneyInv, Transact, SweepOutcome;
    ReachableMoney(w0, m, funds, events);
    MoneySweep(Run(w0, events), PlanOf(m.tranche), sender, accept);
  }

  lemma MoneySweep(w: World, plan: Schedule, sender: Addr, accept: bool)
    requires MoneyInv(w, plan)
    requires sender in w.store.ops
    ensures var after := Transact(w, sender, InitiateWithdrawReward, accept);
      after.Some? && SweepOutcome(w, after.value)
  {
    hide RunAll, RunMsgs, Staking.RewardMsgs, AllPending, Paid, PaysOnly, AmountsTo, StakedIn;
    hide ScheduleInv, MsgsInv, Sum;
    var s, ch := w.store, w.chain;
    SweepRuns(s, ch, sender, accept);
    var (s', msgs) := WithdrawReward(s, ch, sender).value;
    PaysOnlyTotals(ch, RunMsgs(ch, msgs, accept).value, s.rewardAddress, Surplus(s, ch) + AllPending(ch),
                   s.rewardAddress);
    RewardMsgsOnChain(ch, Staking.DelegatedValidators(ch), s.rewardAddress, s.denom);
    RunAllOnChain(w.(store := s'), msgs, accept);
    RepeatedSweep(s, ch, sender, accept);
    ClearedStakes(ch.delegations, |ch.delegations|);
    StakedInOwnDenom(ch);
  }

  /** A plan of one token whose rewards go to the vault itself, with a deposit of two. */
  const SELF_PAYING: InstantiateMsg :=
    InstantiateMsg(["admin"], ["op"], Tranche("usei", [1], [1], "unlocked", "vault"), Height(10), 50)

  const SELF_PLAN: Schedule := Schedule([1], [1])

  const TWO_TOKENS: seq<Coin> := [Coin("usei", 2)]

  function SelfPayingVault(): World {
    World(Block(1, 1), InitialStore(SELF_PAYING), Chain("vault", "usei", 2, [], [], 0, 2, []), [])
  }

  lemma SelfPayingVaultStarts()
    ensures var w := SelfPayingVault();
      && Start(w, SELF_PAYING, TWO_TOKENS)
      && PaysItself(w, SELF_PLAN, "op", 1)
      && w.store.ledger.withdrawnRewards == 0
  {
    assert Sum([1]) == 1 + Sum([]);
    assert InDenom(TWO_TOKENS, "usei") == [2] && Sum([2]) == 2 + Sum([]);
    StartMoney(SelfPayingVault(), SELF_PAYING, TWO_TOKENS);
  }

  /** A vault whose reward address is its own: the same token is swept and booked twice. */
  lemma RepeatedSweepExample()
    ensures var w0, sweep := SelfPayingVault(), Tx("op", InitiateWithdrawReward, true);
      && Start(w0, SELF_PAYING, TWO_TOKENS)
      && Run(w0, [sweep]).store.ledger.withdrawnRewards == 1
      && Run(w0, [sweep, sweep]).store.ledger.withdrawnRewards == 2
  {
    hide *;
    var w0, sweep := SelfPayingVault(), Tx("op", InitiateWithdrawReward, true);
    SelfPayingVaultStarts();
    SelfSweep(w0, SELF_PLAN, "op", 1);
    var w1 := Step(w0, sweep);
    SelfSweep(w1, SELF_PLAN, "op", 1);
    RunFirst(w0, sweep, [sweep]);
    RunFirst(w1, sweep, []);
    assert [sweep] + [sweep] == [sweep, sweep];
  }

  /** With nothing staked and rewards going to itself, the vault holds `surplus` beyond the principal. */
  ghost predicate PaysItself(w: World, plan: Schedule, op: Addr, surplus: nat) {
    && MoneyInv(w, plan)
    && op in w.store.ops && op != w.chain.self && w.store.rewardAddress == w.chain.self
    && w.chain.delegations == [] && w.chain.unbonding == []
    && 0 < Outstanding(w.store.ledger)
    && Outstanding(w.store.ledger) + surplus == w.chain.bank
  }

  /** Such a vault books the surplus with every sweep and stays as it is. */
  lemma SelfSweep(w: World, plan: Schedule, op: Addr, surplus: nat)
    requires PaysItself(w, plan, op, surplus)
    ensures var after := Step(w, Tx(op, InitiateWithdrawReward, true));
      && PaysItself(after, plan, op, surplus)
      && after.store.ledger.withdrawnRewards == w.store.ledger.withdrawnRewards + surplus
  {
    hide RunAll, RunMsgs, PaysOnly, ScheduleInv, Staking.RewardMsgs;
    var s, ch := w.store, w.chain;
    StepMoney(w, plan, Tx(op, InitiateWithdrawReward, true));
    MoneySweep(w, plan, op, true);
    SweepRuns(s, ch, op, true);
    var (s', msgs) := WithdrawReward(s, ch, op).value;
    RewardMsgsOnChain(ch, Staking.DelegatedValidators(ch), s.rewardAddress, s.denom);
    RunAllOnChain(w.(store := s'), msgs, true);
    StakedInOwnDenom(ch);
    assert Staking.RewardAmounts(ch, Staking.DelegatedValidators(ch), ch.denom) == [];
    assert Stakes(ch.delegations) == [];
  }

  // ---------------------------------------------------------------- the council

  lemma {:induction false} ReachableCouncil(w0: World, m: InstantiateMsg, funds: seq<Coin>, events: seq<Event>)
    requires Start(w0, m, funds)
    ensures var w := Run(w0, events);
      && CouncilInv(w.store.council)
      && PowersOf(w.store) == Replay(PowersOf(w0.store), w.log)
      && w.store.council.percentage == m.thresholdPercentage
      && w.store.council.period == m.maxVotingPeriod
    decreases |events|
  {
    hide Step, CouncilInv, Replay, Start;
    if events == [] {
      StartCouncil(w0, m, funds);
    } else {
      var n := |events| - 1;
      ReachableCouncil(w0, m, funds, events[..n]);
      StepCouncil(PowersOf(w0.store), Run(w0, events[..n]), events[n]);
    }
  }

  lemma StartCouncil(w0: World, m: InstantiateMsg, funds: seq<Coin>)
    requires Start(w0, m, funds)
    ensures CouncilInv(w0.store.council)
    ensures w0.store.council.percentage == m.thresholdPercentage
    ensures w0.store.council.period == m.maxVotingPeriod
    ensures w0.log == [] && w0.store.council.ballots == {} && w0.store.council.proposals == map[]
    ensures PowersOf(w0.store) == Replay(PowersOf(w0.store), w0.log)
  {
  }

  /**
    For every stored proposal the tally is the number of different addresses with a ballot under
    its id. With the threshold of the instantiation and the number of admins at the event that
    made it, it has passed exactly when these votes reach the threshold, and one vote less (if
    there was more than the proposer's) would not have.
   */
  lemma PassingIsExact(w0: World, m: InstantiateMsg, funds: seq<Coin>, events: seq<Event>, id: nat)
    requires Start(w0, m, funds)
    requires id in Run(w0, events).store.council.proposals
    ensures var c := Run(w0, events).store.council;
      var p := c.proposals[id];
      var votes := |Voters(c, id)|;
      exists k :: 0 <= k < |events|
        && AskedAt(w0, m, events, k, id, p)
        && var admins := |Run(w0, events[..k]).store.council.admins|;
        && p.yes == votes
        && 1 <= votes <= admins
        && (p.status in {Passed, Executed} <==> 100 * votes >= admins * m.thresholdPercentage)
        && (votes > 1 ==> 100 * (votes - 1) < admins * m.thresholdPercentage)
  {
    hide Run, Start, Needed, Voters;
    ReachableCouncil(w0, m, funds, events);
    ProposalsWereAskedFor(w0, m, funds, events, id);
    var c := Run(w0, events).store.council;
    var p := c.proposals[id];
    assert ProposalInv(c, id);
    NeededReaches(p.totalWeight, p.percentage, p.yes);
    NeededReaches(p.totalWeight, p.percentage, p.yes - 1);
  }

  /** Proposals are numbered from one, without gaps. */
  lemma ProposalsAreNumbered(w0: World, m: InstantiateMsg, funds: seq<Coin>, events: seq<Event>, id: nat)
    requires Start(w0, m, funds)
    ensures var c := Run(w0, events).store.council;
      id in c.proposals <==> 1 <= id <= c.count
  {
    hide Run, Start;
    ReachableCouncil(w0, m, funds, events);
    var c := Run(w0, events).store.council;
    assert id in c.proposals ==> ProposalInv(c, id);
  }

  /**
    From any reachable state, whatever else happens in between, changes of the admin set included:
    a proposal made at event `k` ends up passed exactly when those who had voted and those who
    tried to vote within the voting period, as admins of that moment, reach the threshold of the
    instantiation, unless the period is zero and the proposer's vote was not enough. Only they
    have ballots, and while it is open all of them do.
   */
  lemma VotingIsCompleteInRuns(w0: World, m: InstantiateMsg, funds: seq<Coin>,
                               past: seq<Event>, k: nat, id: nat, future: seq<Event>)
    requires Start(w0, m, funds)
    requires var c := Run(w0, past).store.council;
      && id in c.proposals
      && k < |past| && AskedAt(w0, m, past, k, id, c.proposals[id])
    ensures var w, made := Run(w0, past), Run(w0, past[..k]);
      var d := Run(w, future).store.council;
      var turnout := Voters(w.store.council, id) + Attempters(w, id, future, m.maxVotingPeriod, made.block);
      var weight := |made.store.council.admins| * m.thresholdPercentage;
      && id in d.proposals
      && (d.proposals[id].status in {Passed, Executed} <==>
            100 * |turnout| >= weight && (weight <= 100 || !NoTime(m.maxVotingPeriod)))
      && Voters(d, id) <= turnout
      && (d.proposals[id].status == Open ==> Voters(d, id) == turnout)
  {
    hide Run, Start, Voters, Attempters, Needed, Ends;
    var w, made := Run(w0, past), Run(w0, past[..k]);
    ReachableCouncil(w0, m, funds, past);
    RunVoters(PowersOf(w0.store), w, id, future, m.maxVotingPeriod, made.block);
    TurnoutDecides(PowersOf(w0.store), w, id, future, m.maxVotingPeriod, made.block);
  }

  /** Every ballot was cast in a transaction of the voter, who was an admin at that moment. */
  lemma {:induction false} BallotsByAdmins(w0: World, m: InstantiateMsg, funds: seq<Coin>, events: seq<Event>,
                                           ballot: (nat, Addr))
    requires Start(w0, m, funds)
    requires ballot in Run(w0, events).store.council.ballots
    ensures exists k :: 0 <= k < |events| && CastAt(w0, events, k, ballot)
    decreases |events|
  {
    hide Step, CouncilInv, Replay, Start;
    if events == [] {
      StartCouncil(w0, m, funds);
    } else {
      var n := |events| - 1;
      var before := Run(w0, events[..n]);
      if ballot in before.store.council.ballots {
        BallotsByAdmins(w0, m, funds, events[..n], ballot);
        var k :| 0 <= k < n && CastAt(w0, events[..n], k, ballot);
        assert events[..n][..k] == events[..k];
        assert CastAt(w0, events, k, ballot);
      } else {
        ReachableCouncil(w0, m, funds, events[..n]);
        StepCouncil(PowersOf(w0.store), before, events[n]);
        assert CastAt(w0, events, n, ballot);
      }
    }
  }

  ghost predicate CastAt(w0: World, events: seq<Event>, k: nat, ballot: (nat, Addr))
    requires k < |events|
  {
    var before := Run(w0, events[..k]);
    && events[k].Tx? && events[k].sender == ballot.1
    && ballot.1 in before.store.council.admins
    && ballot !in before.store.council.ballots
    && ballot in Step(before, events[k]).store.council.ballots
  }

  // ---------------------------------------------------------------- execution

  /** The ids of the proposals that events moved to executed, in order. */
  ghost function ExecutedIds(w0: World, events: seq<Event>): seq<nat>
    decreases |events|
  {
    if events == [] then []
    else
      var n := |events| - 1;
      ExecutedIds(w0, events[..n]) + NewlyExecuted(Run(w0, events[..n]), events[n])
  }

  /** The self-calls of the proposals `ids`, one proposal after the other. */
  ghost function CallsOf(c: Council, ids: seq<nat>): seq<InternalMsg>
    requires forall id :: id in ids ==> id in c.proposals
    decreases |ids|
  {
    if ids == [] then []
    else CallsOf(c, ids[..|ids| - 1]) + SelfCalls(c.proposals[ids[|ids| - 1]].msgs)
  }

  lemma {:induction false} CallsOfAdvances(c: Council, d: Council, ids: seq<nat>)
    requires Advances(c, d)
    requires forall id :: id in ids ==> id in c.proposals
    ensures forall id :: id in ids ==> id in d.proposals
    ensures CallsOf(c, ids) == CallsOf(d, ids)
    decreases |ids|
  {
    if ids != [] {
      CallsOfAdvances(c, d, ids[..|ids| - 1]);
      assert Moves(c.proposals[ids[|ids| - 1]], d.proposals[ids[|ids| - 1]]);
    }
  }

  /**
    Privileged effects are exactly the executed proposals: the calls that took effect are those
    of the executed proposals, in the order of execution, each proposal once; and admins,
    distribution addresses and locked withdrawals are what these calls make of the start.
   */
  lemma {:induction false} PrivilegedEffectsAreExecutedProposals(
      w0: World, m: InstantiateMsg, funds: seq<Coin>, events: seq<Event>)
    requires Start(w0, m, funds)
    ensures var w := Run(w0, events);
      var ids := ExecutedIds(w0, events);
      && (forall id :: id in ids <==> IsExecuted(w, id))
      && (forall i, j :: 0 <= i < j < |ids| ==> ids[i] != ids[j])
      && Calls(w.log) == CallsOf(w.store.council, ids)
      && PowersOf(w.store) == Replay(PowersOf(w0.store), w.log)
    decreases |events|
  {
    hide Step, CouncilInv, Replay, Start, PowersOf;
    ReachableCouncil(w0, m, funds, events);
    if events == [] {
      StartCouncil(w0, m, funds);
    } else {
      var n := |events| - 1;
      var before := Run(w0, events[..n]);
      var ids := ExecutedIds(w0, events[..n]);
      PrivilegedEffectsAreExecutedProposals(w0, m, funds, events[..n]);
      ReachableCouncil(w0, m, funds, events[..n]);
      StepCouncil(PowersOf(w0.store), before, events[n]);
      CallsOfAdvances(before.store.council, Run(w0, events).store.council, ids);
      ExecutedGrows(before, events[n], ids);
    }
  }

  /** One step of the account of executed proposals. */
  lemma ExecutedGrows(w: World, e: Event, ids: seq<nat>)
    requires Advances(w.store.council, Step(w, e).store.council)
    requires forall id :: id in ids <==> IsExecuted(w, id)
    requires forall i, j :: 0 <= i < j < |ids| ==> ids[i] != ids[j]
    requires forall id :: id in ids ==> id in w.store.council.proposals && id in Step(w, e).store.council.proposals
    requires Calls(w.log) == CallsOf(w.store.council, ids) == CallsOf(Step(w, e).store.council, ids)
    requires exists start :: CouncilStep(start, w, e)
    ensures var grown := ids + NewlyExecuted(w, e);
      && (forall id :: id in grown <==> IsExecuted(Step(w, e), id))
      && (forall i, j :: 0 <= i < j < |grown| ==> grown[i] != grown[j])
      && Calls(Step(w, e).log) == CallsOf(Step(w, e).store.council, grown)
  {
    hide Step, CouncilInv, Replay;
    var after := Step(w, e);
    var now := NewlyExecuted(w, e);
    var grown := ids + now;
    forall id | IsExecuted(w, id)
      ensures IsExecuted(after, id)
    {
      assert Moves(w.store.council.proposals[id], after.store.council.proposals[id]);
    }
    if now == [] {
      assert grown == ids;
    } else {
      assert grown[..|ids|] == ids;
      assert Moves(w.store.council.proposals[now[0]], after.store.council.proposals[now[0]]);
    }
  }

  /** Whatever happens, stored proposals only move from open to passed to executed. */
  lemma {:induction false} StatusOnlyAdvances(w0: World, m: InstantiateMsg, funds: seq<Coin>,
                                              past: seq<Event>, id: nat, future: seq<Event>)
    requires Start(w0, m, funds)
    requires id in Run(w0, past).store.council.proposals
    ensures var w, later := Run(w0, past), Run(Run(w0, past), future);
      && id in later.store.council.proposals
      && Evolves(w.store.council.proposals[id], later.store.council.proposals[id])
  {
    hide Run, Start;
    ReachableCouncil(w0, m, funds, past);
    RunEvolves(PowersOf(w0.store), Run(w0, past), id, future);
  }

  lemma {:induction false} RunEvolves(start: Powers, w: World, id: nat, future: seq<Event>)
    requires CouncilInv(w.store.council)
    requires id in w.store.council.proposals
    ensures var later := Run(w, future);
      && CouncilInv(later.store.council)
      && id in later.store.council.proposals
      && Evolves(w.store.council.proposals[id], later.store.council.proposals[id])
    decreases |future|
  {
    hide Step, CouncilInv, Replay;
    if future != [] {
      var n := |future| - 1;
      RunEvolves(start, w, id, future[..n]);
      var before := Run(w, future[..n]);
      StepCouncil(start, before, future[n]);
      MovesEvolve(w.store.council.proposals[id], before.store.council.proposals[id],
                  Run(w, future).store.council.proposals[id]);
    }
  }

  /**
    Every stored proposal was asked for by an admin of that moment, and holds what was asked for,
    the threshold and voting period of the instantiation, and the number of admins of that moment.
   */
  lemma {:induction false} ProposalsWereAskedFor(w0: World, m: InstantiateMsg, funds: seq<Coin>,
                                                 events: seq<Event>, id: nat)
    requires Start(w0, m, funds)
    requires id in Run(w0, events).store.council.proposals
    ensures var p := Run(w0, events).store.council.proposals[id];
      exists k :: 0 <= k < |events| && AskedAt(w0, m, events, k, id, p)
    decreases |events|
  {
    hide Step, CouncilInv, Replay, Start, Made;
    if events == [] {
      StartCouncil(w0, m, funds);
    } else {
      var n := |events| - 1;
      var before := Run(w0, events[..n]);
      var p := Run(w0, events).store.council.proposals[id];
      ReachableCouncil(w0, m, funds, events[..n]);
      StepCouncil(PowersOf(w0.store), before, events[n]);
      if id in before.store.council.proposals {
        var q := before.store.council.proposals[id];
        ProposalsWereAskedFor(w0, m, funds, events[..n], id);
        var k :| 0 <= k < n && AskedAt(w0, m, events[..n], k, id, q);
        assert events[..n][..k] == events[..k];
        assert Moves(q, p);
        MadeMoves(Run(w0, events[..k]), events[k], id, q, p);
        assert AskedAt(w0, m, events, k, id, p);
      } else {
        NewProposalsAreMade(before, events[n], id);
        MadeAsConfigured(m, before, events[n], id, p);
        assert AskedAt(w0, m, events, n, id, p);
      }
    }
  }

  /** Event `k` made proposal `id`, which is now `p`, with the threshold and period of `m`. */
  ghost predicate AskedAt(w0: World, m: InstantiateMsg, events: seq<Event>, k: nat, id: nat, p: Proposal)
    requires k < |events|
  {
    var made := Run(w0, events[..k]);
    && Made(made, events[k], id, p)
    && p.percentage == m.thresholdPercentage
    && Ends(p.expires, m.maxVotingPeriod, made.block)
    && (p.status == Rejected <==>
          NoTime(m.maxVotingPeriod) && |made.store.council.admins| * m.thresholdPercentage > 100)
  }

  lemma MadeAsConfigured(m: InstantiateMsg, w: World, e: Event, id: nat, p: Proposal)
    requires Made(w, e, id, p)
    requires w.store.council.percentage == m.thresholdPercentage && w.store.council.period == m.maxVotingPeriod
    ensures p.percentage == m.thresholdPercentage
    ensures Ends(p.expires, m.maxVotingPeriod, w.block)
    ensures p.status == Rejected <==>
            NoTime(m.maxVotingPeriod) && |w.store.council.admins| * m.thresholdPercentage > 100
  {
  }

  lemma MadeMoves(w: World, e: Event, id: nat, p: Proposal, q: Proposal)
    requires Made(w, e, id, p) && Moves(p, q)
    ensures Made(w, e, id, q)
  {
  }

  /**
    Whatever is executed was asked for: when a proposal is executed in a reachable state, an admin
    asked for it earlier in the run, and the effect is the one of that request and no other.
   */
  lemma ExecutedAsAskedFor(w0: World, m: InstantiateMsg, funds: seq<Coin>, events: seq<Event>,
                           sender: Addr, id: nat, accept: bool)
    requires Start(w0, m, funds)
    requires id in Run(w0, events).store.council.proposals
    requires Transact(Run(w0, events), sender, ProcessProposal(id), accept).Some?
    ensures var w := Run(w0, events);
      var after := Transact(w, sender, ProcessProposal(id), accept).value;
      exists k :: 0 <= k < |events|
        && AskedAt(w0, m, events, k, id, w.store.council.proposals[id])
        && events[k].Tx? && StatedEffect(w, after, id, events[k].msg)
  {
    hide Run, Start, Transact, StatedEffect;
    ReachableMoney(w0, m, funds, events);
    ProposalsWereAskedFor(w0, m, funds, events, id);
    var w := Run(w0, events);
    var k :| 0 <= k < |events| && AskedAt(w0, m, events, k, id, w.store.council.proposals[id]);
    ExecutionHasStatedEffect(w, sender, id, events[k].msg, accept);
  }

  /**
    A proposal that is still open when its voting period is over stays as it is for ever; no later votes,
    changes of the admin set or attempts to execute it have any effect.
   */
  lemma {:induction false} ExpiredNeverExecutes(w0: World, m: InstantiateMsg, funds: seq<Coin>,
                                                past: seq<Event>, k: nat, id: nat, future: seq<Event>)
    requires Start(w0, m, funds)
    requires var w := Run(w0, past);
      && id in w.store.council.proposals
      && w.store.council.proposals[id].status == Open
      && k < |past| && AskedAt(w0, m, past, k, id, w.store.council.proposals[id])
      && !InTime(m.maxVotingPeriod, Run(w0, past[..k]).block, w.block)
    ensures var w, later := Run(w0, past), Run(Run(w0, past), future);
      && id in later.store.council.proposals
      && later.store.council.proposals[id] == w.store.council.proposals[id]
  {
    hide Run, Start;
    ReachableCouncil(w0, m, funds, past);
    ExpiredStays(PowersOf(w0.store), Run(w0, past), id, future);
  }

  lemma {:induction false} ExpiredStays(start: Powers, w: World, id: nat, future: seq<Event>)
    requires CouncilInv(w.store.council)
    requires id in w.store.council.proposals
    requires w.store.council.proposals[id].status == Open
    requires IsExpired(w.store.council.proposals[id].expires, w.block)
    ensures var later := Run(w, future);
      && CouncilInv(later.store.council)
      && id in later.store.council.proposals
      && later.store.council.proposals[id] == w.store.council.proposals[id]
      && IsExpired(w.store.council.proposals[id].expires, later.block)
    decreases |future|
  {
    hide Step, CouncilInv, Replay;
    if future != [] {
      var n := |future| - 1;
      ExpiredStays(start, w, id, future[..n]);
      var before := Run(w, future[..n]);
      StepCouncil(start, before, future[n]);
      ExpiredStep(start, before, id, future[n]);
    }
  }

  lemma ExpiredStep(start: Powers, w: World, id: nat, e: Event)
    requires CouncilInv(w.store.council)
    requires id in w.store.council.proposals
    requires var p := w.store.council.proposals[id];
      p.status == Open && IsExpired(p.expires, w.block)
    ensures var w' := Step(w, e);
      && id in w'.store.council.proposals
      && w'.store.council.proposals[id] == w.store.council.proposals[id]
      && IsExpired(w.store.council.proposals[id].expires, w'.block)
  {
    hide RunAll, Overflows, WithdrawReward, WithdrawUnlocked, ApplyInternal;
    if e.Tx? && e.sender != w.chain.self && Transact(w, e.sender, e.msg, e.accept).Some? {
      assert ProposalInv(w.store.council, id);
      var (s, msgs) := Handle(w.store, EnvOf(w), w.chain, e.sender, e.msg).value;
      HandleKeepsExpired(w, e.sender, e.msg, id);
      AllDispatched(start, w.(store := s), msgs, e.accept);
    }
  }

  lemma HandleKeepsExpired(w: World, sender: Addr, m: ExecuteMsg, id: nat)
    requires CouncilInv(w.store.council)
    requires id in w.store.council.proposals
    requires var p := w.store.council.proposals[id];
      p.status == Open && IsExpired(p.expires, w.block)
    requires sender != w.chain.self
    requires Handle(w.store, EnvOf(w), w.chain, sender, m).Ok?
    ensures var c := Handle(w.store, EnvOf(w), w.chain, sender, m).value.0.council;
      id in c.proposals && c.proposals[id] == w.store.council.proposals[id]
  {
    assert ProposalInv(w.store.council, id);
  }
}
