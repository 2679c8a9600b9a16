/** Why the vault pays, whom, and which counter records it, for every single step. */
module Payments {
  import opened Chains
  import opened Contract
  import opened Effects
  import opened GovernanceProofs
  import opened LedgerProofs
  import opened Machine
  import opened Schedules
  import opened Sums
  import opened Sweep
  import opened Types
  import opened Voting

  datatype Purpose = ForUnlocked | ForRewards | ForEmergency

  /** What payments made by event `e` are for. */
  function PurposeOf(e: Event): Option<Purpose> {
    if !e.Tx? then None
    else match e.msg
      case InitiateWithdrawUnlocked(_) => Some(ForUnlocked)
      case InitiateWithdrawReward => Some(ForRewards)
      case ProcessProposal(_) => Some(ForEmergency)
      case _ => None
  }

  /** In state `w` event `e` may make payment `t`: who asked may ask for it, and it goes where it is owed. */
  ghost predicate Due(w: World, e: Event, t: Transfer) {
    match PurposeOf(e)
    case None => false
    case Some(ForUnlocked) => e.sender in w.store.ops && t.to == w.store.unlockAddress
    case Some(ForRewards) => e.sender in w.store.ops && t.to == w.store.rewardAddress
    case Some(ForEmergency) =>
      && e.sender in w.store.council.admins
      && e.msg.id in w.store.council.proposals
      && SelfCall(WithdrawLocked(t.to)) in w.store.council.proposals[e.msg.id].msgs
      && NewlyExecuted(w, e) == [e.msg.id]
  }

  function PaidIn(w: World, e: Event): nat {
    Sum(Amounts(Fresh(w.chain, Step(w, e).chain)))
  }

  /** Payments are only added, each is owed, and the counter of their purpose records their sum. */
  ghost predicate StepPayments(w: World, e: Event) {
    var after := Step(w, e);
    var l, l' := w.store.ledger, after.store.ledger;
    var purpose := PurposeOf(e);
    && w.chain.outbox <= after.chain.outbox
    && (forall t :: t in Fresh(w.chain, after.chain) ==> Due(w, e, t))
    && l'.withdrawnUnlocked == l.withdrawnUnlocked + (if purpose == Some(ForUnlocked) then PaidIn(w, e) else 0)
    && l'.withdrawnRewards == l.withdrawnRewards + (if purpose == Some(ForRewards) then PaidIn(w, e) else 0)
    && l'.withdrawnLocked == l.withdrawnLocked + (if purpose == Some(ForEmergency) then PaidIn(w, e) else 0)
  }

  lemma NoPayments(w: World, e: Event)
    requires Step(w, e).chain.outbox == w.chain.outbox
    requires Step(w, e).store.ledger == w.store.ledger
    ensures StepPayments(w, e)
  {
    hide Step, Due;
    assert Fresh(w.chain, Step(w, e).chain) == [];
  }

  lemma StakingPays(w: World, plan: Schedule, e: Event, m: CosmosMsg)
    requires MoneyInv(w, plan)
    requires e.Tx? && !m.SelfCall? && !m.Send?
    requires RunAll(w, [m], e.accept).Some? && Step(w, e) == RunAll(w, [m], e.accept).value
    ensures StepPayments(w, e)
  {
    hide Step, ScheduleInv, MsgsInv;
    RunAllOnChain(w, [m], e.accept);
    assert [m][1..] == [];
    assert RunMsgs(w.chain, [m], e.accept) == RunMsg(w.chain, m, e.accept);
    StakingGains(w.chain, m, e.accept);
    NoPayments(w, e);
  }

  lemma UnlockedPays(w: World, plan: Schedule, e: Event)
    requires MoneyInv(w, plan)
    requires e.Tx? && e.msg.InitiateWithdrawUnlocked? && e.sender != w.chain.self
    requires Transact(w, e.sender, e.msg, e.accept).Some?
    ensures StepPayments(w, e)
  {
    hide Sum, Collect, ScheduleInv, CoverInv, MsgsInv;
    OnlyRolesAct(w, e.sender, e.msg, e.accept);
    var s, amount := w.store, e.msg.amount;
    var (s', msgs) := WithdrawUnlocked(s, EnvOf(w), e.sender, amount).value;
    RunAllOnChain(w.(store := s'), msgs, e.accept);
    RunPayment(w.chain, s.unlockAddress, s.denom, amount, e.accept);
    SendPays(w.chain, s.unlockAddress, amount, e.accept);
  }

  lemma RewardPays(w: World, plan: Schedule, e: Event)
    requires MoneyInv(w, plan)
    requires e.Tx? && e.msg.InitiateWithdrawReward? && e.sender != w.chain.self
    requires Transact(w, e.sender, e.msg, e.accept).Some?
    ensures StepPayments(w, e)
  {
    hide Sum, ScheduleInv, MsgsInv, RunAll, RunMsgs, Surplus, AllPending, Staking.RewardMsgs;
    OnlyRolesAct(w, e.sender, e.msg, e.accept);
    var s, ch := w.store, w.chain;
    var (s', msgs) := WithdrawReward(s, ch, e.sender).value;
    RewardMsgsOnChain(ch, Staking.DelegatedValidators(ch), s.rewardAddress, s.denom);
    RunAllOnChain(w.(store := s'), msgs, e.accept);
    SweepRuns(s, ch, e.sender, e.accept);
  }

  /** Between `w` and `after` only the emergency withdrawals among `msgs` paid, and all is booked. */
  ghost predicate EmergencyPayments(w: World, after: World, msgs: seq<CosmosMsg>) {
    var l, l' := w.store.ledger, after.store.ledger;
    && after.store.denom == after.chain.denom
    && w.chain.outbox <= after.chain.outbox
    && (forall t :: t in Fresh(w.chain, after.chain) ==> SelfCall(WithdrawLocked(t.to)) in msgs)
    && l'.withdrawnLocked == l.withdrawnLocked + Sum(Amounts(Fresh(w.chain, after.chain)))
    && l'.withdrawnUnlocked == l.withdrawnUnlocked
    && l'.withdrawnRewards == l.withdrawnRewards
  }

  lemma OneEmergency(w: World, m: CosmosMsg, accept: bool)
    requires w.store.denom == w.chain.denom && Dispatchable(m)
    requires RunOne(w, m, accept).Some?
    ensures EmergencyPayments(w, RunOne(w, m, accept).value, [m])
  {
    var after := RunOne(w, m, accept).value;
    if m.SelfCall? && m.call.WithdrawLocked? {
      var locked := Sum(w.store.ledger.schedule.amounts);
      EmergencyPaysAll(w, m.call.dst, accept);
      var paid := if locked == 0 then [] else [Transfer(m.call.dst, locked)];
      assert Fresh(w.chain, after.chain) == paid;
      assert Amounts(paid) == if locked == 0 then [] else [locked];
    } else {
      assert Fresh(w.chain, after.chain) == [];
    }
  }

  lemma {:induction false} AllEmergency(w: World, msgs: seq<CosmosMsg>, accept: bool)
    requires w.store.denom == w.chain.denom
    requires forall m :: m in msgs ==> Dispatchable(m)
    requires RunAll(w, msgs, accept).Some?
    ensures EmergencyPayments(w, RunAll(w, msgs, accept).value, msgs)
    decreases |msgs|
  {
    hide RunOne, Sum, Amounts;
    if msgs == [] {
      NothingFresh(w.chain);
    } else {
      assert msgs[0] in msgs;
      var next := RunOne(w, msgs[0], accept).value;
      OneEmergency(w, msgs[0], accept);
      AllEmergency(next, msgs[1..], accept);
      FreshJoin(w.chain, next.chain, RunAll(w, msgs, accept).value.chain);
    }
  }

  lemma NothingFresh(ch: Chain)
    ensures Fresh(ch, ch) == [] && Sum(Amounts(Fresh(ch, ch))) == 0
  {
  }

  lemma ProcessPays(w: World, plan: Schedule, e: Event)
    requires MoneyInv(w, plan)
    requires e.Tx? && e.msg.ProcessProposal? && e.sender != w.chain.self
    requires Transact(w, e.sender, e.msg, e.accept).Some?
    ensures StepPayments(w, e)
  {
    hide RunAll, Sum, Amounts, ScheduleInv, CoverInv;
    OnlyRolesAct(w, e.sender, e.msg, e.accept);
    var c, id := w.store.council, e.msg.id;
    var d := Process(c, w.block, e.sender, id).value;
    var mid := w.(store := w.store.(council := d));
    AllEmergency(mid, c.proposals[id].msgs, e.accept);
    AllDispatched(PowersOf(w.store), mid, c.proposals[id].msgs, e.accept);
  }

  lemma StepPays(w: World, plan: Schedule, e: Event)
    requires MoneyInv(w, plan)
    ensures StepPayments(w, e)
  {
    hide StepPayments, MoneyInv, RunOne, WithdrawUnlocked, WithdrawReward, Propose, CastVote, Process;
    if e.OnChain? {
      MoneyBalanced(w, plan);
      EventBalanced(w.chain, e.event);
      NoPayments(w, e);
    } else if e.NextBlock? || e.sender == w.chain.self || Transact(w, e.sender, e.msg, e.accept).None? {
      NoPayments(w, e);
    } else {
      match e.msg
      case ExecDelegate(v, n) => StakingPays(w, plan, e, Delegate(v, Coin(w.store.denom, n)));
      case ExecRedelegate(v, u, n) => StakingPays(w, plan, e, Redelegate(v, u, Coin(w.store.denom, n)));
      case ExecUndelegate(v, n) => StakingPays(w, plan, e, Undelegate(v, Coin(w.store.denom, n)));
      case InitiateWithdrawUnlocked(_) => UnlockedPays(w, plan, e);
      case InitiateWithdrawReward => RewardPays(w, plan, e);
      case ProcessProposal(_) => ProcessPays(w, plan, e);
      case _ => NoPayments(w, e);
    }
  }

  lemma MoneyBalanced(w: World, plan: Schedule)
    requires MoneyInv(w, plan)
    ensures Balanced(w.chain)
  {
  }
}
