/** The money: what every step keeps, and what holds in every state a vault can reach. */
module LedgerProofs {
  import opened Chains
  import opened Contract
  import opened Machine
  import opened Schedules
  import opened Staking
  import opened State
  import opened Sums
  import opened Sweep
  import opened Tranches
  import opened Types
  import opened Voting

  // ---------------------------------------------------------------- the invariant

  /** The stored schedule is the original with the unlocked withdrawals consumed, or was emptied. */
  ghost predicate ScheduleInv(l: Ledger, plan: Schedule, now: nat) {
    && Sorted(plan) && Positive(plan)
    && l.total == Sum(plan.amounts)
    && l.withdrawnUnlocked <= Curve(plan, now)
    && (l.withdrawnLocked == 0 ==> l.schedule == Consume(plan, l.withdrawnUnlocked))
    && (l.withdrawnLocked > 0 ==> l.schedule == EMPTY)
    && Sum(l.schedule.amounts) + l.withdrawnUnlocked + l.withdrawnLocked == l.total
  }

  /** Payments are booked, and the schedule is covered by what the vault holds or lost to slashing. */
  ghost predicate CoverInv(l: Ledger, ch: Chain) {
    && Balanced(ch)
    && Paid(ch) == l.withdrawnUnlocked + l.withdrawnLocked + l.withdrawnRewards
    && Sum(l.schedule.amounts) <= Worth(ch) + ch.slashed
  }

  predicate Dispatchable(m: CosmosMsg) {
    m.SelfCall? || m.GovVote?
  }

  ghost predicate MsgsInv(c: Council) {
    forall id :: id in c.proposals ==> forall m :: m in c.proposals[id].msgs ==> Dispatchable(m)
  }

  ghost predicate MoneyInv(w: World, plan: Schedule) {
    && w.store.denom == w.chain.denom
    && ScheduleInv(w.store.ledger, plan, w.block.time)
    && CoverInv(w.store.ledger, w.chain)
    && MsgsInv(w.store.council)
  }

  lemma StartMoney(w: World, m: InstantiateMsg, funds: seq<Coin>)
    requires Start(w, m, funds)
    ensures MoneyInv(w, PlanOf(m.tranche))
  {
  }

  // ---------------------------------------------------------------- withdrawing what is unlocked

  lemma CollectedIsNext(l: Ledger, plan: Schedule, now: nat, r: nat)
    requires ScheduleInv(l, plan, now)
    requires l.withdrawnLocked == 0 && r <= Vested(l.schedule, now)
    ensures l.withdrawnUnlocked + r <= Curve(plan, now) <= Sum(plan.amounts)
    ensures Collected(l.schedule, now, r) == Consume(plan, l.withdrawnUnlocked + r)
    ensures Sum(Collected(l.schedule, now, r).amounts) == Sum(l.schedule.amounts) - r
  {
    hide Consume, Collected, Curve, Vested, Sum;
    Available(l, plan, now);
    VestedBounds(plan, now);
    ConsumeShape(plan, l.withdrawnUnlocked);
    ConsumeShape(plan, l.withdrawnUnlocked + r);
    CollectedIsConsume(l.schedule, now, r);
    ConsumeTwice(plan, l.withdrawnUnlocked, r);
  }

  lemma CollectKeepsSchedule(l: Ledger, plan: Schedule, now: nat, r: nat)
    requires ScheduleInv(l, plan, now)
    requires Collect(l.schedule, now, r).Ok?
    ensures ScheduleInv(l.(schedule := Collect(l.schedule, now, r).value,
                           withdrawnUnlocked := l.withdrawnUnlocked + r), plan, now)
    ensures Sum(Collect(l.schedule, now, r).value.amounts) == Sum(l.schedule.amounts) - r
  {
    hide Consume, Curve;
    if l.withdrawnLocked == 0 {
      CollectedIsNext(l, plan, now, r);
    }
  }

  /** What is vested now is what the curve promised by now, less what was already taken. */
  lemma Available(l: Ledger, plan: Schedule, now: nat)
    requires ScheduleInv(l, plan, now)
    ensures Vested(l.schedule, now) ==
            if l.withdrawnLocked == 0 then Curve(plan, now) - l.withdrawnUnlocked else 0
  {
    if l.withdrawnLocked == 0 {
      VestedIsCurve(plan, now);
      VestedBounds(plan, now);
      CollectedIsConsume(plan, now, l.withdrawnUnlocked);
      CollectedShape(plan, now, l.withdrawnUnlocked);
    }
  }

  /** A payment that is booked as a withdrawal of principal keeps the books. */
  lemma PaymentKeepsCover(l: Ledger, l': Ledger, ch: Chain, to: Addr, amount: nat, accept: bool)
    requires CoverInv(l, ch)
    requires Sum(l'.schedule.amounts) == Sum(l.schedule.amounts) - amount
    requires l'.withdrawnUnlocked + l'.withdrawnLocked + l'.withdrawnRewards
          == l.withdrawnUnlocked + l.withdrawnLocked + l.withdrawnRewards + amount
    requires RunMsg(ch, Send(to, Coin(ch.denom, amount)), accept).Some?
    ensures CoverInv(l', RunMsg(ch, Send(to, Coin(ch.denom, amount)), accept).value)
  {
    SendPays(ch, to, amount, accept);
  }

  lemma UnlockedKeeps(w: World, plan: Schedule, sender: Addr, amount: nat, accept: bool)
    requires MoneyInv(w, plan)
    requires Transact(w, sender, InitiateWithdrawUnlocked(amount), accept).Some?
    ensures MoneyInv(Transact(w, sender, InitiateWithdrawUnlocked(amount), accept).value, plan)
  {
    hide Sum, Collect, Consume, Curve, Balanced, Worth, Paid;
    var s := w.store;
    var (s', msgs) := WithdrawUnlocked(s, EnvOf(w), sender, amount).value;
    CollectKeepsSchedule(s.ledger, plan, w.block.time, amount);
    RunAllOnChain(w.(store := s'), msgs, accept);
    RunPayment(w.chain, s.unlockAddress, s.denom, amount, accept);
    PaymentKeepsCover(s.ledger, s'.ledger, w.chain, s.unlockAddress, amount, accept);
    SendPays(w.chain, s.unlockAddress, amount, accept);
  }

  // ---------------------------------------------------------------- rewards

  lemma RewardKeeps(w: World, plan: Schedule, sender: Addr, accept: bool)
    requires MoneyInv(w, plan)
    requires Transact(w, sender, InitiateWithdrawReward, accept).Some?
    ensures MoneyInv(Transact(w, sender, InitiateWithdrawReward, accept).value, plan)
  {
    hide RunAll, RunMsgs, MsgsInv, Staking.RewardMsgs, Sum;
    var s, ch := w.store, w.chain;
    var (s', msgs) := WithdrawReward(s, ch, sender).value;
    RewardMsgsOnChain(ch, DelegatedValidators(ch), s.rewardAddress, s.denom);
    RunAllOnChain(w.(store := s'), msgs, accept);
    SweepRuns(s, ch, sender, accept);
    PaysOnlyTotals(ch, RunMsgs(ch, msgs, accept).value, s.rewardAddress, Surplus(s, ch) + AllPending(ch), ch.self);
    MsgsBalanced(ch, msgs, accept);
    ClearedStakes(ch.delegations, |ch.delegations|);
    StakedInOwnDenom(ch);
  }

  // ---------------------------------------------------------------- staking

  lemma StakingKeeps(w: World, plan: Schedule, m: CosmosMsg, accept: bool)
    requires MoneyInv(w, plan)
    requires !m.SelfCall? && !m.Send?
    requires RunAll(w, [m], accept).Some?
    ensures MoneyInv(RunAll(w, [m], accept).value, plan)
    ensures RunAll(w, [m], accept).value.store == w.store
  {
    RunAllOnChain(w, [m], accept);
    assert [m][1..] == [];
    assert RunMsgs(w.chain, [m], accept) == RunMsg(w.chain, m, accept);
    StakingGains(w.chain, m, accept);
    MsgBalanced(w.chain, m, accept);
  }

  // ---------------------------------------------------------------- executed proposals

  lemma SelfCallKeeps(w: World, plan: Schedule, call: InternalMsg, accept: bool)
    requires MoneyInv(w, plan)
    requires RunSelfCall(w, call, accept).Some?
    ensures MoneyInv(RunSelfCall(w, call, accept).value, plan)
  {
    var (s', msgs) := ApplyInternal(w.store, call);
    if call.WithdrawLocked? {
      var amount := Sum(w.store.ledger.schedule.amounts);
      RunPayment(w.chain, call.dst, w.store.denom, amount, accept);
      PaymentKeepsCover(w.store.ledger, s'.ledger, w.chain, call.dst, amount, accept);
      SendPays(w.chain, call.dst, amount, accept);
      EmptiedSchedule(w.store.ledger, plan, w.block.time);
    }
  }

  /** If nothing remained to be emptied, the schedule was empty before. */
  lemma EmptiedSchedule(l: Ledger, plan: Schedule, now: nat)
    requires ScheduleInv(l, plan, now)
    ensures Sum(l.schedule.amounts) == 0 ==> l.schedule == EMPTY
  {
    if l.withdrawnLocked == 0 {
      VestedBounds(plan, now);
      ConsumeShape(plan, l.withdrawnUnlocked);
    }
  }

  lemma GovVoteIdle(w: World, m: CosmosMsg, accept: bool)
    requires m.GovVote?
    requires RunOne(w, m, accept).Some?
    ensures RunOne(w, m, accept).value == w
  {
  }

  lemma {:induction false} DispatchKeeps(w: World, plan: Schedule, msgs: seq<CosmosMsg>, accept: bool)
    requires MoneyInv(w, plan)
    requires forall m :: m in msgs ==> Dispatchable(m)
    requires RunAll(w, msgs, accept).Some?
    ensures MoneyInv(RunAll(w, msgs, accept).value, plan)
    decreases |msgs|
  {
    hide RunMsg, RunSelfCall, MoneyInv;
    if msgs != [] {
      var m := msgs[0];
      var next := RunOne(w, m, accept).value;
      assert m in msgs;
      if m.SelfCall? {
        SelfCallKeeps(w, plan, m.call, accept);
      } else {
        GovVoteIdle(w, m, accept);
      }
      DispatchKeeps(next, plan, msgs[1..], accept);
    }
  }

  // ---------------------------------------------------------------- every step

  lemma {:induction false} ProposeMsgs(c: Council, block: Block, sender: Addr, m: ExecuteMsg)
    requires MsgsInv(c)
    requires Propose(c, block, sender, ProposalMsgs(m)).Ok?
    ensures MsgsInv(Propose(c, block, sender, ProposalMsgs(m)).value)
  {
  }

  /** Storing a council whose messages are in order does not touch the money. */
  lemma CouncilKeeps(w: World, plan: Schedule, c: Council)
    requires MoneyInv(w, plan) && MsgsInv(c)
    ensures MoneyInv(w.(store := w.store.(council := c)), plan)
  {
  }

  lemma ProcessKeepsMoney(w: World, plan: Schedule, sender: Addr, id: nat, accept: bool)
    requires MoneyInv(w, plan)
    requires Transact(w, sender, ProcessProposal(id), accept).Some?
    ensures MoneyInv(Transact(w, sender, ProcessProposal(id), accept).value, plan)
  {
    hide RunAll, MoneyInv;
    var c := Process(w.store.council, w.block, sender, id).value;
    assert MsgsInv(w.store.council) && MsgsInv(c) by {
      MoneyMsgs(w, plan);
    }
    CouncilKeeps(w, plan, c);
    DispatchKeeps(w.(store := w.store.(council := c)), plan, w.store.council.proposals[id].msgs, accept);
  }

  lemma MoneyMsgs(w: World, plan: Schedule)
    requires MoneyInv(w, plan)
    ensures MsgsInv(w.store.council)
  {
  }

  lemma TransactKeeps(w: World, plan: Schedule, sender: Addr, m: ExecuteMsg, accept: bool)
    requires MoneyInv(w, plan)
    requires sender != w.chain.self
    requires Transact(w, sender, m, accept).Some?
    ensures MoneyInv(Transact(w, sender, m, accept).value, plan)
  {
    hide RunOne, MoneyInv, WithdrawUnlocked, WithdrawReward, Propose, CastVote, Process;
    match m
    case ExecDelegate(v, n) => StakingKeeps(w, plan, Delegate(v, Coin(w.store.denom, n)), accept);
    case ExecRedelegate(v, u, n) => StakingKeeps(w, plan, Redelegate(v, u, Coin(w.store.denom, n)), accept);
    case ExecUndelegate(v, n) => StakingKeeps(w, plan, Undelegate(v, Coin(w.store.denom, n)), accept);
    case InitiateWithdrawUnlocked(n) => UnlockedKeeps(w, plan, sender, n, accept);
    case InitiateWithdrawReward => RewardKeeps(w, plan, sender, accept);
    case UpdateOp(op, remove) => OpKeeps(w, plan, sender, op, remove);
    case VoteProposal(id) =>
      MoneyMsgs(w, plan);
      VoteMsgs(w.store.council, w.block, sender, id);
      CouncilKeeps(w, plan, CastVote(w.store.council, w.block, sender, id).value);
    case ProcessProposal(id) => ProcessKeepsMoney(w, plan, sender, id, accept);
    case Internal(call) =>
    case _ =>
      MoneyMsgs(w, plan);
      ProposeMsgs(w.store.council, w.block, sender, m);
      CouncilKeeps(w, plan, Propose(w.store.council, w.block, sender, ProposalMsgs(m)).value);
  }

  lemma OpKeeps(w: World, plan: Schedule, sender: Addr, op: Addr, remove: bool)
    requires MoneyInv(w, plan)
    requires ChangeOp(w.store, sender, op, remove).Ok?
    ensures MoneyInv(w.(store := ChangeOp(w.store, sender, op, remove).value.0), plan)
  {
  }

  lemma VoteMsgs(c: Council, block: Block, sender: Addr, id: nat)
    requires MsgsInv(c)
    requires CastVote(c, block, sender, id).Ok?
    ensures MsgsInv(CastVote(c, block, sender, id).value)
  {
  }

  lemma StepMoney(w: World, plan: Schedule, e: Event)
    requires MoneyInv(w, plan)
    ensures MoneyInv(Step(w, e), plan)
  {
    hide Transact;
    match e
    case Tx(sender, m, accept) =>
      if sender != w.chain.self && Transact(w, sender, m, accept).Some? {
        TransactKeeps(w, plan, sender, m, accept);
      }
    case NextBlock(blocks, nanos) =>
      CurveMonotone(plan, w.block.time, w.block.time + nanos);
    case OnChain(event) =>
      EventBalanced(w.chain, event);
  }

  lemma {:induction false} RunMoney(w: World, plan: Schedule, events: seq<Event>)
    requires MoneyInv(w, plan)
    ensures MoneyInv(Run(w, events), plan)
    decreases |events|
  {
    hide Step, MoneyInv;
    if events != [] {
      var n := |events| - 1;
      RunMoney(w, plan, events[..n]);
      StepMoney(Run(w, events[..n]), plan, events[n]);
    }
  }

  lemma ReachableMoney(w0: World, m: InstantiateMsg, funds: seq<Coin>, events: seq<Event>)
    requires Start(w0, m, funds)
    ensures MoneyInv(Run(w0, events), PlanOf(m.tranche))
  {
    StartMoney(w0, m, funds);
    RunMoney(w0, PlanOf(m.tranche), events);
  }
}
