/**
  The handlers of the vault. Each has a specification on stored values, which says what is stored
  afterwards and which messages are emitted, and a method that works on the storage in place.
 */
module Contract {
  import opened Chains
  import opened Schedules
  import opened Staking
  import opened State
  import opened Sums
  import opened Tranches
  import opened Types
  import opened Vesting
  import opened Voting

  type Outcome = Result<(Store, seq<CosmosMsg>)>

  // ---------------------------------------------------------------- instantiation

  datatype InstantiateMsg = InstantiateMsg(
    admins: seq<Addr>,
    ops: seq<Addr>,
    tranche: Tranche,
    maxVotingPeriod: Duration,
    thresholdPercentage: nat)

  ghost predicate MayInstantiate(m: InstantiateMsg, block: Block, funds: seq<Coin>) {
    && m.admins != [] && m.ops != []
    && m.thresholdPercentage <= 100
    && Acceptable(m.tranche, block.time, funds)
  }

  function AddrSet(addrs: seq<Addr>): set<Addr> {
    set a | a in addrs
  }

  function InitialStore(m: InstantiateMsg): Store
    requires |m.tranche.timestamps| == |m.tranche.amounts|
  {
    Store(m.tranche.denom,
          Ledger(PlanOf(m.tranche), Sum(m.tranche.amounts), 0, 0, 0),
          Council(AddrSet(m.admins), m.thresholdPercentage, m.maxVotingPeriod, 0, map[], {}),
          AddrSet(m.ops),
          m.tranche.unlockAddress,
          m.tranche.rewardAddress)
  }

  method SaveAdmins(store: Storage, admins: seq<Addr>)
    modifies store`admins
    ensures store.admins == old(store.admins) + AddrSet(admins)
  {
    for i := 0 to |admins|
      invariant store.admins == old(store.admins) + AddrSet(admins[..i])
    {
      store.admins := store.admins + {admins[i]};
    }
  }

  method SaveOps(store: Storage, ops: seq<Addr>)
    modifies store`ops
    ensures store.ops == old(store.ops) + AddrSet(ops)
  {
    for i := 0 to |ops|
      invariant store.ops == old(store.ops) + AddrSet(ops[..i])
    {
      store.ops := store.ops + {ops[i]};
    }
  }

  method SaveConfiguration(store: Storage, m: InstantiateMsg)
    requires |m.tranche.timestamps| == |m.tranche.amounts|
    requires store.admins == {} && store.ops == {} && store.proposalCount == 0
    requires store.ballots == {} && store.proposals == map[]
    modifies store
    ensures store.Valid()
    ensures store.Snapshot() == InitialStore(m)
  {
    hide Sum;
    store.denom, store.totalAmount := m.tranche.denom, Sum(m.tranche.amounts);
    store.vestingTimestamps, store.vestingAmounts := m.tranche.timestamps, m.tranche.amounts;
    store.unlockDistributionAddress := m.tranche.unlockAddress;
    store.stakingRewardAddress := m.tranche.rewardAddress;
    store.maxVotingPeriod, store.adminVotingThreshold := m.maxVotingPeriod, m.thresholdPercentage;
    store.withdrawnStakingRewards, store.withdrawnUnlocked, store.withdrawnLocked := 0, 0, 0;
    SaveAdmins(store, m.admins);
    SaveOps(store, m.ops);
    assert store.Governance() == InitialStore(m).council;
    assert store.Vesting() == PlanOf(m.tranche);
  }

  method Instantiate(store: Storage, env: Env, funds: seq<Coin>, m: InstantiateMsg) returns (res: Result<()>)
    requires store.Valid()
    requires store.admins == {} && store.ops == {} && store.proposalCount == 0
    requires store.ballots == {} && store.proposals == map[]
    modifies store
    ensures store.Valid()
    ensures res.Ok? <==> MayInstantiate(m, env.block, funds)
    ensures m.admins == [] <==> res == Err(NoAdmins)
    ensures m.admins != [] && m.ops == [] <==> res == Err(NoOps)
    ensures m.admins != [] && m.ops != [] && m.thresholdPercentage > 100 <==> res == Err(InvalidThreshold)
    ensures res.Err? && res.error !in {NoAdmins, NoOps, InvalidThreshold} ==>
              Blame(res.error, m.tranche, env.block.time, funds)
    ensures res.Ok? ==> store.Snapshot() == InitialStore(m)
    ensures res.Ok? ==>
              && store.denom == m.tranche.denom
              && store.vestingTimestamps == m.tranche.timestamps && store.vestingAmounts == m.tranche.amounts
              && store.unlockDistributionAddress == m.tranche.unlockAddress
              && store.stakingRewardAddress == m.tranche.rewardAddress
              && (forall a :: a in store.admins <==> a in m.admins)
              && (forall a :: a in store.ops <==> a in m.ops)
              && store.adminVotingThreshold == m.thresholdPercentage && store.maxVotingPeriod == m.maxVotingPeriod
              && store.totalAmount == Sum(m.tranche.amounts)
              && store.withdrawnUnlocked == store.withdrawnLocked == store.withdrawnStakingRewards == 0
              && store.proposalCount == 0
    ensures res.Err? ==> store.Snapshot() == old(store.Snapshot())
  {
    if |m.admins| == 0 {
      return Err(NoAdmins);
    }
    if |m.ops| == 0 {
      return Err(NoOps);
    }
    if m.thresholdPercentage > 100 {
      return Err(InvalidThreshold);
    }
    hide Sum;
    res := Validate(m.tranche, env.block.time, funds);
    if res.Err? {
      return;
    }
    SaveConfiguration(store, m);
  }

  // ---------------------------------------------------------------- staking by operators

  function StakingMsg(s: Store, sender: Addr, m: CosmosMsg): Outcome {
    if sender in s.ops then Ok((s, [m])) else Err(Unauthorized)
  }

  // ---------------------------------------------------------------- withdrawing what is unlocked

  function WithdrawUnlocked(s: Store, env: Env, sender: Addr, amount: nat): Outcome {
    if sender !in s.ops then Err(Unauthorized)
    else match Collect(s.ledger.schedule, env.block.time, amount)
      case Err(e) => Err(e)
      case Ok(left) =>
        Ok((s.(ledger := s.ledger.(schedule := left,
                                   withdrawnUnlocked := s.ledger.withdrawnUnlocked + amount)),
            Payment(s.unlockAddress, s.denom, amount)))
  }

  method ExecuteInitiateWithdrawUnlocked(store: Storage, env: Env, sender: Addr, amount: nat)
    returns (res: Result<seq<CosmosMsg>>)
    requires store.Valid()
    modifies store
    ensures store.Valid()
    ensures Agrees(res, store.Snapshot(), old(store.Snapshot()),
                   WithdrawUnlocked(old(store.Snapshot()), env, sender, amount))
  {
    if sender !in store.ops {
      return Err(Unauthorized);
    }
    var collected := CollectVested(store, env.block.time, amount);
    if collected.Err? {
      return Err(collected.error);
    }
    store.withdrawnUnlocked := store.withdrawnUnlocked + collected.value;
    var response := DistributeVested(store, collected.value, []);
    assert response == Payment(store.unlockDistributionAddress, store.denom, amount);
    return Ok(response);
  }

  // ---------------------------------------------------------------- withdrawing rewards

  /** The stake in `denom`, as the query of all delegations reports it. */
  function StakedIn(ch: Chain, denom: string): nat {
    var all := QueryAllDelegations(ch);
    Sum(InDenom(seq(|all|, i requires 0 <= i < |all| => all[i].1), denom))
  }

  /** The principal that has not been paid out. */
  function Outstanding(l: Ledger): int {
    l.total - l.withdrawnLocked - l.withdrawnUnlocked
  }

  /**
    What the vault holds beyond the outstanding principal, as far as it is in the bank: rewards
    that staking operations brought in, and deposits.
   */
  function Surplus(s: Store, ch: Chain): nat {
    Max(0, Min(ch.bank, ch.bank + StakedIn(ch, s.denom) + Unbonding(ch) - Outstanding(s.ledger)))
  }

  method CalculateWithdrawnRewards(store: Storage, ch: Chain) returns (amount: nat)
    requires store.Valid()
    ensures amount == Surplus(store.Snapshot(), ch)
  {
    var bankBalance := ch.bank;
    var totalLocked := store.totalAmount;
    var withdrawnPrincipal := store.withdrawnLocked + store.withdrawnUnlocked;
    var staked := StakedIn(ch, store.denom);
    var unbonding := Unbonding(ch);
    var principalInBank: nat := 0;
    if withdrawnPrincipal + staked + unbonding < totalLocked {
      principalInBank := totalLocked - withdrawnPrincipal - staked - unbonding;
    }
    if principalInBank < bankBalance {
      return bankBalance - principalInBank;
    }
    return 0;
  }

  function WithdrawReward(s: Store, ch: Chain, sender: Addr): Outcome {
    if sender !in s.ops then Err(Unauthorized)
    else
      var validators := DelegatedValidators(ch);
      var swept := Surplus(s, ch) + Sum(RewardAmounts(ch, validators, s.denom));
      Ok((s.(ledger := s.ledger.(withdrawnRewards := s.ledger.withdrawnRewards + swept)),
          Payment(s.rewardAddress, s.denom, Surplus(s, ch))
          + RewardMsgs(ch, validators, s.rewardAddress, s.denom)))
  }

  /** For every validator in turn, emit the pair of messages and count its rewards. */
  method WithdrawFromAll(store: Storage, ch: Chain, before: seq<CosmosMsg>)
    returns (response: seq<CosmosMsg>, total: nat)
    ensures response == before + RewardMsgs(ch, DelegatedValidators(ch), store.stakingRewardAddress, store.denom)
    ensures total == Sum(RewardAmounts(ch, DelegatedValidators(ch), store.denom))
  {
    hide Sum, RewardMsgs, RewardPair, DelegationRewards;
    response, total := before, 0;
    WithdrawFromNone(ch, before, store.stakingRewardAddress, store.denom);
    var validators := DelegatedValidators(ch);
    ghost var amounts := RewardAmounts(ch, validators, store.denom);
    for i := 0 to |validators|
      invariant total == Sum(amounts[..i])
      invariant response == before + RewardMsgs(ch, validators[..i], store.stakingRewardAddress, store.denom)
    {
      var withdrawable := GetDelegationRewards(store, ch, validators[i]);
      response := response + RewardPair(validators[i], withdrawable, store.stakingRewardAddress, store.denom);
      total := total + withdrawable;
      SumSnoc(amounts, i);
      RewardMsgsSnoc(ch, validators, i, store.stakingRewardAddress, store.denom);
    }
    assert amounts[..|amounts|] == amounts;
    assert validators[..|validators|] == validators;
  }

  lemma WithdrawFromNone(ch: Chain, before: seq<CosmosMsg>, to: Addr, denom: string)
    ensures before == before + RewardMsgs(ch, [], to, denom)
    ensures Sum([]) == 0
  {
  }

  method ExecuteInitiateWithdrawReward(store: Storage, ch: Chain, sender: Addr)
    returns (res: Result<seq<CosmosMsg>>)
    requires store.Valid()
    modifies store`withdrawnStakingRewards
    ensures store.Valid()
    ensures Agrees(res, store.Snapshot(), old(store.Snapshot()),
                   WithdrawReward(old(store.Snapshot()), ch, sender))
  {
    if sender !in store.ops {
      return Err(Unauthorized);
    }
    var response := [];
    var total := CalculateWithdrawnRewards(store, ch);
    if total > 0 {
      response := response + [Send(store.stakingRewardAddress, Coin(store.denom, total))];
    }
    assert response == Payment(store.stakingRewardAddress, store.denom, total);
    var withdrawn;
    response, withdrawn := WithdrawFromAll(store, ch, response);
    total := total + withdrawn;
    store.withdrawnStakingRewards := store.withdrawnStakingRewards + total;
    return Ok(response);
  }

  // ---------------------------------------------------------------- operators

  function ChangeOp(s: Store, sender: Addr, op: Addr, remove: bool): Outcome {
    if sender !in s.council.admins then Err(Unauthorized)
    else Ok((s.(ops := if remove then s.ops - {op} else s.ops + {op}), []))
  }

  method ExecuteUpdateOp(store: Storage, sender: Addr, op: Addr, remove: bool)
    returns (res: Result<seq<CosmosMsg>>)
    requires store.Valid()
    modifies store`ops
    ensures Agrees(res, store.Snapshot(), old(store.Snapshot()),
                   ChangeOp(old(store.Snapshot()), sender, op, remove))
  {
    if sender !in store.admins {
      return Err(Unauthorized);
    }
    if remove {
      store.ops := store.ops - {op};
    } else {
      store.ops := store.ops + {op};
    }
    return Ok([]);
  }

  // ---------------------------------------------------------------- proposals

  /** Use a council operation on a store. */
  function OnCouncil(s: Store, r: Result<Council>, msgs: seq<CosmosMsg>): Outcome {
    match r
    case Err(e) => Err(e)
    case Ok(c) => Ok((s.(council := c), msgs))
  }

  method ExecutePropose(store: Storage, env: Env, sender: Addr, msgs: seq<CosmosMsg>)
    returns (res: Result<seq<CosmosMsg>>)
    requires store.Valid()
    modifies store`proposalCount, store`proposals, store`ballots
    ensures Agrees(res, store.Snapshot(), old(store.Snapshot()),
                   OnCouncil(old(store.Snapshot()), Propose(old(store.Governance()), env.block, sender, msgs), []))
  {
    if sender !in store.admins {
      return Err(Unauthorized);
    }
    var expires := After(store.maxVotingPeriod, env.block);
    var prop := Proposal(env.block.height, expires, msgs, Open, 1, store.adminVotingThreshold,
                         store.NumberOfAdmins(), sender);
    prop := UpdateStatus(prop, env.block);
    var id := store.NextProposalId();
    store.proposals := store.proposals[id := prop];
    store.ballots := store.ballots + {(id, sender)};
    return Ok([]);
  }

  method ExecuteVote(store: Storage, env: Env, sender: Addr, id: nat) returns (res: Result<seq<CosmosMsg>>)
    requires store.Valid()
    modifies store`proposals, store`ballots
    ensures Agrees(res, store.Snapshot(), old(store.Snapshot()),
                   OnCouncil(old(store.Snapshot()), CastVote(old(store.Governance()), env.block, sender, id), []))
  {
    if sender !in store.admins {
      return Err(Unauthorized);
    }
    if id !in store.proposals {
      return Err(NotFound);
    }
    var prop := store.proposals[id];
    if prop.status != Open {
      return Err(NotOpen);
    }
    if IsExpired(prop.expires, env.block) {
      return Err(Expired);
    }
    if (id, sender) in store.ballots {
      return Err(AlreadyVoted);
    }
    store.ballots := store.ballots + {(id, sender)};
    prop := prop.(yes := prop.yes + 1);
    prop := UpdateStatus(prop, env.block);
    store.proposals := store.proposals[id := prop];
    return Ok([]);
  }

  function ProcessMsgs(c: Council, id: nat): seq<CosmosMsg> {
    if id in c.proposals then c.proposals[id].msgs else []
  }

  method ExecuteProcessProposal(store: Storage, env: Env, sender: Addr, id: nat)
    returns (res: Result<seq<CosmosMsg>>)
    requires store.Valid()
    modifies store`proposals
    ensures var c := old(store.Governance());
      Agrees(res, store.Snapshot(), old(store.Snapshot()),
             OnCouncil(old(store.Snapshot()), Process(c, env.block, sender, id), ProcessMsgs(c, id)))
  {
    if sender !in store.admins {
      return Err(Unauthorized);
    }
    if id !in store.proposals {
      return Err(NotFound);
    }
    var prop := UpdateStatus(store.proposals[id], env.block);
    if prop.status != Passed {
      return Err(WrongExecuteStatus);
    }
    prop := prop.(status := Executed);
    store.proposals := store.proposals[id := prop];
    return Ok(prop.msgs);
  }

  /** The messages each kind of proposal carries. */
  function ProposalMsgs(m: ExecuteMsg): seq<CosmosMsg> {
    match m
    case ProposeUpdateAdmin(a, remove) => [SelfCall(UpdateAdmin(a, remove))]
    case ProposeUpdateUnlockedDistributionAddress(a) => [SelfCall(UpdateUnlockedDistributionAddress(a))]
    case ProposeUpdateStakingRewardDistributionAddress(a) =>
      [SelfCall(UpdateStakingRewardDistributionAddress(a))]
    case ProposeEmergencyWithdraw(dst) => [SelfCall(WithdrawLocked(dst))]
    case ProposeGovVote(g, v) => [GovVote(g, v)]
    case _ => []
  }

  // ---------------------------------------------------------------- calls by the vault itself

  function ApplyInternal(s: Store, call: InternalMsg): (Store, seq<CosmosMsg>) {
    match call
    case UpdateAdmin(a, remove) => (s.(council := ChangeAdmin(s.council, a, remove)), [])
    case UpdateUnlockedDistributionAddress(a) => (s.(unlockAddress := a), [])
    case UpdateStakingRewardDistributionAddress(a) => (s.(rewardAddress := a), [])
    case WithdrawLocked(dst) =>
      var amount := Sum(s.ledger.schedule.amounts);
      (s.(ledger := s.ledger.(schedule := EMPTY, withdrawnLocked := s.ledger.withdrawnLocked + amount)),
       [Send(dst, Coin(s.denom, amount))])
  }

  function HandleInternal(s: Store, env: Env, sender: Addr, call: InternalMsg): Outcome {
    if sender != env.self then Err(Unauthorized) else Ok(ApplyInternal(s, call))
  }

  method ExecuteInternal(store: Storage, env: Env, sender: Addr, call: InternalMsg)
    returns (res: Result<seq<CosmosMsg>>)
    requires store.Valid()
    modifies store
    ensures store.Valid()
    ensures Agrees(res, store.Snapshot(), old(store.Snapshot()),
                   HandleInternal(old(store.Snapshot()), env, sender, call))
  {
    hide Sum;
    if env.self != sender {
      return Err(Unauthorized);
    }
    match call
    case UpdateAdmin(admin, remove) =>
      if remove {
        store.admins := store.admins - {admin};
      } else {
        store.admins := store.admins + {admin};
      }
      return Ok([]);
    case UpdateUnlockedDistributionAddress(a) =>
      store.unlockDistributionAddress := a;
      return Ok([]);
    case UpdateStakingRewardDistributionAddress(a) =>
      store.stakingRewardAddress := a;
      return Ok([]);
    case WithdrawLocked(dst) =>
      var amount := Sum(store.vestingAmounts);
      store.vestingAmounts := [];
      store.vestingTimestamps := [];
      store.withdrawnLocked := store.withdrawnLocked + amount;
      return Ok([Send(dst, Coin(store.denom, amount))]);
  }

  // ---------------------------------------------------------------- the entry point

  /** What executing `m` stores and emits. */
  function Handle(s: Store, env: Env, ch: Chain, sender: Addr, m: ExecuteMsg): Outcome {
    match m
    case ExecDelegate(v, n) => StakingMsg(s, sender, Delegate(v, Coin(s.denom, n)))
    case ExecRedelegate(v, w, n) => StakingMsg(s, sender, Redelegate(v, w, Coin(s.denom, n)))
    case ExecUndelegate(v, n) => StakingMsg(s, sender, Undelegate(v, Coin(s.denom, n)))
    case InitiateWithdrawUnlocked(n) => WithdrawUnlocked(s, env, sender, n)
    case InitiateWithdrawReward => WithdrawReward(s, ch, sender)
    case UpdateOp(op, remove) => ChangeOp(s, sender, op, remove)
    case VoteProposal(id) => OnCouncil(s, CastVote(s.council, env.block, sender, id), [])
    case ProcessProposal(id) =>
      OnCouncil(s, Process(s.council, env.block, sender, id), ProcessMsgs(s.council, id))
    case Internal(call) => HandleInternal(s, env, sender, call)
    case _ => OnCouncil(s, Propose(s.council, env.block, sender, ProposalMsgs(m)), [])
  }

  /** A handler did what its specification says; an error leaves everything as it was. */
  ghost predicate Agrees(res: Result<seq<CosmosMsg>>, after: Store, before: Store, spec: Outcome) {
    match spec
    case Ok((s, msgs)) => res == Ok(msgs) && after == s
    case Err(e) => res == Err(e) && after == before
  }

  method Execute(store: Storage, env: Env, ch: Chain, sender: Addr, m: ExecuteMsg)
    returns (res: Result<seq<CosmosMsg>>)
    requires store.Valid()
    modifies store
    ensures store.Valid()
    ensures Agrees(res, store.Snapshot(), old(store.Snapshot()),
                   Handle(old(store.Snapshot()), env, ch, sender, m))
  {
    hide Agrees, StakingMsg, WithdrawUnlocked, WithdrawReward, ChangeOp, Propose, CastVote, Process, HandleInternal;
    match m
    case ExecDelegate(v, n) =>
      res := ExecuteStaking(store, sender, Delegate(v, Coin(store.denom, n)));
    case ExecRedelegate(v, w, n) =>
      res := ExecuteStaking(store, sender, Redelegate(v, w, Coin(store.denom, n)));
    case ExecUndelegate(v, n) =>
      res := ExecuteStaking(store, sender, Undelegate(v, Coin(store.denom, n)));
    case InitiateWithdrawUnlocked(n) =>
      res := ExecuteInitiateWithdrawUnlocked(store, env, sender, n);
    case InitiateWithdrawReward =>
      res := ExecuteInitiateWithdrawReward(store, ch, sender);
    case UpdateOp(op, remove) =>
      res := ExecuteUpdateOp(store, sender, op, remove);
    case VoteProposal(id) =>
      res := ExecuteVote(store, env, sender, id);
    case ProcessProposal(id) =>
      res := ExecuteProcessProposal(store, env, sender, id);
    case Internal(call) =>
      res := ExecuteInternal(store, env, sender, call);
    case _ =>
      res := ExecutePropose(store, env, sender, ProposalMsgs(m));
  }

  method ExecuteStaking(store: Storage, sender: Addr, m: CosmosMsg) returns (res: Result<seq<CosmosMsg>>)
    requires store.Valid()
    ensures Agrees(res, store.Snapshot(), store.Snapshot(), StakingMsg(store.Snapshot(), sender, m))
  {
    if sender !in store.ops {
      return Err(Unauthorized);
    }
    return Ok([m]);
  }
}
