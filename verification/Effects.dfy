/** What single transactions do, from the message sent to the state it leaves. */
module Effects {
  import opened Chains
  import opened Contract
  import opened GovernanceProofs
  import opened LedgerProofs
  import opened Machine
  import opened Schedules
  import opened Sums
  import opened Sweep
  import opened Types
  import opened Voting

  // ---------------------------------------------------------------- who may act

  predicate ForOperators(m: ExecuteMsg) {
    || m.ExecDelegate? || m.ExecRedelegate? || m.ExecUndelegate?
    || m.InitiateWithdrawUnlocked? || m.InitiateWithdrawReward?
  }

  /** Operators act on the money, admins on everything else, and outsiders on nothing. */
  lemma OnlyRolesAct(w: World, sender: Addr, m: ExecuteMsg, accept: bool)
    requires sender != w.chain.self
    requires Transact(w, sender, m, accept).Some?
    ensures !m.Internal?
    ensures ForOperators(m) ==> sender in w.store.ops
    ensures !ForOperators(m) ==> sender in w.store.council.admins
  {
  }

  /** The set of operators changes only as an admin asks. */
  lemma OpsChangeByAdmins(w: World, e: Event)
    ensures var ops, ops' := w.store.ops, Step(w, e).store.ops;
      if e.Tx? && e.sender != w.chain.self && e.msg.UpdateOp? && e.sender in w.store.council.admins
      then forall op :: op in ops' <==> if op == e.msg.op then !e.msg.remove else op in ops
      else ops' == ops
  {
    hide RunAll;
    if e.Tx? {
      var handled := Handle(w.store, EnvOf(w), w.chain, e.sender, e.msg);
      if handled.Ok? {
        var mid := w.(store := handled.value.0);
        RunNothing(mid, e.accept);
        if RunAll(mid, handled.value.1, e.accept).Some? {
          RunAllKeepsOps(mid, handled.value.1, e.accept);
        }
      }
    }
  }

  lemma RunNothing(w: World, accept: bool)
    ensures RunAll(w, [], accept) == Some(w)
  {
  }

  lemma {:induction false} RunAllKeepsOps(w: World, msgs: seq<CosmosMsg>, accept: bool)
    requires RunAll(w, msgs, accept).Some?
    ensures RunAll(w, msgs, accept).value.store.ops == w.store.ops
    decreases |msgs|
  {
    hide RunMsg, RunMsgs;
    if msgs != [] {
      RunAllKeepsOps(RunOne(w, msgs[0], accept).value, msgs[1..], accept);
    }
  }

  // ---------------------------------------------------------------- staking

  /** What is staked with validator `v`. */
  function StakeOf(ds: seq<Delegation>, v: string): nat {
    match Lookup(ds, v)
    case None => 0
    case Some(d) => d.amount
  }

  lemma TouchStake(ch: Chain, v: string, u: string)
    requires Distinct(ch.delegations)
    ensures Distinct(Touch(ch, v).delegations)
    ensures StakeOf(Touch(ch, v).delegations, u) == StakeOf(ch.delegations, u)
  {
    var i := Find(ch.delegations, v);
    if i < |ch.delegations| {
      LookupUpdate(ch.delegations, i, ch.delegations[i].(rewards := []), u);
    }
  }

  lemma TouchPays(ch: Chain, v: string)
    ensures Touch(ch, v).bank == ch.bank + PendingOf(ch, v)
  {
  }

  lemma AddStakeOf(ch: Chain, v: string, n: nat, u: string)
    requires Distinct(ch.delegations)
    ensures StakeOf(AddStake(ch, v, n).delegations, u) ==
            StakeOf(ch.delegations, u) + (if u == v then n else 0)
  {
    var ds := ch.delegations;
    var i := Find(ds, v);
    AddStakeAdds(ch, v, n);
    if i < |ds| {
      LookupUpdate(ds, i, ds[i].(amount := ds[i].amount + n), u);
    } else {
      var es := ds + [Delegation(v, n, [])];
      var k := Find(ds, u);
      if u == v {
        LookupAt(es, |ds|);
      } else if k < |ds| {
        LookupAt(es, k);
      }
    }
  }

  lemma CutStakeOf(ch: Chain, i: nat, n: nat, u: string)
    requires Distinct(ch.delegations)
    requires i < |ch.delegations| && n <= ch.delegations[i].amount
    ensures Distinct(CutStake(ch, i, n).delegations)
    ensures StakeOf(CutStake(ch, i, n).delegations, u) ==
            StakeOf(ch.delegations, u) - (if u == ch.delegations[i].validator then n else 0)
  {
    hide Lookup;
    var d := ch.delegations[i];
    LookupAt(ch.delegations, i);
    if n == d.amount {
      LookupRemove(ch.delegations, i, u);
    } else {
      LookupUpdate(ch.delegations, i, d.(amount := d.amount - n), u);
    }
  }

  lemma UnstakeOf(ch: Chain, v: string, n: nat, u: string)
    requires Distinct(ch.delegations)
    requires Unstake(ch, v, n).Some?
    ensures Distinct(Unstake(ch, v, n).value.delegations)
    ensures StakeOf(Unstake(ch, v, n).value.delegations, u) ==
            StakeOf(ch.delegations, u) - (if u == v then n else 0)
  {
    hide CutStake, StakeOf, Sum;
    var i := Find(ch.delegations, v);
    TouchStake(ch, v, u);
    CutStakeOf(PayRewards(ch, i), i, n, u);
  }

  /**
    The staking messages of an operator move exactly the stake they name: from the bank to a
    validator, from one validator to another, or from a validator into unbonding. Beyond that the
    bank takes in what the validators named owed in rewards. Nothing is stored and no one else's
    stake changes.
   */
  lemma StakingMovesStake(w: World, sender: Addr, m: ExecuteMsg, accept: bool, u: string)
    requires Distinct(w.chain.delegations)
    requires m.ExecDelegate? || m.ExecRedelegate? || m.ExecUndelegate?
    requires Transact(w, sender, m, accept).Some?
    ensures var w' := Transact(w, sender, m, accept).value;
      var before, after := StakeOf(w.chain.delegations, u), StakeOf(w'.chain.delegations, u);
      && w'.store == w.store
      && w'.chain.outbox == w.chain.outbox
      && match m
         case ExecDelegate(v, n) =>
           && after == before + (if u == v then n else 0)
           && w'.chain.unbonding == w.chain.unbonding
           && w'.chain.bank + n == w.chain.bank + PendingOf(w.chain, v)
         case ExecRedelegate(v, x, n) =>
           && v != x
           && after == before - (if u == v then n else 0) + (if u == x then n else 0)
           && w'.chain.unbonding == w.chain.unbonding
           && w'.chain.bank == w.chain.bank + PendingOf(w.chain, v) + PendingOf(w.chain, x)
         case ExecUndelegate(v, n) =>
           && after == before - (if u == v then n else 0)
           && w'.chain.unbonding == w.chain.unbonding + [n]
           && w'.chain.bank == w.chain.bank + PendingOf(w.chain, v)
  {
    hide RunAll;
    var (_, msgs) := Handle(w.store, EnvOf(w), w.chain, sender, m).value;
    assert msgs == [msgs[0]];
    RunAllOnChain(w, msgs, accept);
    assert msgs[1..] == [];
    assert RunMsgs(w.chain, msgs, accept) == RunMsg(w.chain, msgs[0], accept);
    StakingMsgMoves(w.chain, msgs[0], accept, u);
  }

  lemma StakingMsgMoves(ch: Chain, m: CosmosMsg, accept: bool, u: string)
    requires Distinct(ch.delegations)
    requires m.Delegate? || m.Redelegate? || m.Undelegate?
    requires RunMsg(ch, m, accept).Some?
    ensures var after := RunMsg(ch, m, accept).value;
      var before, now := StakeOf(ch.delegations, u), StakeOf(after.delegations, u);
      && after.outbox == ch.outbox
      && match m
         case Delegate(v, coin) =>
           && now == before + (if u == v then coin.amount else 0)
           && after.unbonding == ch.unbonding
           && after.bank + coin.amount == ch.bank + PendingOf(ch, v)
         case Redelegate(v, x, coin) =>
           && v != x
           && now == before - (if u == v then coin.amount else 0) + (if u == x then coin.amount else 0)
           && after.unbonding == ch.unbonding
           && after.bank == ch.bank + PendingOf(ch, v) + PendingOf(ch, x)
         case Undelegate(v, coin) =>
           && now == before - (if u == v then coin.amount else 0)
           && after.unbonding == ch.unbonding + [coin.amount]
           && after.bank == ch.bank + PendingOf(ch, v)
  {
    hide Sum, StakeOf, QueryDelegation;
    match m
    case Delegate(v, coin) =>
      TouchStake(ch, v, u);
      TouchPays(ch, v);
      var paid := Touch(ch, v);
      AddStakeOf(paid.(bank := paid.bank - coin.amount), v, coin.amount, u);
    case Redelegate(v, x, coin) =>
      UnstakeOf(ch, v, coin.amount, u);
      UnstakeGains(ch, v, coin.amount);
      UnstakeKeepsOthers(ch, v, coin.amount, x);
      var cut := Unstake(ch, v, coin.amount).value;
      TouchStake(cut, x, u);
      TouchPays(cut, x);
      AddStakeOf(Touch(cut, x), x, coin.amount, u);
    case Undelegate(v, coin) =>
      UnstakeOf(ch, v, coin.amount, u);
      UnstakeGains(ch, v, coin.amount);
  }

  // ---------------------------------------------------------------- proposals, from making to effect

  /** Event `e` made proposal `id`: an admin asked for it, and it holds what that admin asked for. */
  ghost predicate Made(w: World, e: Event, id: nat, p: Proposal) {
    var c := w.store.council;
    && id == c.count + 1 && id !in c.proposals
    && e.Tx? && e.sender in c.admins && p.proposer == e.sender
    && ProposalMsgs(e.msg) != [] && p.msgs == ProposalMsgs(e.msg)
    && (e.msg.ProposeGovVote? ==> p.msgs == [GovVote(e.msg.govProposal, e.msg.vote)])
    && p.startHeight == w.block.height
    && p.totalWeight == |c.admins|
    && p.percentage == c.percentage
    && Ends(p.expires, c.period, w.block)
    && (p.status == Rejected <==> NoTime(c.period) && |c.admins| * c.percentage > 100)
  }

  /** A proposal is stored under the next id, as asked for, with the ballot of its proposer. */
  lemma ProposingStores(w: World, sender: Addr, m: ExecuteMsg, accept: bool)
    requires CouncilInv(w.store.council)
    requires sender != w.chain.self && ProposalMsgs(m) != []
    requires Transact(w, sender, m, accept).Some?
    ensures var c := w.store.council;
      var w' := Transact(w, sender, m, accept).value;
      var d := w'.store.council;
      var id := c.count + 1;
      && id !in c.proposals && Voters(c, id) == {} && Voters(d, id) == {sender}
      && id in d.proposals
      && d == c.(count := id, proposals := c.proposals[id := d.proposals[id]], ballots := c.ballots + {(id, sender)})
      && w' == w.(store := w.store.(council := d))
      && Made(w, Tx(sender, m, accept), id, d.proposals[id])
  {
    var c := w.store.council;
    var d := Propose(c, w.block, sender, ProposalMsgs(m)).value;
    VotersAdd(c, d, d.count, sender);
    forall j | j in c.proposals
      ensures j <= c.count
    {
      assert ProposalInv(c, j);
    }
    assert Voters(c, d.count) == {};
  }

  /** A proposal that appears was made by the event at which it appears. */
  lemma NewProposalsAreMade(w: World, e: Event, id: nat)
    requires CouncilInv(w.store.council)
    requires id !in w.store.council.proposals && id in Step(w, e).store.council.proposals
    ensures Made(w, e, id, Step(w, e).store.council.proposals[id])
  {
    hide CouncilInv, Voters, RunAll, Needed, Dispatched;
    if e.Tx? && ProposalMsgs(e.msg) != [] {
      ProposingStores(w, e.sender, e.msg, e.accept);
    } else {
      OldProposals(w, e);
    }
  }

  /** No event but a request for a proposal adds one. */
  lemma OldProposals(w: World, e: Event)
    requires e.Tx? ==> ProposalMsgs(e.msg) == []
    ensures Step(w, e).store.council.proposals.Keys == w.store.council.proposals.Keys
  {
    hide RunAll, Calls, SelfCalls, Replay, Overflows;
    if e.Tx? && e.sender != w.chain.self && Transact(w, e.sender, e.msg, e.accept).Some? {
      var (s, msgs) := Handle(w.store, EnvOf(w), w.chain, e.sender, e.msg).value;
      AllDispatched(PowersOf(w.store), w.(store := s), msgs, e.accept);
    }
  }

  /** The council with proposal `id` marked executed: nothing else about it changes. */
  function Done(c: Council, id: nat): Council
    requires id in c.proposals
  {
    c.(proposals := c.proposals[id := c.proposals[id].(status := Executed)])
  }

  /** From `w` to `after` proposal `id`, asked for by `m`, was executed: its effect and nothing else. */
  ghost predicate StatedEffect(w: World, after: World, id: nat, m: ExecuteMsg)
    requires id in w.store.council.proposals
  {
    var s := w.store;
    var done := Done(s.council, id);
    match m
    case ProposeUpdateAdmin(a, remove) =>
      var admins := after.store.council.admins;
      && after == w.(store := s.(council := done.(admins := admins)), log := after.log)
      && forall x :: x in admins <==> if x == a then !remove else x in s.council.admins
    case ProposeUpdateUnlockedDistributionAddress(a) =>
      after == w.(store := s.(council := done, unlockAddress := a), log := after.log)
    case ProposeUpdateStakingRewardDistributionAddress(a) =>
      after == w.(store := s.(council := done, rewardAddress := a), log := after.log)
    case ProposeEmergencyWithdraw(dst) =>
      var locked := Sum(s.ledger.schedule.amounts);
      var emptied := s.ledger.(schedule := EMPTY, withdrawnLocked := s.ledger.withdrawnLocked + locked);
      && locked <= w.chain.bank
      && after == w.(store := s.(council := done, ledger := emptied),
                     chain := w.chain.(bank := w.chain.bank - (if dst == w.chain.self then 0 else locked),
                                       outbox := after.chain.outbox),
                     log := after.log)
      && PaysOnly(w.chain, after.chain, dst, locked)
    case ProposeGovVote(_, _) => after == w.(store := s.(council := done))
    case _ => false
  }

  lemma EmergencyEffect(w: World, id: nat, dst: Addr, accept: bool)
    requires w.store.denom == w.chain.denom
    requires id in w.store.council.proposals
    requires var mid := w.(store := w.store.(council := Done(w.store.council, id)));
      RunSelfCall(mid, WithdrawLocked(dst), accept).Some?
    ensures var mid := w.(store := w.store.(council := Done(w.store.council, id)));
      StatedEffect(w, RunSelfCall(mid, WithdrawLocked(dst), accept).value, id, ProposeEmergencyWithdraw(dst))
  {
    hide RunMsg, RunMsgs, Sum, PaysOnly;
    var mid := w.(store := w.store.(council := Done(w.store.council, id)));
    EmergencyPaysAll(mid, dst, accept);
    EmergencyPaysOnly(mid, dst, accept);
    PaysOnlyOutbox(mid.chain, w.chain, RunSelfCall(mid, WithdrawLocked(dst), accept).value.chain, dst,
                   Sum(w.store.ledger.schedule.amounts));
  }

  lemma PaysOnlyOutbox(a: Chain, b: Chain, after: Chain, to: Addr, amount: nat)
    requires a.outbox == b.outbox && PaysOnly(a, after, to, amount)
    ensures PaysOnly(b, after, to, amount)
  {
  }

  /** Executing a proposal does what its kind says and leaves the rest of the world as it was. */
  lemma ExecutionHasStatedEffect(w: World, sender: Addr, id: nat, m: ExecuteMsg, accept: bool)
    requires w.store.denom == w.chain.denom
    requires id in w.store.council.proposals
    requires ProposalMsgs(m) != [] && w.store.council.proposals[id].msgs == ProposalMsgs(m)
    requires Transact(w, sender, ProcessProposal(id), accept).Some?
    ensures StatedEffect(w, Transact(w, sender, ProcessProposal(id), accept).value, id, m)
  {
    hide RunAll, RunMsg, PaysOnly, Sum;
    var d := Process(w.store.council, w.block, sender, id).value;
    assert d == Done(w.store.council, id);
    var mid := w.(store := w.store.(council := d));
    assert ProposalMsgs(m) == [ProposalMsgs(m)[0]];
    RunSingle(mid, ProposalMsgs(m)[0], accept);
    match m
    case ProposeEmergencyWithdraw(dst) =>
      hide RunSelfCall, StatedEffect;
      EmergencyEffect(w, id, dst, accept);
    case ProposeGovVote(g, v) => GovVoteIdle(mid, GovVote(g, v), accept);
    case _ => RunMsgsNothing(w.chain, accept);
  }

  lemma EmergencyPaysOnly(w: World, dst: Addr, accept: bool)
    requires w.store.denom == w.chain.denom
    requires RunSelfCall(w, WithdrawLocked(dst), accept).Some?
    ensures PaysOnly(w.chain, RunSelfCall(w, WithdrawLocked(dst), accept).value.chain, dst,
                     Sum(w.store.ledger.schedule.amounts))
  {
    hide RunMsg, PaysOnly;
    var locked := Sum(w.store.ledger.schedule.amounts);
    RunPayment(w.chain, dst, w.store.denom, locked, accept);
    SendPays(w.chain, dst, locked, accept);
  }

  lemma RunMsgsNothing(ch: Chain, accept: bool)
    ensures RunMsgs(ch, [], accept) == Some(ch)
  {
  }

  lemma RunSingle(w: World, m: CosmosMsg, accept: bool)
    ensures RunAll(w, [m], accept) == RunOne(w, m, accept)
  {
    assert [m][1..] == [];
    var next := RunOne(w, m, accept);
    if next.Some? {
      RunNothing(next.value, accept);
    }
  }
}
