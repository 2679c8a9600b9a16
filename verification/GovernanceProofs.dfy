/** The council over whole runs: tallies, passing, execution and what privileged calls change. */
module GovernanceProofs {
  import opened Chains
  import opened Contract
  import opened Machine
  import opened Schedules
  import opened State
  import opened Sums
  import opened Sweep
  import opened Types
  import opened Voting

  // ---------------------------------------------------------------- what dispatching does

  function Calls(log: seq<Applied>): seq<InternalMsg> {
    seq(|log|, i requires 0 <= i < |log| => log[i].call)
  }

  /** The calls of the vault to itself among `msgs`. */
  function SelfCalls(msgs: seq<CosmosMsg>): seq<InternalMsg> {
    if msgs == [] then []
    else (if msgs[0].SelfCall? then [msgs[0].call] else []) + SelfCalls(msgs[1..])
  }

  /** What only privileged calls may change. */
  datatype Powers = Powers(admins: set<Addr>, unlockAddress: Addr, rewardAddress: Addr, withdrawnLocked: nat)

  function PowersOf(s: Store): Powers {
    Powers(s.council.admins, s.unlockAddress, s.rewardAddress, s.ledger.withdrawnLocked)
  }

  function Exert(p: Powers, a: Applied): Powers {
    match a.call
    case UpdateAdmin(admin, remove) =>
      p.(admins := if remove then p.admins - {admin} else p.admins + {admin})
    case UpdateUnlockedDistributionAddress(addr) => p.(unlockAddress := addr)
    case UpdateStakingRewardDistributionAddress(addr) => p.(rewardAddress := addr)
    case WithdrawLocked(_) => p.(withdrawnLocked := p.withdrawnLocked + a.amount)
  }

  /** The calls of `log` carried out one after the other from `p`. */
  function Replay(p: Powers, log: seq<Applied>): Powers
    decreases |log|
  {
    if log == [] then p
    else Exert(Replay(p, log[..|log| - 1]), log[|log| - 1])
  }

  lemma ReplayAppend(p: Powers, log: seq<Applied>, a: Applied)
    ensures Replay(p, log + [a]) == Exert(Replay(p, log), a)
  {
    assert (log + [a])[..|log|] == log;
  }

  /** `after` is `before` with the self-calls of `msgs` made and logged. */
  ghost predicate Dispatched(start: Powers, before: World, after: World, calls: seq<InternalMsg>) {
    && after.block == before.block
    && after.store.council == before.store.council.(admins := after.store.council.admins)
    && after.store.ledger.withdrawnRewards == before.store.ledger.withdrawnRewards
    && after.store.ledger.withdrawnUnlocked == before.store.ledger.withdrawnUnlocked
    && Calls(after.log) == Calls(before.log) + calls
    && (PowersOf(before.store) == Replay(start, before.log) ==>
          PowersOf(after.store) == Replay(start, after.log))
  }

  lemma SelfCallDispatched(start: Powers, w: World, call: InternalMsg, accept: bool)
    requires RunSelfCall(w, call, accept).Some?
    ensures Dispatched(start, w, RunSelfCall(w, call, accept).value, [call])
  {
    var after := RunSelfCall(w, call, accept).value;
    ReplayAppend(start, w.log, Applied(call, Locked(w.store, call)));
    assert after.log == w.log + [Applied(call, Locked(w.store, call))];
  }

  lemma {:induction false} AllDispatched(start: Powers, w: World, msgs: seq<CosmosMsg>, accept: bool)
    requires RunAll(w, msgs, accept).Some?
    ensures Dispatched(start, w, RunAll(w, msgs, accept).value, SelfCalls(msgs))
    decreases |msgs|
  {
    hide RunSelfCall, RunMsg, Replay;
    if msgs == [] {
      assert Calls(w.log) + [] == Calls(w.log);
    } else {
      var m := msgs[0];
      var next := RunOne(w, m, accept).value;
      if m.SelfCall? {
        SelfCallDispatched(start, w, m.call, accept);
      }
      AllDispatched(start, next, msgs[1..], accept);
      var after := RunAll(w, msgs, accept).value;
      assert Calls(after.log) == Calls(w.log) + SelfCalls(msgs);
    }
  }

  /** An emergency withdrawal goes through exactly when the bank holds all that is still locked. */
  lemma EmergencyPaysAll(w: World, dst: Addr, accept: bool)
    requires w.store.denom == w.chain.denom
    ensures var locked := Sum(w.store.ledger.schedule.amounts);
      var after := RunSelfCall(w, WithdrawLocked(dst), accept);
      && (after.Some? <==> locked <= w.chain.bank)
      && (after.Some? ==>
            && after.value.store.ledger == w.store.ledger.(schedule := EMPTY,
                                                         withdrawnLocked := w.store.ledger.withdrawnLocked + locked)
            && after.value.chain == w.chain.(bank := after.value.chain.bank, outbox := after.value.chain.outbox)
            && after.value.chain.outbox ==
               w.chain.outbox + (if locked == 0 then [] else [Transfer(dst, locked)])
            && after.value.chain.bank == (if dst == w.chain.self then w.chain.bank else w.chain.bank - locked))
  {
    var send := Send(dst, Coin(w.store.denom, Sum(w.store.ledger.schedule.amounts)));
    assert [send][1..] == [];
    assert RunMsgs(w.chain, [send], accept) == RunMsg(w.chain, send, accept);
  }

  // ---------------------------------------------------------------- one step of the council

  /** What a step may do to the council and the log. */
  ghost predicate CouncilStep(start: Powers, w: World, e: Event) {
    var after := Step(w, e);
    var c, d := w.store.council, after.store.council;
    && CouncilInv(d)
    && Advances(c, d)
    && (NewlyExecuted(w, e) == [] ==>
          && after.log == w.log
          && forall id :: id in d.proposals && d.proposals[id].status == Executed ==>
               id in c.proposals && c.proposals[id].status == Executed)
    && (NewlyExecuted(w, e) != [] ==>
          && var id := NewlyExecuted(w, e)[0];
          && c.proposals[id].status == Passed
          && Calls(after.log) == Calls(w.log) + SelfCalls(c.proposals[id].msgs)
          && forall j :: j in d.proposals && j != id && d.proposals[j].status == Executed ==>
               j in c.proposals && c.proposals[j].status == Executed)
    && (PowersOf(w.store) == Replay(start, w.log) ==> PowersOf(after.store) == Replay(start, after.log))
    && (forall b :: b in d.ballots && b !in c.ballots ==> e.Tx? && b.1 == e.sender && e.sender in c.admins)
  }

  predicate IsExecuted(w: World, id: nat) {
    id in w.store.council.proposals && w.store.council.proposals[id].status == Executed
  }

  /** The proposal that event `e` moved to executed, if any, as seen from outside. */
  function NewlyExecuted(w: World, e: Event): seq<nat> {
    if e.Tx? && e.msg.ProcessProposal? && e.msg.id in w.store.council.proposals
       && !IsExecuted(w, e.msg.id) && IsExecuted(Step(w, e), e.msg.id)
    then [e.msg.id] else []
  }

  /** A step that leaves council, powers and log alone. */
  lemma QuietStep(start: Powers, w: World, e: Event)
    requires CouncilInv(w.store.council)
    requires var after := Step(w, e);
      && after.store.council == w.store.council
      && PowersOf(after.store) == PowersOf(w.store)
      && after.log == w.log
    ensures CouncilStep(start, w, e)
  {
    hide Step, CouncilInv;
  }

  lemma StoreStep(start: Powers, w: World, e: Event, c: Council)
    requires CouncilInv(w.store.council)
    requires e.Tx? && e.sender != w.chain.self && e.sender in w.store.council.admins
    requires Step(w, e) == w.(store := w.store.(council := c))
    requires CouncilInv(c) && Advances(w.store.council, c) && c.admins == w.store.council.admins
    requires forall id :: id in c.proposals && c.proposals[id].status == Executed ==>
                            id in w.store.council.proposals && w.store.council.proposals[id].status == Executed
    requires forall b :: b in c.ballots && b !in w.store.council.ballots ==> b.1 == e.sender
    ensures CouncilStep(start, w, e)
  {
    hide Step, CouncilInv;
  }

  lemma ProposeStep(start: Powers, w: World, sender: Addr, m: ExecuteMsg, accept: bool)
    requires CouncilInv(w.store.council)
    requires sender != w.chain.self
    requires ProposalMsgs(m) != []
    ensures CouncilStep(start, w, Tx(sender, m, accept))
  {
    hide CouncilInv, CouncilStep, Needed, IsExpired;
    var r := Propose(w.store.council, w.block, sender, ProposalMsgs(m));
    if r.Ok? {
      ProposeKeeps(w.store.council, w.block, sender, ProposalMsgs(m));
      ProposeAdvances(w.store.council, w.block, sender, ProposalMsgs(m));
      StoreStep(start, w, Tx(sender, m, accept), r.value);
    } else {
      QuietStep(start, w, Tx(sender, m, accept));
    }
  }

  lemma VoteStep(start: Powers, w: World, sender: Addr, id: nat, accept: bool)
    requires CouncilInv(w.store.council)
    requires sender != w.chain.self
    ensures CouncilStep(start, w, Tx(sender, VoteProposal(id), accept))
  {
    hide CouncilInv, CouncilStep, Needed, IsExpired;
    var r := CastVote(w.store.council, w.block, sender, id);
    if r.Ok? {
      VoteKeeps(w.store.council, w.block, sender, id);
      StoreStep(start, w, Tx(sender, VoteProposal(id), accept), r.value);
    } else {
      QuietStep(start, w, Tx(sender, VoteProposal(id), accept));
    }
  }

  lemma ProcessStep(start: Powers, w: World, sender: Addr, id: nat, accept: bool)
    requires CouncilInv(w.store.council)
    requires sender != w.chain.self
    ensures CouncilStep(start, w, Tx(sender, ProcessProposal(id), accept))
  {
    hide CouncilInv, Replay, SelfCalls, RunAll, Calls, IsExpired, Needed;
    var e := Tx(sender, ProcessProposal(id), accept);
    var c := w.store.council;
    if Transact(w, sender, ProcessProposal(id), accept).Some? {
      var d := Process(c, w.block, sender, id).value;
      var mid := w.(store := w.store.(council := d));
      ProcessKeeps(c, w.block, sender, id);
      ProcessAdvances(c, w.block, sender, id);
      AllDispatched(start, mid, c.proposals[id].msgs, accept);
      AdminsApart(d, Step(w, e).store.council.admins);
    } else {
      QuietStep(start, w, e);
    }
  }

  lemma AdminsApart(c: Council, admins: set<Addr>)
    requires CouncilInv(c)
    ensures CouncilInv(c.(admins := admins))
  {
  }

  /** Everything but proposing, voting and processing leaves the council alone. */
  lemma OtherStep(start: Powers, w: World, e: Event)
    requires CouncilInv(w.store.council)
    requires e.Tx? ==> ProposalMsgs(e.msg) == [] && !e.msg.VoteProposal? && !e.msg.ProcessProposal?
    ensures CouncilStep(start, w, e)
  {
    hide CouncilInv, CouncilStep;
    if e.Tx? && e.sender != w.chain.self && Transact(w, e.sender, e.msg, e.accept).Some? {
      var (s, msgs) := Handle(w.store, EnvOf(w), w.chain, e.sender, e.msg).value;
      OtherMsgs(w, e.sender, e.msg);
      RunAllOnChain(w.(store := s), msgs, e.accept);
    }
    QuietStep(start, w, e);
  }

  lemma OtherMsgs(w: World, sender: Addr, m: ExecuteMsg)
    requires sender != w.chain.self
    requires ProposalMsgs(m) == [] && !m.VoteProposal? && !m.ProcessProposal?
    requires Handle(w.store, EnvOf(w), w.chain, sender, m).Ok?
    ensures var (s, msgs) := Handle(w.store, EnvOf(w), w.chain, sender, m).value;
      && (forall x :: x in msgs ==> !x.SelfCall?)
      && s.council == w.store.council
      && PowersOf(s) == PowersOf(w.store)
  {
    if m.InitiateWithdrawReward? {
      RewardMsgsOnChain(w.chain, Staking.DelegatedValidators(w.chain), w.store.rewardAddress, w.store.denom);
    }
  }

  lemma StepCouncil(start: Powers, w: World, e: Event)
    requires CouncilInv(w.store.council)
    ensures CouncilStep(start, w, e)
  {
    hide CouncilInv, CouncilStep;
    if !e.Tx? {
      OtherStep(start, w, e);
    } else if e.sender == w.chain.self {
      QuietStep(start, w, e);
    } else if e.msg.VoteProposal? {
      VoteStep(start, w, e.sender, e.msg.id, e.accept);
    } else if e.msg.ProcessProposal? {
      ProcessStep(start, w, e.sender, e.msg.id, e.accept);
    } else if ProposalMsgs(e.msg) != [] {
      ProposeStep(start, w, e.sender, e.msg, e.accept);
    } else {
      OtherStep(start, w, e);
    }
  }
}
