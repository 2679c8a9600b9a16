/**
  When exactly a transaction goes through, for every message and in every reachable state; why a
  handler refuses; and what an accepted vote or change of operators stores.
 */
module Outcomes {
  import opened Chains
  import opened Contract
  import opened Effects
  import opened GovernanceProofs
  import opened LedgerProofs
  import opened Machine
  import opened Schedules
  import opened State
  import opened Sums
  import opened Sweep
  import opened Theorems
  import opened Tranches
  import opened Types
  import opened Voting

  // ---------------------------------------------------------------- the conditions

  /** There is a delegation to `v`, of at least `n`. */
  ghost predicate CanTake(ch: Chain, v: string, n: nat) {
    exists d :: d in ch.delegations && d.validator == v && n <= d.amount
  }

  /** Proposal `id` is open, and within the voting period that began when it was made. */
  ghost predicate Votable(w0: World, m: InstantiateMsg, events: seq<Event>, id: nat) {
    var w := Run(w0, events);
    var c := w.store.council;
    && id in c.proposals && c.proposals[id].status == Open
    && exists k :: 0 <= k < |events| && AskedAt(w0, m, events, k, id, c.proposals[id])
                   && InTime(m.maxVotingPeriod, Run(w0, events[..k]).block, w.block)
  }

  /** Proposal `id` has passed, and what it asks for can be done. */
  ghost predicate Executable(w: World, id: nat, accept: bool) {
    var c := w.store.council;
    && id in c.proposals && c.proposals[id].status == Passed
    && forall x :: x in c.proposals[id].msgs ==>
         && (x.SelfCall? && x.call.WithdrawLocked? ==> Sum(w.store.ledger.schedule.amounts) <= w.chain.bank)
         && (x.GovVote? ==> accept)
  }

  /** The condition for message `msg` of `sender` after `events`. */
  ghost predicate GoesThrough(w0: World, m: InstantiateMsg, events: seq<Event>,
                              sender: Addr, msg: ExecuteMsg, accept: bool)
    requires |m.tranche.timestamps| == |m.tranche.amounts|
  {
    var w := Run(w0, events);
    var ops, admins := w.store.ops, w.store.council.admins;
    var l, ch := w.store.ledger, w.chain;
    match msg
    case ExecDelegate(v, n) => sender in ops && accept && n <= ch.bank + PendingOf(ch, v)
    case ExecRedelegate(v, x, n) => sender in ops && accept && v != x && CanTake(ch, v, n)
    case ExecUndelegate(v, n) => sender in ops && accept && CanTake(ch, v, n)
    case InitiateWithdrawUnlocked(n) =>
      && sender in ops && n <= ch.bank
      && l.withdrawnUnlocked + n <= Curve(PlanOf(m.tranche), w.block.time)
      && (n > 0 ==> l.withdrawnLocked == 0)
      && LastSumFits(l.schedule, w.block.time, n)
    case InitiateWithdrawReward => sender in ops
    case UpdateOp(_, _) => sender in admins
    case VoteProposal(id) => sender in admins && (id, sender) !in w.store.council.ballots && Votable(w0, m, events, id)
    case ProcessProposal(id) => sender in admins && Executable(w, id, accept)
    case Internal(_) => false
    case _ => sender in admins
  }

  // ---------------------------------------------------------------- staking

  lemma UnstakeGoes(ch: Chain, v: string, n: nat)
    requires Distinct(ch.delegations)
    ensures Unstake(ch, v, n).Some? <==> CanTake(ch, v, n)
  {
    var i := Find(ch.delegations, v);
    if d :| d in ch.delegations && d.validator == v && n <= d.amount {
      var k :| 0 <= k < |ch.delegations| && ch.delegations[k] == d;
      LookupAt(ch.delegations, k);
    }
    if i < |ch.delegations| {
      assert ch.delegations[i] in ch.delegations;
    }
  }

  lemma MsgGoes(w: World, m: CosmosMsg, accept: bool)
    requires !m.SelfCall?
    ensures RunAll(w, [m], accept).Some? <==> RunMsg(w.chain, m, accept).Some?
  {
    RunSingle(w, m, accept);
  }

  lemma DelegateGoes(w: World, sender: Addr, v: string, n: nat, accept: bool)
    requires w.store.denom == w.chain.denom
    ensures Transact(w, sender, ExecDelegate(v, n), accept).Some? <==>
            sender in w.store.ops && accept && n <= w.chain.bank + PendingOf(w.chain, v)
  {
    hide RunAll, Touch, PendingOf;
    MsgGoes(w, Delegate(v, Coin(w.chain.denom, n)), accept);
    TouchPays(w.chain, v);
  }

  lemma RedelegateGoes(w: World, sender: Addr, v: string, x: string, n: nat, accept: bool)
    requires w.store.denom == w.chain.denom && Distinct(w.chain.delegations)
    ensures Transact(w, sender, ExecRedelegate(v, x, n), accept).Some? <==>
            sender in w.store.ops && accept && v != x && CanTake(w.chain, v, n)
  {
    hide RunAll, Unstake, Touch, CanTake;
    MsgGoes(w, Redelegate(v, x, Coin(w.chain.denom, n)), accept);
    UnstakeGoes(w.chain, v, n);
  }

  lemma UndelegateGoes(w: World, sender: Addr, v: string, n: nat, accept: bool)
    requires w.store.denom == w.chain.denom && Distinct(w.chain.delegations)
    ensures Transact(w, sender, ExecUndelegate(v, n), accept).Some? <==>
            sender in w.store.ops && accept && CanTake(w.chain, v, n)
  {
    hide RunAll, Unstake, CanTake;
    MsgGoes(w, Undelegate(v, Coin(w.chain.denom, n)), accept);
    UnstakeGoes(w.chain, v, n);
  }

  // ---------------------------------------------------------------- the council

  /** Messages that only store something go through when their handler accepts them. */
  lemma StoringGoes(w: World, sender: Addr, m: ExecuteMsg, accept: bool)
    requires sender != w.chain.self
    requires m.UpdateOp? || m.VoteProposal? || m.Internal? || ProposalMsgs(m) != []
    ensures Transact(w, sender, m, accept).Some? <==> Handle(w.store, EnvOf(w), w.chain, sender, m).Ok?
    ensures m.UpdateOp? || ProposalMsgs(m) != [] ==>
              (Transact(w, sender, m, accept).Some? <==> sender in w.store.council.admins)
    ensures m.Internal? ==> Transact(w, sender, m, accept).None?
  {
    var r := Handle(w.store, EnvOf(w), w.chain, sender, m);
    if r.Ok? {
      RunNothing(w.(store := r.value.0), accept);
    }
  }

  lemma VoteGoes(w0: World, m: InstantiateMsg, funds: seq<Coin>, events: seq<Event>,
                 sender: Addr, id: nat, accept: bool)
    requires Start(w0, m, funds)
    requires sender != Run(w0, events).chain.self
    ensures var w := Run(w0, events);
      Transact(w, sender, VoteProposal(id), accept).Some? <==>
        && sender in w.store.council.admins
        && (id, sender) !in w.store.council.ballots
        && Votable(w0, m, events, id)
  {
    hide Run, Start, RunAll, IsExpired, InTime, Needed;
    var w := Run(w0, events);
    StoringGoes(w, sender, VoteProposal(id), accept);
    if id in w.store.council.proposals {
      ProposalsWereAskedFor(w0, m, funds, events, id);
      var p := w.store.council.proposals[id];
      var k :| 0 <= k < |events| && AskedAt(w0, m, events, k, id, p);
      assert IsExpired(p.expires, w.block) <==> !InTime(m.maxVotingPeriod, Run(w0, events[..k]).block, w.block);
      if Votable(w0, m, events, id) {
        var j :| 0 <= j < |events| && AskedAt(w0, m, events, j, id, p)
                 && InTime(m.maxVotingPeriod, Run(w0, events[..j]).block, w.block);
        assert !IsExpired(p.expires, w.block);
      }
    }
  }

  lemma ProcessGoes(w: World, sender: Addr, id: nat, m: ExecuteMsg, accept: bool)
    requires CouncilInv(w.store.council) && w.store.denom == w.chain.denom
    requires id in w.store.council.proposals ==>
               ProposalMsgs(m) != [] && w.store.council.proposals[id].msgs == ProposalMsgs(m)
    ensures Transact(w, sender, ProcessProposal(id), accept).Some? <==>
            sender in w.store.council.admins && Executable(w, id, accept)
  {
    hide RunAll, RunMsgs, Sum, Needed, IsExpired;
    var c := w.store.council;
    if id in c.proposals {
      assert ProposalInv(c, id);
      var x := ProposalMsgs(m)[0];
      assert c.proposals[id].msgs == [x] && x in c.proposals[id].msgs;
      var r := Process(c, w.block, sender, id);
      if r.Ok? {
        var mid := w.(store := w.store.(council := r.value));
        RunSingle(mid, x, accept);
        if m.ProposeEmergencyWithdraw? {
          EmergencyPaysAll(mid, m.dst, accept);
        } else {
          RunMsgsNothing(w.chain, accept);
        }
      }
    }
  }

  lemma ProcessGoesInRuns(w0: World, m: InstantiateMsg, funds: seq<Coin>, events: seq<Event>,
                          sender: Addr, id: nat, accept: bool)
    requires Start(w0, m, funds)
    ensures var w := Run(w0, events);
      Transact(w, sender, ProcessProposal(id), accept).Some? <==>
        sender in w.store.council.admins && Executable(w, id, accept)
  {
    hide Run, Start, Transact, Executable, ScheduleInv, CoverInv, CouncilInv, Replay, Ends;
    var w := Run(w0, events);
    ReachableCouncil(w0, m, funds, events);
    ReachableMoney(w0, m, funds, events);
    if id in w.store.council.proposals {
      ProposalsWereAskedFor(w0, m, funds, events, id);
      var k :| 0 <= k < |events| && AskedAt(w0, m, events, k, id, w.store.council.proposals[id]);
      ProcessGoes(w, sender, id, events[k].msg, accept);
    } else {
      ProcessGoes(w, sender, id, InitiateWithdrawReward, accept);
    }
  }

  // ---------------------------------------------------------------- the theorem

  /**
    In every reachable state and for every message: a transaction of anyone but the vault itself
    goes through exactly under the condition of its kind. A passed proposal, in particular, can be
    executed at any time after, and no operator or admin is refused for any other reason.
   */
  lemma TransactionsGoThroughExactly(w0: World, m: InstantiateMsg, funds: seq<Coin>, events: seq<Event>,
                                     sender: Addr, msg: ExecuteMsg, accept: bool)
    requires Start(w0, m, funds)
    requires sender != Run(w0, events).chain.self
    ensures Transact(Run(w0, events), sender, msg, accept).Some? <==>
            GoesThrough(w0, m, events, sender, msg, accept)
  {
    hide Run, Start, Transact, Curve, LastSumFits, CanTake, Votable, Executable, PaysOnly, SweepOutcome;
    hide ScheduleInv, MsgsInv, PendingOf, Sum;
    var w := Run(w0, events);
    ReachableMoney(w0, m, funds, events);
    match msg
    case ExecDelegate(v, n) => DelegateGoes(w, sender, v, n, accept);
    case ExecRedelegate(v, x, n) => RedelegateGoes(w, sender, v, x, n, accept);
    case ExecUndelegate(v, n) => UndelegateGoes(w, sender, v, n, accept);
    case InitiateWithdrawUnlocked(n) => UnlockedWithdrawalExactly(w0, m, funds, events, sender, n, accept);
    case InitiateWithdrawReward =>
      if sender in w.store.ops {
        SweepIsSafe(w0, m, funds, events, sender, accept);
      } else if Transact(w, sender, msg, accept).Some? {
        OnlyRolesAct(w, sender, msg, accept);
      }
    case VoteProposal(id) => VoteGoes(w0, m, funds, events, sender, id, accept);
    case ProcessProposal(id) => ProcessGoesInRuns(w0, m, funds, events, sender, id, accept);
    case _ => StoringGoes(w, sender, msg, accept);
  }

  // ---------------------------------------------------------------- refusals

  /** Those who may send `msg`. */
  function Entitled(s: Store, env: Env, msg: ExecuteMsg): set<Addr> {
    if msg.Internal? then {env.self} else if ForOperators(msg) then s.ops else s.council.admins
  }

  /**
    Why a handler refuses, for every message: first the role of the sender, then for a vote an
    unknown, closed, expired or already counted one in this order, for an execution an unknown or
    not passed one, and for a withdrawal what the walk finds. Nothing else is ever refused.
   */
  lemma RefusalReasons(s: Store, env: Env, ch: Chain, sender: Addr, msg: ExecuteMsg)
    ensures var c := s.council;
      var r := Handle(s, env, ch, sender, msg);
      && (r == Err(Unauthorized) <==> sender !in Entitled(s, env, msg))
      && (sender in Entitled(s, env, msg) ==>
            match msg
            case InitiateWithdrawUnlocked(n) =>
              && (r == Err(Overflow) <==> Overflows(s.ledger.schedule, env.block.time, 0, n))
              && (r.Err? && r.error != Overflow <==> r == Err(NoSufficientUnlockedTokens))
            case VoteProposal(id) =>
              && (r == Err(NotFound) <==> id !in c.proposals)
              && (id in c.proposals ==>
                    var p := c.proposals[id];
                    && (r == Err(NotOpen) <==> p.status != Open)
                    && (r == Err(Expired) <==> p.status == Open && IsExpired(p.expires, env.block))
                    && (r == Err(AlreadyVoted) <==>
                          p.status == Open && !IsExpired(p.expires, env.block) && (id, sender) in c.ballots)
                    && (r.Ok? <==>
                          p.status == Open && !IsExpired(p.expires, env.block) && (id, sender) !in c.ballots))
            case ProcessProposal(id) =>
              && (r == Err(NotFound) <==> id !in c.proposals)
              && (id in c.proposals ==>
                    (r == Err(WrongExecuteStatus) <==> CurrentStatus(c.proposals[id], env.block) != Passed))
              && (r.Ok? <==> id in c.proposals && CurrentStatus(c.proposals[id], env.block) == Passed)
            case _ => r.Ok?)
  {
    hide Surplus, Vested;
  }

  // ---------------------------------------------------------------- messages

  /** The messages of a sweep: the surplus if there is any, then a pair for every delegation in order. */
  ghost predicate SweepMsgs(s: Store, ch: Chain, msgs: seq<CosmosMsg>) {
    var surplus := Surplus(s, ch);
    var n := if surplus == 0 then 0 else 1;
    && |msgs| == n + 2 * |ch.delegations|
    && (surplus > 0 ==> msgs[0] == Send(s.rewardAddress, Coin(s.denom, surplus)))
    && forall i :: 0 <= i < |ch.delegations| ==>
         var v := ch.delegations[i].validator;
         && msgs[n + 2 * i] == WithdrawDelegatorReward(v)
         && msgs[n + 2 * i + 1] == Send(s.rewardAddress, Coin(s.denom, Staking.DelegationRewards(ch, s.denom, v)))
  }

  /** The messages every handler emits; a withdrawal of nothing and an empty surplus emit none. */
  lemma EmitsExactly(s: Store, env: Env, ch: Chain, sender: Addr, msg: ExecuteMsg)
    requires Handle(s, env, ch, sender, msg).Ok?
    ensures var msgs := Handle(s, env, ch, sender, msg).value.1;
      match msg
      case ExecDelegate(v, n) => msgs == [Delegate(v, Coin(s.denom, n))]
      case ExecRedelegate(v, x, n) => msgs == [Redelegate(v, x, Coin(s.denom, n))]
      case ExecUndelegate(v, n) => msgs == [Undelegate(v, Coin(s.denom, n))]
      case InitiateWithdrawUnlocked(n) =>
        msgs == if n == 0 then [] else [Send(s.unlockAddress, Coin(s.denom, n))]
      case InitiateWithdrawReward => SweepMsgs(s, ch, msgs)
      case ProcessProposal(id) => id in s.council.proposals && msgs == s.council.proposals[id].msgs
      case Internal(WithdrawLocked(dst)) => msgs == [Send(dst, Coin(s.denom, Sum(s.ledger.schedule.amounts)))]
      case _ => msgs == []
  {
    hide Surplus, Overflows, SweepMsgs;
    if msg.InitiateWithdrawReward? {
      SweepEmits(s, ch, sender);
    }
  }

  lemma SweepEmits(s: Store, ch: Chain, sender: Addr)
    requires WithdrawReward(s, ch, sender).Ok?
    ensures SweepMsgs(s, ch, WithdrawReward(s, ch, sender).value.1)
  {
    hide Surplus, Sum, Staking.RewardMsgs, Staking.DelegationRewards;
    var vs := Staking.DelegatedValidators(ch);
    var to := s.rewardAddress;
    Staking.RewardMsgsAt(ch, vs, to, s.denom, 0);
    var pairs := Staking.RewardMsgs(ch, vs, to, s.denom);
    var n := if Surplus(s, ch) == 0 then 0 else 1;
    var msgs := WithdrawReward(s, ch, sender).value.1;
    assert |vs| == |ch.delegations| && |msgs| == n + |pairs|;
    forall i | 0 <= i < |ch.delegations|
      ensures var v := ch.delegations[i].validator;
        && msgs[n + 2 * i] == WithdrawDelegatorReward(v)
        && msgs[n + 2 * i + 1] == Send(to, Coin(s.denom, Staking.DelegationRewards(ch, s.denom, v)))
    {
      assert vs[i] == ch.delegations[i].validator;
      Staking.RewardMsgsAt(ch, vs, to, s.denom, i);
      assert msgs[n + 2 * i] == pairs[2 * i] && msgs[n + 2 * i + 1] == pairs[2 * i + 1];
    }
  }

  // ---------------------------------------------------------------- what is stored

  /** The proposal with one vote more, which was enough or not. */
  function Voted(p: Proposal, enough: bool): Proposal {
    p.(yes := p.yes + 1, status := if enough then Passed else Open)
  }

  /**
    An accepted vote adds one vote and one ballot and nothing else, and the proposal has then
    passed exactly if the votes reach the threshold of the instantiation.
   */
  lemma VoteIsRecorded(w0: World, m: InstantiateMsg, funds: seq<Coin>, events: seq<Event>,
                       sender: Addr, id: nat, accept: bool)
    requires Start(w0, m, funds)
    requires sender != Run(w0, events).chain.self
    requires Transact(Run(w0, events), sender, VoteProposal(id), accept).Some?
    ensures var w := Run(w0, events);
      var c := w.store.council;
      id in c.proposals && exists k ::
        && 0 <= k < |events| && AskedAt(w0, m, events, k, id, c.proposals[id])
        && var p, weight := c.proposals[id], |Run(w0, events[..k]).store.council.admins|;
        var q := Voted(p, 100 * (p.yes + 1) >= weight * m.thresholdPercentage);
        Transact(w, sender, VoteProposal(id), accept) ==
           Some(w.(store := w.store.(council := c.(proposals := c.proposals[id := q],
                                                   ballots := c.ballots + {(id, sender)}))))
  {
    hide Run, Start, RunAll, IsExpired, InTime, Needed, Made;
    var w := Run(w0, events);
    var c := w.store.council;
    StoringGoes(w, sender, VoteProposal(id), accept);
    ProposalsWereAskedFor(w0, m, funds, events, id);
    var p := c.proposals[id];
    var k :| 0 <= k < |events| && AskedAt(w0, m, events, k, id, p);
    var made := Run(w0, events[..k]);
    MadeWeight(made, events[k], id, p);
    NeededReaches(p.totalWeight, p.percentage, p.yes + 1);
    var d := CastVote(c, w.block, sender, id).value;
    RunNothing(w.(store := w.store.(council := d)), accept);
    assert d.proposals[id] == Voted(p, 100 * (p.yes + 1) >= |made.store.council.admins| * m.thresholdPercentage);
  }

  lemma MadeWeight(w: World, e: Event, id: nat, p: Proposal)
    requires Made(w, e, id, p)
    ensures p.totalWeight == |w.store.council.admins|
  {
  }

  /** An admin's change of operators adds or removes that one address and touches nothing else. */
  lemma OpUpdateIsAll(w: World, sender: Addr, op: Addr, remove: bool, accept: bool)
    requires Transact(w, sender, UpdateOp(op, remove), accept).Some?
    ensures var after := Transact(w, sender, UpdateOp(op, remove), accept).value;
      && after == w.(store := w.store.(ops := after.store.ops))
      && forall a :: a in after.store.ops <==> if a == op then !remove else a in w.store.ops
  {
    var s := ChangeOp(w.store, sender, op, remove).value.0;
    RunNothing(w.(store := s), accept);
  }
}
