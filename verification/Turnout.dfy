/** Voting over whole runs: what counts is who tried to vote in time, whatever else happens. */
module Turnout {
  import opened Contract
  import opened GovernanceProofs
  import opened Machine
  import opened Types
  import opened Voting

  /**
    The sender of `e`, if it is an attempt of a present admin to vote for proposal `id` within the
    voting period that began in block `made`.
   */
  function Attempt(w: World, id: nat, e: Event, period: Duration, made: Block): set<Addr> {
    if e.Tx? && e.msg == VoteProposal(id) && e.sender != w.chain.self
       && e.sender in w.store.council.admins && InTime(period, made, w.block)
    then {e.sender} else {}
  }

  /** Everyone who made such an attempt during `events`. */
  function Attempters(w: World, id: nat, events: seq<Event>, period: Duration, made: Block): set<Addr>
    decreases |events|
  {
    if events == [] then {}
    else
      var n := |events| - 1;
      Attempters(w, id, events[..n], period, made) + Attempt(Run(w, events[..n]), id, events[n], period, made)
  }

  /** How a step changes who has voted for `id`. */
  ghost predicate VotersStep(c: Council, d: Council, id: nat, attempt: set<Addr>) {
    && id in c.proposals && id in d.proposals
    && (c.proposals[id].status == Open ==>
          && Voters(d, id) == Voters(c, id) + attempt
          && (attempt == {} ==> d.proposals[id].status == Open))
    && (c.proposals[id].status != Open ==> Voters(d, id) == Voters(c, id))
  }

  lemma SameBallots(c: Council, d: Council, id: nat)
    requires d.ballots == c.ballots
    ensures Voters(d, id) == Voters(c, id)
  {
  }

  lemma VoteVoters(w: World, e: Event, id: nat, period: Duration, made: Block)
    requires CouncilInv(w.store.council) && id in w.store.council.proposals
    requires Ends(w.store.council.proposals[id].expires, period, made)
    requires e.Tx? && e.msg.VoteProposal? && e.sender != w.chain.self
    ensures VotersStep(w.store.council, Step(w, e).store.council, id, Attempt(w, id, e, period, made))
  {
    hide Voters, Needed, CouncilInv;
    var c := w.store.council;
    var r := CastVote(c, w.block, e.sender, e.msg.id);
    if r.Ok? {
      VotersAdd(c, r.value, e.msg.id, e.sender);
    } else if e.msg.id == id && (id, e.sender) in c.ballots {
      AlreadyIn(c, id, e.sender);
    }
  }

  lemma AlreadyIn(c: Council, id: nat, a: Addr)
    requires (id, a) in c.ballots
    ensures a in Voters(c, id)
  {
  }

  lemma ProposeVoters(w: World, e: Event, id: nat, period: Duration, made: Block)
    requires CouncilInv(w.store.council) && id in w.store.council.proposals
    requires e.Tx? && e.sender != w.chain.self && ProposalMsgs(e.msg) != []
    ensures VotersStep(w.store.council, Step(w, e).store.council, id, Attempt(w, id, e, period, made))
  {
    hide Voters, Needed;
    var c := w.store.council;
    assert ProposalInv(c, id);
    var r := Propose(c, w.block, e.sender, ProposalMsgs(e.msg));
    if r.Ok? {
      VotersAdd(c, r.value, c.count + 1, e.sender);
    }
  }

  lemma ProcessVoters(w: World, e: Event, id: nat, period: Duration, made: Block)
    requires CouncilInv(w.store.council) && id in w.store.council.proposals
    requires e.Tx? && e.sender != w.chain.self && e.msg.ProcessProposal?
    ensures VotersStep(w.store.council, Step(w, e).store.council, id, Attempt(w, id, e, period, made))
  {
    hide Voters, Needed, RunAll, SelfCalls, Replay, Calls;
    var c := w.store.council;
    assert ProposalInv(c, id);
    if Transact(w, e.sender, e.msg, e.accept).Some? {
      var d := Process(c, w.block, e.sender, e.msg.id).value;
      var mid := w.(store := w.store.(council := d));
      AllDispatched(PowersOf(w.store), mid, c.proposals[e.msg.id].msgs, e.accept);
    }
    SameBallots(c, Step(w, e).store.council, id);
  }

  lemma OtherVoters(w: World, e: Event, id: nat, period: Duration, made: Block)
    requires id in w.store.council.proposals
    requires e.Tx? ==> ProposalMsgs(e.msg) == [] && !e.msg.VoteProposal? && !e.msg.ProcessProposal?
    ensures VotersStep(w.store.council, Step(w, e).store.council, id, Attempt(w, id, e, period, made))
  {
    hide RunAll, Voters;
    if e.Tx? && e.sender != w.chain.self && Transact(w, e.sender, e.msg, e.accept).Some? {
      var (s, msgs) := Handle(w.store, EnvOf(w), w.chain, e.sender, e.msg).value;
      OtherMsgs(w, e.sender, e.msg);
      RunAllOnChain(w.(store := s), msgs, e.accept);
    }
  }

  lemma StepVoters(w: World, e: Event, id: nat, period: Duration, made: Block)
    requires CouncilInv(w.store.council) && id in w.store.council.proposals
    requires Ends(w.store.council.proposals[id].expires, period, made)
    ensures VotersStep(w.store.council, Step(w, e).store.council, id, Attempt(w, id, e, period, made))
  {
    hide CouncilInv, VotersStep;
    if !e.Tx? {
      OtherVoters(w, e, id, period, made);
    } else if e.sender == w.chain.self {
      NoVoters(w, e, id, period, made);
    } else if e.msg.VoteProposal? {
      VoteVoters(w, e, id, period, made);
    } else if e.msg.ProcessProposal? {
      ProcessVoters(w, e, id, period, made);
    } else if ProposalMsgs(e.msg) != [] {
      ProposeVoters(w, e, id, period, made);
    } else {
      OtherVoters(w, e, id, period, made);
    }
  }

  lemma NoVoters(w: World, e: Event, id: nat, period: Duration, made: Block)
    requires id in w.store.council.proposals
    requires e.Tx? && e.sender == w.chain.self
    ensures VotersStep(w.store.council, Step(w, e).store.council, id, Attempt(w, id, e, period, made))
  {
  }

  /** The recorded voters are among the attempters, and all of them are recorded while it is open. */
  lemma {:induction false} RunVoters(start: Powers, w: World, id: nat, future: seq<Event>,
                                     period: Duration, made: Block)
    requires CouncilInv(w.store.council)
    requires id in w.store.council.proposals
    requires Ends(w.store.council.proposals[id].expires, period, made)
    ensures var d := Run(w, future).store.council;
      var turnout := Voters(w.store.council, id) + Attempters(w, id, future, period, made);
      && CouncilInv(d)
      && id in d.proposals
      && d.proposals[id] == w.store.council.proposals[id].(status := d.proposals[id].status, yes := d.proposals[id].yes)
      && Voters(d, id) <= turnout
      && (d.proposals[id].status == Open ==> Voters(d, id) == turnout)
      && (d.proposals[id].status == Rejected <==> w.store.council.proposals[id].status == Rejected)
    decreases |future|
  {
    hide Step, CouncilInv, Replay, Voters, Attempt, Ends;
    if future != [] {
      var n := |future| - 1;
      RunVoters(start, w, id, future[..n], period, made);
      var before := Run(w, future[..n]);
      StepCouncil(start, before, future[n]);
      StepVoters(before, future[n], id, period, made);
      assert Moves(before.store.council.proposals[id], Run(w, future).store.council.proposals[id]);
    }
  }

  /** A proposal that was not rejected at birth passes exactly when enough attempted to vote. */
  lemma TurnoutDecides(start: Powers, w: World, id: nat, future: seq<Event>, period: Duration, made: Block)
    requires CouncilInv(w.store.council)
    requires id in w.store.council.proposals
    requires Ends(w.store.council.proposals[id].expires, period, made)
    ensures var p := w.store.council.proposals[id];
      var d := Run(w, future).store.council;
      var turnout := Voters(w.store.council, id) + Attempters(w, id, future, period, made);
      && id in d.proposals
      && (d.proposals[id].status in {Passed, Executed} <==>
          p.status != Rejected && 100 * |turnout| >= p.totalWeight * p.percentage)
  {
    hide Run, Voters, Attempters, Needed, Ends;
    RunVoters(start, w, id, future, period, made);
    var d := Run(w, future).store.council;
    var p := w.store.council.proposals[id];
    var turnout := Voters(w.store.council, id) + Attempters(w, id, future, period, made);
    assert ProposalInv(d, id);
    CardinalityMonotone(Voters(d, id), turnout);
    NeededReaches(p.totalWeight, p.percentage, |turnout|);
  }
}
