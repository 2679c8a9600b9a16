/**
  The admin council as a value: proposals, ballots and the operations on them. A proposal counts
  yes votes only, because every ballot the vault records is a yes of weight one.
 */
module Voting {
  import opened Types

  datatype Status = Open | Passed | Rejected | Executed

  /** `totalWeight` is the number of admins when the proposal was made. */
  datatype Proposal = Proposal(
    startHeight: nat,
    expires: Expiration,
    msgs: seq<CosmosMsg>,
    status: Status,
    yes: nat,
    percentage: nat,
    totalWeight: nat,
    proposer: Addr)

  datatype Council = Council(
    admins: set<Addr>,
    percentage: nat,
    period: Duration,
    count: nat,
    proposals: map<nat, Proposal>,
    ballots: set<(nat, Addr)>)

  // ---------------------------------------------------------------- the rules of the cw3 package

  /** The smallest whole number of votes that is at least `percentage` percent of `weight`. */
  function Needed(weight: nat, percentage: nat): nat {
    (weight * percentage + 99) / 100
  }

  function After(d: Duration, block: Block): Expiration {
    match d
    case Height(n) => AtHeight(block.height + n)
    case Time(s) => AtTime(block.time + s * NANOS_PER_SECOND)
  }

  predicate IsExpired(e: Expiration, block: Block) {
    match e
    case AtHeight(h) => block.height >= h
    case AtTime(t) => block.time >= t
  }

  /** Whether `now` is within a voting period that began in block `made`. */
  predicate InTime(period: Duration, made: Block, now: Block) {
    match period
    case Height(n) => now.height < made.height + n
    case Time(s) => now.time < made.time + s * 1_000_000_000
  }

  /** `e` is the end of a voting period that began in block `made`. */
  ghost predicate Ends(e: Expiration, period: Duration, made: Block) {
    forall b :: IsExpired(e, b) <==> !InTime(period, made, b)
  }

  predicate IsPassed(p: Proposal) {
    p.yes >= Needed(p.totalWeight, p.percentage)
  }

  function CurrentStatus(p: Proposal, block: Block): Status {
    if p.status != Open then p.status
    else if IsPassed(p) then Passed
    else if IsExpired(p.expires, block) then Rejected
    else Open
  }

  function UpdateStatus(p: Proposal, block: Block): Proposal {
    p.(status := CurrentStatus(p, block))
  }

  // ---------------------------------------------------------------- operations

  function Propose(c: Council, block: Block, sender: Addr, msgs: seq<CosmosMsg>): Result<Council> {
    if sender !in c.admins then Err(Unauthorized)
    else
      var p := Proposal(block.height, After(c.period, block), msgs, Open, 1, c.percentage, |c.admins|, sender);
      var id := c.count + 1;
      Ok(c.(count := id,
            proposals := c.proposals[id := UpdateStatus(p, block)],
            ballots := c.ballots + {(id, sender)}))
  }

  function CastVote(c: Council, block: Block, sender: Addr, id: nat): Result<Council> {
    if sender !in c.admins then Err(Unauthorized)
    else if id !in c.proposals then Err(NotFound)
    else
      var p := c.proposals[id];
      if p.status != Open then Err(NotOpen)
      else if IsExpired(p.expires, block) then Err(Expired)
      else if (id, sender) in c.ballots then Err(AlreadyVoted)
      else
        Ok(c.(proposals := c.proposals[id := UpdateStatus(p.(yes := p.yes + 1), block)],
              ballots := c.ballots + {(id, sender)}))
  }

  /** Mark a passed proposal executed; its messages are then the caller's to dispatch. */
  function Process(c: Council, block: Block, sender: Addr, id: nat): Result<Council> {
    if sender !in c.admins then Err(Unauthorized)
    else if id !in c.proposals then Err(NotFound)
    else
      var p := UpdateStatus(c.proposals[id], block);
      if p.status != Passed then Err(WrongExecuteStatus)
      else Ok(c.(proposals := c.proposals[id := p.(status := Executed)]))
  }

  function ChangeAdmin(c: Council, admin: Addr, remove: bool): Council {
    c.(admins := if remove then c.admins - {admin} else c.admins + {admin})
  }

  // ---------------------------------------------------------------- the invariant

  /** The votes at which a proposal passes; the proposer's own vote is always there. */
  function Quorum(p: Proposal): nat {
    Max(1, Needed(p.totalWeight, p.percentage))
  }

  function Voters(c: Council, id: nat): set<Addr> {
    set b | b in c.ballots && b.0 == id :: b.1
  }

  ghost predicate ProposalInv(c: Council, id: nat)
    requires id in c.proposals
  {
    var p := c.proposals[id];
    && 1 <= id <= c.count
    && p.percentage <= 100
    && p.yes == |Voters(c, id)|
    && 1 <= p.yes <= Quorum(p) <= p.totalWeight
    && (IsPassed(p) <==> p.status in {Passed, Executed})
    && (p.status == Rejected ==> p.yes == 1)
  }

  ghost predicate CouncilInv(c: Council) {
    && c.percentage <= 100
    && (forall id :: id in c.proposals ==> ProposalInv(c, id))
    && (forall id :: 1 <= id <= c.count ==> id in c.proposals)
    && (forall b :: b in c.ballots ==> b.0 in c.proposals)
  }

  // ---------------------------------------------------------------- arithmetic and counting

  lemma NeededBounds(weight: nat, percentage: nat)
    requires percentage <= 100
    ensures Needed(weight, percentage) <= weight
    ensures 100 * Needed(weight, percentage) >= weight * percentage
    ensures Needed(weight, percentage) > 0 ==> 100 * (Needed(weight, percentage) - 1) < weight * percentage
  {
    assert weight * percentage <= weight * 100;
  }

  /** So many votes are needed as reach the percentage. */
  lemma NeededReaches(weight: nat, percentage: nat, votes: nat)
    ensures votes >= Needed(weight, percentage) <==> 100 * votes >= weight * percentage
  {
  }

  lemma VotersAdd(c: Council, d: Council, id: nat, a: Addr)
    requires d.ballots == c.ballots + {(id, a)}
    ensures Voters(d, id) == Voters(c, id) + {a}
    ensures forall j :: j != id ==> Voters(d, j) == Voters(c, j)
  {
  }

  // ---------------------------------------------------------------- what every operation keeps

  lemma ProposeKeeps(c: Council, block: Block, sender: Addr, msgs: seq<CosmosMsg>)
    requires CouncilInv(c)
    requires Propose(c, block, sender, msgs).Ok?
    ensures CouncilInv(Propose(c, block, sender, msgs).value)
  {
    var d := Propose(c, block, sender, msgs).value;
    var id := d.count;
    var p := d.proposals[id];
    VotersAdd(c, d, id, sender);
    assert Voters(c, id) == {};
    assert {sender} <= c.admins;
    CardinalityMonotone({sender}, c.admins);
    NeededBounds(p.totalWeight, p.percentage);
    forall j | j in d.proposals
      ensures ProposalInv(d, j)
    {
      if j != id {
        assert ProposalInv(c, j);
      }
    }
  }

  lemma {:induction false} CardinalityMonotone<T>(a: set<T>, b: set<T>)
    requires a <= b
    ensures |a| <= |b|
  {
    assert b == a + (b - a);
  }

  lemma VoteKeeps(c: Council, block: Block, sender: Addr, id: nat)
    requires CouncilInv(c)
    requires CastVote(c, block, sender, id).Ok?
    ensures CouncilInv(CastVote(c, block, sender, id).value)
  {
    var d := CastVote(c, block, sender, id).value;
    VotersAdd(c, d, id, sender);
    assert sender !in Voters(c, id);
    assert ProposalInv(c, id);
    forall j | j in d.proposals
      ensures ProposalInv(d, j)
    {
      assert ProposalInv(c, j);
    }
  }

  lemma ProcessKeeps(c: Council, block: Block, sender: Addr, id: nat)
    requires CouncilInv(c)
    requires Process(c, block, sender, id).Ok?
    ensures CouncilInv(Process(c, block, sender, id).value)
    ensures c.proposals[id].status == Passed
  {
    var d := Process(c, block, sender, id).value;
    assert ProposalInv(c, id);
    forall j | j in d.proposals
      ensures ProposalInv(d, j)
    {
      assert ProposalInv(c, j);
      assert Voters(d, j) == Voters(c, j);
    }
  }

  /** An accepted vote brings the proposal strictly closer to its quorum, and never past it. */
  lemma VoteMakesProgress(c: Council, block: Block, sender: Addr, id: nat)
    requires CouncilInv(c)
    requires CastVote(c, block, sender, id).Ok?
    ensures var p := c.proposals[id];
      var q := CastVote(c, block, sender, id).value.proposals[id];
      && Quorum(q) == Quorum(p)
      && 0 <= Quorum(q) - q.yes < Quorum(p) - p.yes
      && (q.status == Passed <==> q.yes == Quorum(q))
      && (q.status == Open <==> q.yes < Quorum(q))
  {
    assert ProposalInv(c, id);
  }

  // ---------------------------------------------------------------- how proposals move

  /** All that may happen to a stored proposal. */
  ghost predicate Moves(p: Proposal, q: Proposal) {
    && q == p.(status := q.status, yes := q.yes)
    && (q.status == p.status
        || (p.status == Open && q.status == Passed)
        || (p.status == Passed && q.status == Executed))
    && (p.status != Open ==> q.yes == p.yes)
    && p.yes <= q.yes
  }

  ghost predicate Advances(c: Council, d: Council) {
    && d.percentage == c.percentage && d.period == c.period
    && c.count <= d.count
    && c.ballots <= d.ballots
    && (forall id :: id in c.proposals ==> id in d.proposals && Moves(c.proposals[id], d.proposals[id]))
  }

  predicate NoTime(period: Duration) {
    period == Height(0) || period == Time(0)
  }

  /**
    How a proposal starts: passed if the proposer's vote is enough, otherwise rejected at once if
    the voting period is zero, otherwise open.
   */
  lemma ProposedStatus(c: Council, block: Block, sender: Addr, msgs: seq<CosmosMsg>)
    requires Propose(c, block, sender, msgs).Ok?
    ensures var p := Propose(c, block, sender, msgs).value.proposals[c.count + 1];
      var enough := |c.admins| * c.percentage <= 100;
      && (p.status == Passed <==> enough)
      && (p.status == Rejected <==> !enough && NoTime(c.period))
      && (p.status == Open <==> !enough && !NoTime(c.period))
  {
  }

  /** What may become of a stored proposal in the long run. */
  ghost predicate Evolves(p: Proposal, q: Proposal) {
    && q == p.(status := q.status, yes := q.yes)
    && p.yes <= q.yes
    && match p.status
       case Open => q.status in {Open, Passed, Executed}
       case Passed => q.status in {Passed, Executed} && q.yes == p.yes
       case Rejected => q == p
       case Executed => q == p
  }

  lemma MovesEvolve(p: Proposal, q: Proposal, r: Proposal)
    requires Evolves(p, q) && Moves(q, r)
    ensures Evolves(p, r)
  {
  }

  lemma ProposeAdvances(c: Council, block: Block, sender: Addr, msgs: seq<CosmosMsg>)
    requires CouncilInv(c)
    requires Propose(c, block, sender, msgs).Ok?
    ensures Advances(c, Propose(c, block, sender, msgs).value)
  {
  }

  lemma ProcessAdvances(c: Council, block: Block, sender: Addr, id: nat)
    requires CouncilInv(c)
    requires Process(c, block, sender, id).Ok?
    ensures Advances(c, Process(c, block, sender, id).value)
  {
  }

  // ---------------------------------------------------------------- completeness of voting

  /** Each voter in turn tries to vote; a refused vote changes nothing. */
  function VoteAll(c: Council, id: nat, attempts: seq<(Addr, Block)>): Council
    decreases |attempts|
  {
    if attempts == [] then c
    else
      var r := CastVote(c, attempts[0].1, attempts[0].0, id);
      VoteAll(if r.Ok? then r.value else c, id, attempts[1..])
  }

  /** The attempts come from different admins who have not voted, before the proposal expires. */
  ghost predicate FairAttempts(c: Council, id: nat, attempts: seq<(Addr, Block)>)
    requires id in c.proposals
  {
    && (forall i :: 0 <= i < |attempts| ==>
          && attempts[i].0 in c.admins
          && (id, attempts[i].0) !in c.ballots
          && !IsExpired(c.proposals[id].expires, attempts[i].1))
    && (forall i, j :: 0 <= i < j < |attempts| ==> attempts[i].0 != attempts[j].0)
  }

  /**
    Only the number of voters counts: whatever their order, the proposal passes exactly when
    enough of them voted, and no vote is recorded past the quorum.
   */
  lemma {:induction false} VotingIsComplete(c: Council, id: nat, attempts: seq<(Addr, Block)>)
    requires CouncilInv(c)
    requires id in c.proposals && c.proposals[id].status in {Open, Passed}
    requires FairAttempts(c, id, attempts)
    ensures var p := c.proposals[id];
      var d := VoteAll(c, id, attempts);
      && CouncilInv(d)
      && id in d.proposals
      && d.proposals[id].status in {Open, Passed}
      && (d.proposals[id].status == Passed <==> p.yes + |attempts| >= Needed(p.totalWeight, p.percentage))
      && d.proposals[id].yes == |Voters(d, id)| == Min(p.yes + |attempts|, Quorum(p))
    decreases |attempts|
  {
    hide Needed, IsExpired, Voters;
    assert ProposalInv(c, id);
    if attempts != [] {
      var rest := attempts[1..];
      forall i | 0 <= i < |rest|
        ensures rest[i] == attempts[i + 1]
      {
      }
      var (a, block) := attempts[0];
      var r := CastVote(c, block, a, id);
      if r.Ok? {
        VoteKeeps(c, block, a, id);
        forall i | 0 <= i < |rest|
          ensures (id, rest[i].0) !in r.value.ballots
        {
          assert attempts[0].0 != attempts[i + 1].0;
        }
        VotingIsComplete(r.value, id, rest);
      } else {
        VotingIsComplete(c, id, rest);
      }
    }
  }

  lemma {:induction false} DistinctCount(attempts: seq<(Addr, Block)>, voters: set<Addr>)
    requires forall i, j :: 0 <= i < j < |attempts| ==> attempts[i].0 != attempts[j].0
    requires forall a :: a in voters <==> exists i :: 0 <= i < |attempts| && attempts[i].0 == a
    ensures |attempts| == |voters|
    decreases |attempts|
  {
    if attempts == [] {
      assert voters == {};
    } else {
      var rest := attempts[1..];
      var a := attempts[0].0;
      assert a in voters;
      forall b
        ensures b in voters - {a} <==> exists i :: 0 <= i < |rest| && rest[i].0 == b
      {
        if b in voters - {a} {
          var i :| 0 <= i < |attempts| && attempts[i].0 == b;
          assert rest[i - 1].0 == b;
        }
        if i :| 0 <= i < |rest| && rest[i].0 == b {
          assert attempts[i + 1].0 == b;
        }
      }
      DistinctCount(rest, voters - {a});
    }
  }

  /** Voting on a proposal that is not open does nothing. */
  lemma {:induction false} ClosedStays(c: Council, id: nat, attempts: seq<(Addr, Block)>)
    requires id in c.proposals && c.proposals[id].status != Open
    ensures VoteAll(c, id, attempts) == c
    decreases |attempts|
  {
    if attempts != [] {
      ClosedStays(c, id, attempts[1..]);
    }
  }

  /**
    With a voting period that is not zero the admins present when a proposal is made can always
    pass it, in any order of voting. With a zero period it passes exactly if the proposer's vote
    is enough, whoever else tries to vote and whenever.
   */
  lemma AdminsAtCreationSuffice(c: Council, block: Block, sender: Addr, msgs: seq<CosmosMsg>,
                                attempts: seq<(Addr, Block)>)
    requires CouncilInv(c)
    requires Propose(c, block, sender, msgs).Ok?
    requires var d := Propose(c, block, sender, msgs).value;
      !NoTime(c.period) ==>
        && FairAttempts(d, d.count, attempts)
        && forall a :: a in c.admins - {sender} <==> exists i :: 0 <= i < |attempts| && attempts[i].0 == a
    ensures var d := Propose(c, block, sender, msgs).value;
      var e := VoteAll(d, d.count, attempts);
      && d.count in e.proposals
      && (e.proposals[d.count].status == Passed <==> |c.admins| * c.percentage <= 100 || !NoTime(c.period))
  {
    var d := Propose(c, block, sender, msgs).value;
    ProposedStatus(c, block, sender, msgs);
    if NoTime(c.period) {
      ClosedStays(d, d.count, attempts);
    } else {
      ProposeKeeps(c, block, sender, msgs);
      DistinctCount(attempts, c.admins - {sender});
      NeededBounds(|c.admins|, c.percentage);
      VotingIsComplete(d, d.count, attempts);
    }
  }
}
