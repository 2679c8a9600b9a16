/** The vault's storage: one class field for each stored item, and its value as a whole. */
module State {
  import opened Schedules
  import opened Types
  import opened Voting

  datatype Ledger = Ledger(
    schedule: Schedule,
    total: nat,
    withdrawnUnlocked: nat,
    withdrawnLocked: nat,
    withdrawnRewards: nat)

  datatype Store = Store(
    denom: string,
    ledger: Ledger,
    council: Council,
    ops: set<Addr>,
    unlockAddress: Addr,
    rewardAddress: Addr)

  class Storage {
    var denom: string
    var vestingTimestamps: seq<nat>
    var vestingAmounts: seq<nat>
    var totalAmount: nat
    var unlockDistributionAddress: Addr
    var stakingRewardAddress: Addr
    var withdrawnStakingRewards: nat
    var withdrawnUnlocked: nat
    var withdrawnLocked: nat
    var admins: set<Addr>
    var ops: set<Addr>
    var maxVotingPeriod: Duration
    var adminVotingThreshold: nat
    var proposalCount: nat
    var ballots: set<(nat, Addr)>
    var proposals: map<nat, Proposal>

    /** A fresh contract account: nothing stored yet. */
    constructor ()
      ensures Valid()
      ensures proposalCount == 0 && admins == {} && ops == {} && ballots == {} && proposals == map[]
    {
      denom := "";
      vestingTimestamps, vestingAmounts := [], [];
      totalAmount := 0;
      unlockDistributionAddress, stakingRewardAddress := "", "";
      withdrawnStakingRewards, withdrawnUnlocked, withdrawnLocked := 0, 0, 0;
      admins, ops := {}, {};
      maxVotingPeriod := Height(0);
      adminVotingThreshold := 0;
      proposalCount := 0;
      ballots, proposals := {}, map[];
    }

    ghost predicate Valid()
      reads this
    {
      |vestingTimestamps| == |vestingAmounts|
    }

    ghost function Vesting(): Schedule
      requires Valid()
      reads this
    {
      Schedule(vestingTimestamps, vestingAmounts)
    }

    ghost function Governance(): Council
      reads this
    {
      Council(admins, adminVotingThreshold, maxVotingPeriod, proposalCount, proposals, ballots)
    }

    /** The stored value as a whole. */
    ghost function Snapshot(): Store
      requires Valid()
      reads this
    {
      Store(denom,
            Ledger(Vesting(), totalAmount, withdrawnUnlocked, withdrawnLocked, withdrawnStakingRewards),
            Governance(), ops, unlockDistributionAddress, stakingRewardAddress)
    }

    method NextProposalId() returns (id: nat)
      modifies this`proposalCount
      ensures id == proposalCount == old(proposalCount) + 1
    {
      id := proposalCount + 1;
      proposalCount := id;
    }

    function NumberOfAdmins(): nat
      reads this
    {
      |admins|
    }
  }
}
