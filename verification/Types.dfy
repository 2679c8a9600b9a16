/** Values shared by every part of the model: addresses, coins, block data, messages and errors. */
module Types {

  type Addr = string

  /** One more than the largest unsigned 128-bit number, the source's type for token amounts. */
  const U128_LIMIT: nat := 0x1_0000_0000_0000_0000_0000_0000_0000_0000

  const NANOS_PER_SECOND: nat := 1_000_000_000

  datatype Option<+T> = None | Some(value: T)

  datatype Result<+T> = Ok(value: T) | Err(error: Error)

  datatype TrancheFault =
    | MismatchedLengths
    | NothingToVest
    | ZeroAmount
    | InsufficientDeposit
    | NotIncreasing
    | BeforeNow
    | TooFarAhead

  /** Overflow stands for the abort of a checked 128-bit operation, which undoes the transaction. */
  datatype Error =
    | Unauthorized
    | NotFound
    | NotOpen
    | Expired
    | AlreadyVoted
    | WrongExecuteStatus
    | NoAdmins
    | NoOps
    | InvalidThreshold
    | InvalidTranche(fault: TrancheFault)
    | NoSufficientUnlockedTokens
    | Overflow

  datatype Coin = Coin(denom: string, amount: nat)

  /** Block time is in nanoseconds. */
  datatype Block = Block(height: nat, time: nat)

  datatype Env = Env(block: Block, self: Addr)

  datatype Duration = Height(blocks: nat) | Time(seconds: nat)

  datatype Expiration = AtHeight(height: nat) | AtTime(time: nat)

  /** Calls that only the vault itself may make. */
  datatype InternalMsg =
    | UpdateAdmin(admin: Addr, remove: bool)
    | UpdateUnlockedDistributionAddress(unlockedAddress: Addr)
    | UpdateStakingRewardDistributionAddress(rewardAddress: Addr)
    | WithdrawLocked(dst: Addr)

  /** Messages a handler asks the chain to run after it returns. */
  datatype CosmosMsg =
    | Send(to: Addr, coin: Coin)
    | Delegate(validator: string, coin: Coin)
    | Redelegate(src: string, dst: string, coin: Coin)
    | Undelegate(validator: string, coin: Coin)
    | WithdrawDelegatorReward(validator: string)
    | SelfCall(call: InternalMsg)
    | GovVote(govProposal: nat, vote: nat)

  datatype ExecuteMsg =
    | ExecDelegate(validator: string, amount: nat)
    | ExecRedelegate(src: string, dst: string, amount: nat)
    | ExecUndelegate(validator: string, amount: nat)
    | InitiateWithdrawUnlocked(amount: nat)
    | InitiateWithdrawReward
    | UpdateOp(op: Addr, remove: bool)
    | ProposeUpdateAdmin(admin: Addr, remove: bool)
    | ProposeUpdateUnlockedDistributionAddress(address: Addr)
    | ProposeUpdateStakingRewardDistributionAddress(address: Addr)
    | ProposeEmergencyWithdraw(dst: Addr)
    | ProposeGovVote(govProposal: nat, vote: nat)
    | VoteProposal(id: nat)
    | ProcessProposal(id: nat)
    | Internal(call: InternalMsg)

  /** What of `coins` is in `denom`. */
  function InDenom(coins: seq<Coin>, denom: string): seq<nat> {
    seq(|coins|, i requires 0 <= i < |coins| => if coins[i].denom == denom then coins[i].amount else 0)
  }

  /** The coins of `coins` that are in `denom`. */
  function Only(coins: seq<Coin>, denom: string): (only: seq<Coin>)
    ensures forall c :: c in only <==> c in coins && c.denom == denom
  {
    if coins == [] then []
    else (if coins[0].denom == denom then [coins[0]] else []) + Only(coins[1..], denom)
  }

  function CoinAmounts(coins: seq<Coin>): seq<nat> {
    seq(|coins|, i requires 0 <= i < |coins| => coins[i].amount)
  }

  function Max(a: int, b: int): int {
    if a < b then b else a
  }

  function Min(a: int, b: int): int {
    if a < b then a else b
  }
}
