# A verified model of the Gringotts vesting vault

Gringotts is a CosmWasm contract that keeps a schedule of time-locked tokens. Operators stake the
tokens, withdraw what has vested and sweep staking rewards; admins decide privileged actions by
vote. This project models the contract as one state machine and proves, for every run, where the
money is, when it can leave, and what the council can bring about.

`dafny verify dfyconfig.toml` checks everything (Dafny 4.11).

## How the model is built

| file | contents |
|---|---|
| `Types.dfy`, `Sums.dfy` | messages, errors, block data; sums of sequences |
| `Schedules.dfy` | the schedule as a value: the curve V(t), the two walks, consumption |
| `Voting.dfy` | proposals and ballots as a value, with the rules of the `cw3` and `cw_utils` packages spelled out |
| `State.dfy` | the storage: a class with one field per stored item, and its value as a whole |
| `Vesting.dfy`, `Tranches.dfy`, `Staking.dfy`, `Contract.dfy` | the handlers and walks as methods on the storage, with loops where the source has loops |
| `Chains.dfy` | the chain's side: bank, delegations, unbonding, rewards, slashing, and how it runs messages |
| `Machine.dfy` | worlds, transactions (all or nothing), time, runs |
| `Sweep.dfy`, `LedgerProofs.dfy`, `GovernanceProofs.dfy` | what single steps keep |
| `Effects.dfy`, `Payments.dfy`, `Turnout.dfy` | what single transactions do; why and whom steps pay; who counts as a voter over a run |
| `Theorems.dfy`, `Outcomes.dfy`, `Release.dfy` | what holds in every reachable state; when transactions go through; how all funds can be brought out |

Every handler has a specification on stored values (`Contract.Handle` and the functions it uses)
and a method that works on the `Storage` object in place and is proved to agree with it. Runs are
sequences of events: transactions from outside, new blocks, and the chain's own changes (unbonding
completes, rewards accrue, deposits arrive, validators or unbonding entries are slashed). The
theorems quantify over all starts, all runs and all decisions of the chain to refuse staking or
governance messages.

Choices that matter when comparing with the source:

- Amounts in `collect_vested` and in tranche validation are 128-bit with additions that abort the
  transaction on overflow. Overflow is part of the specification (`Schedules.Overflows`), and
  `Schedules.OverflowExactly` says when it strikes. It makes a difference in two places: one large
  request may abort where smaller ones are granted (`Schedules.HistoryIndependence`), and a plan of
  one maximal entry can never be paid out (`Release.NeverStuck`). All other amounts are unbounded; the ledger
  counters never exceed the total, which fits 128 bits (`Theorems.LedgerConservation`).
- `Cargo.toml` has no build profile, so whether overflow aborts or wraps depends on how the
  contract is built. `Schedules.WrappingCollectIsExact` shows that a wrapping build collects
  exactly for all totals within 128 bits. Its validation is another matter: it also accepts
  totals that do not fit (`Tranches.WrappingExample`), exactly as far as
  `Tranches.WrappingValidation` says. The runs are those of a build with checks.
- The comment above `calculate_withdrawn_rewards` says that unbonding tokens are ignored; the code
  queries and counts them. The model follows the code. `CHANGELOG.md` says the earliest timestamp
  must be later than the block time; the code accepts an equal one, and so does the model.
- Addresses are arbitrary, so a distribution address may be the vault itself. A payment of the
  vault to itself stays in its bank. This is why a repeated sweep can find a surplus again
  (`Sweep.RepeatedSweep` gives the exact condition, `Theorems.RepeatedSweepExample` a run).
- Funds attached to a transaction are a deposit in the same block just before it.
- From `cw3` 1.0.1 and `cw_utils` 1.0.1, which are not part of this model, three rules are taken
  over: the votes needed are the percentage of the weight, rounded up; an open proposal passes when
  it has them and is otherwise rejected once expired; it is expired from its bound on, by height
  or time.

## Model

| member | source | states |
|---|---|---|
| Schedules.VestedIsCurve | src/vesting.rs:53-65 | On a sorted schedule the early-stopping walk adds up exactly V(now), the sum of all amounts due by then |
| Schedules.CurveSteps | src/vesting.rs:53-65 | At any time the curve is the sum of the entries whose timestamps have been reached: an entry is due from its timestamp on and not a moment before |
| Schedules.CollectedShape | src/vesting.rs:18-48 | Collecting r removes exactly r from the total and from what is vested, and leaves a sorted suffix with positive amounts |
| Schedules.CurveShift | src/vesting.rs:18-48 | A collection of r turns the curve V into max(0, V(t) - r) at every time, past or future |
| Schedules.CurveDetermines | src/vesting.rs:18-48 | The curve determines a sorted positive schedule, so the stored result of a collection is the only one with the shifted curve |
| Schedules.CollectAllEmpties | src/vesting.rs:34-39 | Collecting the whole total once all of it is due empties both vectors |
| Schedules.HistoryIndependence | src/vesting.rs:8-51 | Whenever one collection of r1 + r2 at the later time is granted, r1 followed by r2 is granted and stores the same; conversely, if the two are granted the single one is exactly when its last sum fits 128 bits; below 2^127 the outcomes always agree, refusals included |
| Schedules.SplitAvoidsOverflow | src/vesting.rs:22-24 | Two collections that are granted although the single one aborts |
| Schedules.ConsumeShape | src/vesting.rs:34-48 | What is left is a suffix of the original in which only the head may be smaller, and never zero |
| Schedules.OverflowExactly | src/vesting.rs:22-24 | For a total within 128 bits the walk aborts exactly when the entry that reaches the request plus the request does not fit |
| Schedules.NoOverflowBelowHalf | src/vesting.rs:18-33 | With a total below 2^127 no request can make any addition of the walk overflow |
| Schedules.OverflowExample | src/vesting.rs:22-24 | A covered request that aborts |
| Schedules.WrappingCollectIsExact | src/vesting.rs:15-48 | In a build whose arithmetic wraps, for totals within 128 bits the walk grants exactly the covered requests and stores the collected schedule |
| Vesting.Walk | src/vesting.rs:15-33 | The loop yields min(request, vested), and entries to drop and an amount to cut that give exactly the collected schedule; it aborts exactly on overflow |
| Vesting.CollectVested | src/vesting.rs:8-51 | Succeeds exactly when the request is vested and nothing overflows, returns the request and stores the collected schedule; otherwise stores nothing |
| Vesting.TotalVestedAmount | src/vesting.rs:53-65 | Computes the most that a collection may take |
| Vesting.DistributeVested | src/vesting.rs:67-81 | One payment to the stored address in the stored denomination, none for zero |
| Tranches.Validate | src/data_structure.rs:21-53 | Accepts exactly the acceptable plans; a plan offered no coin in its own denomination is refused; says exactly when lengths differ, nothing is to vest or the deposit in the plan's denomination is insufficient, and every other refusal names a real fault |
| Tranches.AcceptedExactly | src/data_structure.rs:21-82 | A plan is acceptable exactly with equal non-empty vectors, positive amounts, coins of its own denomination that cover the sum and fit 128 bits, and strictly increasing times from now to at most 3,153,600,000 whole seconds ahead |
| Tranches.ValidateTimestamps | src/data_structure.rs:55-82 | Accepts exactly positive, strictly increasing times from now to a hundred years of whole seconds ahead |
| Tranches.AcceptedPlanCompletes | src/data_structure.rs:21-82 | An accepted plan is sorted and positive, is fully due one second past the longest span, and collecting it all then leaves nothing, exactly unless the last sum overflows |
| Tranches.WrappingValidation | src/data_structure.rs:30-50 | The plans that validation accepts are exactly those that a build whose additions wrap accepts and whose two sums, of the amounts and of the deposit, both fit 128 bits |
| Tranches.WrappingExample | src/data_structure.rs:30-50 | In such a build the amounts 2^128 - 1 and 2 pass with a deposit of one token and count as a total of one |
| State.Storage.NextProposalId | src/state.rs:50-54 | Returns and stores the next number |
| Staking.GetDelegationRewards | src/staking.rs:97-116 | The plain sum of the validator's reward coins in the vault's denomination, zero without a delegation |
| Staking.AccruedRewardIsOwed | src/staking.rs:97-116 | A reward that accrues raises what its validator owes in its denomination by its amount, and nothing else |
| Contract.Instantiate | src/contract.rs:212-262 | Succeeds exactly for non-empty admins and operators, a percentage of at most 100 and an acceptable tranche; then admins, operators, threshold, period, denomination, vectors and both addresses are those of the message, the total is their sum and all counters are zero; otherwise stores nothing and returns the error of the first check that fails, truthful for the tranche |
| Contract.CalculateWithdrawnRewards | src/contract.rs:431-463 | Computes max(0, min(bank, bank + staked + unbonding - outstanding principal)) with no subtraction below zero |
| Contract.WithdrawFromAll | src/contract.rs:411-417 | One withdrawal and one payment per validator in order, and the sum of their rewards |
| Contract.ExecuteInitiateWithdrawReward | src/contract.rs:397-422 | Emits the surplus payment and the pairs, and books surplus plus rewards |
| Contract.ExecuteInitiateWithdrawUnlocked | src/contract.rs:383-395 | Collects, books and pays the same amount, for operators only |
| Contract.ExecuteUpdateOp | src/contract.rs:465-478 | Adds or removes an operator, for admins only |
| Contract.ExecutePropose | src/contract.rs:604-642 | Stores the proposal under the next number with the proposer's ballot and the present number of admins as weight |
| Contract.ExecuteVote | src/contract.rs:644-679 | Refuses outsiders, unknown, closed, expired and repeated votes in that order; otherwise adds one vote and one ballot and updates the status |
| Contract.ExecuteProcessProposal | src/contract.rs:681-707 | Marks a passed proposal executed and hands out its messages; refuses any other |
| Contract.ExecuteInternal | src/contract.rs:709-764 | Privileged changes, for the vault itself only |
| Contract.Execute | src/contract.rs:265-341 | The dispatch agrees with the specification for every message, and an error leaves storage unchanged |
| Voting.NeededBounds | src/contract.rs:614-626 | The votes needed are the least number reaching the percentage, and never more than the weight |
| Voting.ProposedStatus | src/contract.rs:610-627 | A proposal starts passed exactly when one vote is enough, rejected exactly when it is not and the period is zero, else open |
| Voting.ProposeKeeps | src/contract.rs:604-635 | Proposing keeps the council invariant: fresh ids, tally equal to ballots, yes between 1 and the quorum, passed exactly at the quorum |
| Voting.VoteKeeps | src/contract.rs:644-672 | Voting keeps the council invariant |
| Voting.ProcessKeeps | src/contract.rs:689-699 | Only a stored passed proposal is executed, and the invariant is kept |
| Voting.VoteMakesProgress | src/contract.rs:652-672 | An accepted vote strictly lowers the distance to the quorum, and the proposal passes exactly at distance zero |
| Voting.VotingIsComplete | src/contract.rs:604-679 | For votes one after the other on a given council: whatever the order of distinct voters before expiry, the proposal passes exactly when enough of them voted, and no vote counts past the quorum |
| Voting.AdminsAtCreationSuffice | src/contract.rs:224-228 | With a voting period that is not zero the admins present when a proposal is made can always pass it; with a zero period it passes exactly when the proposer's vote is enough |
| Chains.StakingGains | src/contract.rs:424-426 | Delegating, redelegating, undelegating and withdrawing rewards only move money and bring in exactly what is pending with the validators touched |
| Chains.MsgsBalanced | src/contract.rs:343-381 | No list of messages creates or destroys money |
| Sweep.PairsRun | src/staking.rs:44-62 | For any number of distinct validators the pairs of messages run without overdrawing the bank and pass exactly the pending rewards on to the given address and no other |
| Sweep.SweepRuns | src/contract.rs:397-422 | An operator's sweep always goes through, pays the reward address and no one else, books exactly the sum of its payments, and takes nothing but the surplus from the bank |
| Sweep.RepeatedSweep | src/contract.rs:403-421 | An immediate second sweep finds no pending reward, and no surplus exactly unless the vault pays rewards to itself and holds more than the principal |
| Theorems.RepeatedSweepExample | src/contract.rs:403-421 | A vault just instantiated that pays rewards to itself books the same token in two sweeps |
| LedgerProofs.Available | src/vesting.rs:53-65 | What is vested is the promised amount less what was taken, or nothing after an emergency withdrawal |
| LedgerProofs.TransactKeeps | src/contract.rs:265-341 | Every transaction keeps the schedule, booking and cover invariants |
| LedgerProofs.StepMoney | src/contract.rs:265-341 | So does every step |
| GovernanceProofs.AllDispatched | src/contract.rs:700-764 | Running a proposal's messages makes exactly its self-calls, and touches no proposal, ballot, reward counter or unlocked counter |
| GovernanceProofs.EmergencyPaysAll | src/contract.rs:747-764 | An emergency withdrawal goes through exactly when the bank holds all that is locked; it pays that in one transfer and empties the schedule |
| GovernanceProofs.StepCouncil | src/contract.rs:480-764 | What any step may do to proposals, ballots, privileged state and the log of privileged calls |
| Effects.OpsChangeByAdmins | src/contract.rs:465-478 | Over every step the operator set changes only as an admin asks |
| Effects.StakingMovesStake | src/contract.rs:343-381 | The staking transactions move exactly the named stake between bank, validators and unbonding; the bank takes in the rewards pending with the validators named and nothing else, and nothing is stored |
| Effects.ExecutionHasStatedEffect | src/contract.rs:681-764 | Executing a proposal marks it executed, has the effect its kind names, and leaves the rest of storage and chain as it was |
| Theorems.Solvency | src/contract.rs:383-463 | In every reachable state bank, stake, unbonding and slashing cover what remains to vest; the excess is what came in beyond the principal and was not paid as rewards |
| Theorems.LedgerConservation | src/contract.rs:241-260 | Remaining, unlocked and locked withdrawals add up to the total; each of the three counters equals all payments made for its purpose |
| Theorems.EveryPaymentWasDue | src/contract.rs:383-422 | Every payment in the history of a reachable state was an unlocked withdrawal or a sweep, asked for by an operator of that moment, to the unlock or reward address of the tranche or the one last set by an executed proposal, or the emergency withdrawal of a proposal executed at that moment by an admin, to its destination |
| Theorems.AddressesInForce | src/contract.rs:709-745 | In every reachable state both distribution addresses and the admins are those of the instantiation, unless an executed proposal changed them, and then as the last one about them says |
| Payments.StepPays | src/contract.rs:383-422 | Every step only adds payments, each owed for the purpose of the event and asked for by an operator, or an admin for an emergency, and adds their sum to the counter of that purpose alone |
| Theorems.NoEarlyRelease | src/contract.rs:383-395 | Unlocked withdrawals never exceed the plan's curve at the present time, and what is available is exactly the difference |
| Theorems.EverythingIsDueByHorizon | src/data_structure.rs:72-76 | In every run, one second past the longest span all that is left is due; asking for all of it goes through exactly for an operator, within the bank, when the last entry plus the request fits 128 bits, and then leaves nothing |
| Release.NeverStuck | src/contract.rs:370-395 | From every reachable state with an operator and holdings that cover what is left, some continuation in which only that operator undelegates and withdraws, time passes and unbonding completes pays all of it to the unlock address and empties the schedule; if the plan is one maximal entry of which something is left, no continuation whatever does |
| Release.UnpayableNeverPays | src/vesting.rs:22-24 | From the plan of one maximal entry no unlocked token ever leaves |
| Theorems.ScheduleIsConsumedPlan | src/vesting.rs:34-48 | Until an emergency withdrawal the stored schedule is the plan with the withdrawn amount consumed, however it was split; afterwards it is empty |
| Theorems.UnlockedWithdrawalExactly | src/contract.rs:383-395 | A withdrawal goes through exactly for an operator within the available amount and the bank, when the entry that reaches the request plus the request fits 128 bits, as it always does below 2^127; then it pays the unlock address just that |
| Theorems.SurplusIsExact | src/contract.rs:431-463 | In every reachable state the surplus is what came in beyond the principal less slashing and earlier rewards, as far as it is in the bank |
| Theorems.SweepIsSafe | src/contract.rs:397-422 | In every reachable state a sweep goes through, pays the reward address alone, adds exactly what it paid to the reward counter and leaves the principal in the bank |
| Theorems.PassingIsExact | src/contract.rs:614-672 | In every reachable state the tally is the number of ballots, between 1 and the number of admins when the proposal was made; it is passed or executed exactly when these votes reach the threshold percentage of the instantiation, and with one vote less it was not |
| Theorems.ProposalsAreNumbered | src/state.rs:50-54 | The stored proposals are exactly those numbered from 1 to the count |
| Theorems.VotingIsCompleteInRuns | src/contract.rs:604-679 | From any reachable state and with any other events in between, a proposal ends up passed exactly when its voters and those who tried to vote within the voting period since it was made, as admins of that moment, reach the threshold percentage of the admins at its making, unless the period is zero and the proposer's vote was not enough |
| Theorems.ProposalsWereAskedFor | src/contract.rs:480-635 | Every stored proposal was asked for in a transaction of an admin of that moment; it holds the message of that request, the number of admins of that moment, and the threshold and voting period of the instantiation: it expires exactly so many blocks or seconds after that moment |
| Theorems.ExecutedAsAskedFor | src/contract.rs:681-764 | Whatever is executed in a reachable state was asked for earlier in the run, and has the effect of that request and no other |
| Theorems.BallotsByAdmins | src/contract.rs:632-664 | Every ballot was cast in a transaction of its voter, an admin at that moment |
| Theorems.PrivilegedEffectsAreExecutedProposals | src/contract.rs:681-764 | Over any run the privileged calls that took effect are those of the executed proposals in order of execution, each once; admins, addresses and locked withdrawals are what these calls make of the start |
| Theorems.StatusOnlyAdvances | src/contract.rs:652-699 | Proposals only move from open to passed to executed, and nothing else about them changes but the votes of an open one |
| Theorems.ExpiredNeverExecutes | src/contract.rs:653-658 | A proposal still open when the voting period since its making is over stays as it is in every continuation |
| Outcomes.TransactionsGoThroughExactly | src/contract.rs:265-707 | In every reachable state and for every message the exact condition under which a transaction goes through: role, bank, stake, schedule, status and time; a passed proposal can be executed at any time after, if an emergency withdrawal is covered by the bank and a governance vote is accepted by the chain |
| Outcomes.RefusalReasons | src/contract.rs:343-712 | For every message the error returned: first the role of the sender, then unknown, closed, expired or counted votes in this order, unknown or not passed proposals, and what the walk finds; nothing else is refused |
| Outcomes.EmitsExactly | src/contract.rs:343-422 | The messages of every accepted handler, in order: the staking message as asked for in the vault's denomination, one payment or none for zero, for a sweep the surplus if any and then a withdrawal and a payment for every delegation, the messages of an executed proposal, and nothing otherwise |
| Outcomes.VoteIsRecorded | src/contract.rs:644-672 | In every reachable state an accepted vote adds one vote and one ballot and nothing else, and passes the proposal exactly when the votes reach the threshold percentage of the admins at its making |
| Outcomes.OpUpdateIsAll | src/contract.rs:465-478 | An accepted change of operators adds or removes the one address named and touches nothing else |

## Left out

- JSON encoding, response attributes, titles and the query entry points other than the total vested amount: they carry no state.
- `migrate` and the tables of replacement timestamps: at version 0.1.9 only a handler that does nothing can run.
- The insides of `cw3`, `cw_utils`, `cw-storage-plus` and the Cosmos SDK: stated rules and the chain model stand in for them. Stake is counted in whole tokens, without validator shares.
- Coins in other denominations than the vault's: rewards in them are counted as not received.
- Zero payments on a real chain may be refused; the model lets them do nothing.
- Contract.CalculateWithdrawnRewards: sums over chain balances are unbounded, where the source uses 128 bits; the chain's supply bounds them in practice.
- Voting.VotingIsComplete: no other events between the votes; Theorems.VotingIsCompleteInRuns allows them.
- Contract.Instantiate: expects empty storage, as the chain calls it once per contract account, and does not store the contract version.
- A build without overflow checks: the walk and the sums of tranche validation are treated (Schedules.WrappingCollectIsExact, Tranches.WrappingValidation); runs of such a build are not.
- What a governance vote does: its content is passed on as asked for, but the message touches nothing in the vault.
