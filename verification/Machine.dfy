/**
  The vault on its chain: transactions from outside, time, and the chain's own changes, one step
  at a time. A transaction that fails anywhere leaves the world as it was.
 */
module Machine {
  import opened Chains
  import opened Contract
  import opened State
  import opened Sums
  import opened Types

  /** A privileged call that took effect, and the principal it paid out. */
  datatype Applied = Applied(call: InternalMsg, amount: nat)

  /** `log` lists the privileged calls that took effect, in order. */
  datatype World = World(block: Block, store: Store, chain: Chain, log: seq<Applied>)

  /** `accept` is the chain's own decision on the staking and governance messages of the transaction. */
  datatype Event =
    | Tx(sender: Addr, msg: ExecuteMsg, accept: bool)
    | NextBlock(blocks: nat, nanos: nat)
    | OnChain(event: ChainEvent)

  function EnvOf(w: World): Env {
    Env(w.block, w.chain.self)
  }

  // ---------------------------------------------------------------- dispatching messages

  function Locked(s: Store, call: InternalMsg): nat {
    if call.WithdrawLocked? then Sum(s.ledger.schedule.amounts) else 0
  }

  /** The vault calls itself: the handler runs, then the payments it asks for. */
  function RunSelfCall(w: World, call: InternalMsg, accept: bool): Option<World> {
    match HandleInternal(w.store, EnvOf(w), w.chain.self, call)
    case Err(_) => None
    case Ok((store, msgs)) =>
      match RunMsgs(w.chain, msgs, accept)
      case None => None
      case Some(chain) =>
        Some(World(w.block, store, chain, w.log + [Applied(call, Locked(w.store, call))]))
  }

  function RunOne(w: World, m: CosmosMsg, accept: bool): Option<World> {
    if m.SelfCall? then RunSelfCall(w, m.call, accept)
    else match RunMsg(w.chain, m, accept)
      case None => None
      case Some(chain) => Some(w.(chain := chain))
  }

  function RunAll(w: World, msgs: seq<CosmosMsg>, accept: bool): Option<World>
    decreases |msgs|
  {
    if msgs == [] then Some(w)
    else match RunOne(w, msgs[0], accept)
      case None => None
      case Some(next) => RunAll(next, msgs[1..], accept)
  }

  /** The handler and then all its messages, or nothing. */
  function Transact(w: World, sender: Addr, m: ExecuteMsg, accept: bool): Option<World> {
    match Handle(w.store, EnvOf(w), w.chain, sender, m)
    case Err(_) => None
    case Ok((store, msgs)) => RunAll(w.(store := store), msgs, accept)
  }

  /** No one outside can send in the vault's own name. */
  function Step(w: World, e: Event): World {
    match e
    case Tx(sender, m, accept) =>
      if sender == w.chain.self then w
      else (match Transact(w, sender, m, accept)
            case None => w
            case Some(next) => next)
    case NextBlock(blocks, nanos) =>
      w.(block := Block(w.block.height + blocks, w.block.time + nanos))
    case OnChain(event) => w.(chain := Happen(w.chain, event))
  }

  function Run(w: World, events: seq<Event>): World
    decreases |events|
  {
    if events == [] then w
    else Step(Run(w, events[..|events| - 1]), events[|events| - 1])
  }

  // ---------------------------------------------------------------- the start

  /**
    A vault just instantiated: the deposit is in the bank, perhaps with more, and nothing has
    been staked or paid yet.
   */
  ghost predicate Start(w: World, m: InstantiateMsg, funds: seq<Coin>) {
    && MayInstantiate(m, w.block, funds)
    && w.store == InitialStore(m)
    && w.chain == Chain(w.chain.self, m.tranche.denom, w.chain.bank, [], [], 0, w.chain.bank, [])
    && w.chain.bank >= Sum(InDenom(funds, m.tranche.denom))
    && w.log == []
  }

  // ---------------------------------------------------------------- what a transaction can be

  /** A message list without self-calls touches the chain only. */
  lemma {:induction false} RunAllOnChain(w: World, msgs: seq<CosmosMsg>, accept: bool)
    requires forall m :: m in msgs ==> !m.SelfCall?
    ensures RunAll(w, msgs, accept) ==
            match RunMsgs(w.chain, msgs, accept)
            case None => None
            case Some(chain) => Some(w.(chain := chain))
    decreases |msgs|
  {
    if msgs != [] {
      var next := RunOne(w, msgs[0], accept);
      if next.Some? {
        RunAllOnChain(next.value, msgs[1..], accept);
      }
    }
  }

  lemma {:induction false} RunConcat(w: World, first: seq<Event>, second: seq<Event>)
    ensures Run(w, first + second) == Run(Run(w, first), second)
    decreases |second|
  {
    hide Step;
    if second == [] {
      assert first + second == first;
    } else {
      var n := |second| - 1;
      RunConcat(w, first, second[..n]);
      assert (first + second)[..|first| + n] == first + second[..n];
    }
  }

  /** A run of one event more at the front. */
  lemma RunFirst(w: World, e: Event, rest: seq<Event>)
    ensures Run(w, [e]) == Step(w, e)
    ensures Run(w, [e] + rest) == Run(Step(w, e), rest)
  {
    hide Step;
    assert [e][..0] == [];
    RunConcat(w, [e], rest);
  }
}
