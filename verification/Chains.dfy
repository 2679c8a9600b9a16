/**
  The part of the chain that holds the vault's money, as a value. It runs the messages the vault
  emits and changes on its own when unbonding completes, rewards accrue, a deposit arrives or a
  validator is slashed.
 */
module Chains {
  import opened Sums
  import opened Types

  datatype Delegation = Delegation(validator: string, amount: nat, rewards: seq<Coin>)

  datatype Transfer = Transfer(to: Addr, amount: nat)

  /**
    `bank` is the vault's balance in `denom`, which is also the coin that is staked. `received`
    counts everything that ever came into the bank from outside, `outbox` lists every
    payment the vault made, and `slashed` is the principal lost to slashing.
   */
  datatype Chain = Chain(
    self: Addr,
    denom: string,
    bank: nat,
    delegations: seq<Delegation>,
    unbonding: seq<nat>,
    slashed: nat,
    received: nat,
    outbox: seq<Transfer>)

  // ---------------------------------------------------------------- queries

  /** The place of validator `v`'s delegation, or the number of delegations if there is none. */
  function Find(ds: seq<Delegation>, v: string): (i: nat)
    ensures i <= |ds|
    ensures i < |ds| ==> ds[i].validator == v
    ensures forall j :: 0 <= j < i ==> ds[j].validator != v
  {
    if ds == [] || ds[0].validator == v then 0 else 1 + Find(ds[1..], v)
  }

  /** The delegation to validator `v`, if there is one. */
  function Lookup(ds: seq<Delegation>, v: string): Option<Delegation> {
    var i := Find(ds, v);
    if i < |ds| then Some(ds[i]) else None
  }

  function QueryDelegation(ch: Chain, v: string): Option<Delegation> {
    Lookup(ch.delegations, v)
  }

  function QueryAllDelegations(ch: Chain): seq<(string, Coin)> {
    var ds := ch.delegations;
    seq(|ds|, i requires 0 <= i < |ds| => (ds[i].validator, Coin(ch.denom, ds[i].amount)))
  }

  function Stakes(ds: seq<Delegation>): seq<nat> {
    seq(|ds|, i requires 0 <= i < |ds| => ds[i].amount)
  }

  function Staked(ch: Chain): nat {
    Sum(Stakes(ch.delegations))
  }

  function Unbonding(ch: Chain): nat {
    Sum(ch.unbonding)
  }

  function Pending(ch: Chain, i: nat): nat
    requires i < |ch.delegations|
  {
    Sum(InDenom(ch.delegations[i].rewards, ch.denom))
  }

  /** What validator `v` owes in rewards. */
  function PendingOf(ch: Chain, v: string): nat {
    match QueryDelegation(ch, v)
    case None => 0
    case Some(d) => Sum(InDenom(d.rewards, ch.denom))
  }

  /** The rewards that a message brings in: those of the validators whose delegation it touches. */
  function Reaped(ch: Chain, m: CosmosMsg): nat {
    match m
    case Delegate(v, _) => PendingOf(ch, v)
    case Redelegate(src, dst, _) => PendingOf(ch, src) + PendingOf(ch, dst)
    case Undelegate(v, _) => PendingOf(ch, v)
    case WithdrawDelegatorReward(v) => PendingOf(ch, v)
    case _ => 0
  }

  // ---------------------------------------------------------------- messages

  /** Pay out what validator `i` owes; coins in other denominations leave the model here. */
  function PayRewards(ch: Chain, i: nat): Chain
    requires i < |ch.delegations|
  {
    ch.(bank := ch.bank + Pending(ch, i),
        received := ch.received + Pending(ch, i),
        delegations := ch.delegations[i := ch.delegations[i].(rewards := [])])
  }

  /** Pay the rewards of `v`'s delegation, if there is one. */
  function Touch(ch: Chain, v: string): Chain {
    var i := Find(ch.delegations, v);
    if i < |ch.delegations| then PayRewards(ch, i) else ch
  }

  /** Book `n` more on validator `v`. */
  function AddStake(ch: Chain, v: string, n: nat): Chain {
    var i := Find(ch.delegations, v);
    if i < |ch.delegations| then
      var d := ch.delegations[i];
      ch.(delegations := ch.delegations[i := d.(amount := d.amount + n)])
    else ch.(delegations := ch.delegations + [Delegation(v, n, [])])
  }

  /** Book `n` less on delegation `i`, which disappears when nothing is left on it. */
  function CutStake(ch: Chain, i: nat, n: nat): Chain
    requires i < |ch.delegations| && n <= ch.delegations[i].amount
  {
    var d := ch.delegations[i];
    if n == d.amount then ch.(delegations := ch.delegations[..i] + ch.delegations[i + 1..])
    else ch.(delegations := ch.delegations[i := d.(amount := d.amount - n)])
  }

  /** Take `n` off validator `v` after paying its rewards, if that much is staked there. */
  function Unstake(ch: Chain, v: string, n: nat): Option<Chain> {
    var i := Find(ch.delegations, v);
    if i == |ch.delegations| || ch.delegations[i].amount < n then None
    else Some(CutStake(PayRewards(ch, i), i, n))
  }

  /**
    Run one message. `accept` stands for the chain's own reasons to refuse a staking or
    governance message. A payment of nothing does nothing.
   */
  function RunMsg(ch: Chain, m: CosmosMsg, accept: bool): Option<Chain> {
    match m
    case Send(to, coin) =>
      if coin.amount == 0 then Some(ch)
      else if coin.denom != ch.denom || ch.bank < coin.amount then None
      else Some(ch.(bank := if to == ch.self then ch.bank else ch.bank - coin.amount,
                    outbox := ch.outbox + [Transfer(to, coin.amount)]))
    case Delegate(v, coin) =>
      var paid := Touch(ch, v);
      if !accept || coin.denom != ch.denom || paid.bank < coin.amount then None
      else Some(AddStake(paid.(bank := paid.bank - coin.amount), v, coin.amount))
    case Redelegate(src, dst, coin) =>
      if !accept || coin.denom != ch.denom || src == dst then None
      else (match Unstake(ch, src, coin.amount)
            case None => None
            case Some(cut) => Some(AddStake(Touch(cut, dst), dst, coin.amount)))
    case Undelegate(v, coin) =>
      if !accept || coin.denom != ch.denom then None
      else (match Unstake(ch, v, coin.amount)
            case None => None
            case Some(cut) => Some(cut.(unbonding := cut.unbonding + [coin.amount])))
    case WithdrawDelegatorReward(v) =>
      var i := Find(ch.delegations, v);
      if i < |ch.delegations| then Some(PayRewards(ch, i)) else None
    case GovVote(_, _) => if accept then Some(ch) else None
    case SelfCall(_) => None
  }

  function RunMsgs(ch: Chain, msgs: seq<CosmosMsg>, accept: bool): Option<Chain>
    decreases |msgs|
  {
    if msgs == [] then Some(ch)
    else match RunMsg(ch, msgs[0], accept)
      case None => None
      case Some(next) => RunMsgs(next, msgs[1..], accept)
  }

  // ---------------------------------------------------------------- changes of the chain's own

  datatype ChainEvent =
    | CompleteUnbonding(entry: nat)
    | AccrueReward(validator: string, coin: Coin)
    | Deposit(amount: nat)
    | SlashDelegation(validator: string, amount: nat)
    | SlashUnbonding(entry: nat, amount: nat)

  /** An event that names nothing leaves the chain as it is; slashing takes at most what is there. */
  function Happen(ch: Chain, e: ChainEvent): Chain {
    match e
    case CompleteUnbonding(k) =>
      if k < |ch.unbonding| then
        ch.(bank := ch.bank + ch.unbonding[k], unbonding := ch.unbonding[..k] + ch.unbonding[k + 1..])
      else ch
    case AccrueReward(v, coin) =>
      var i := Find(ch.delegations, v);
      if i < |ch.delegations| then
        var d := ch.delegations[i];
        ch.(delegations := ch.delegations[i := d.(rewards := d.rewards + [coin])])
      else ch
    case Deposit(n) => ch.(bank := ch.bank + n, received := ch.received + n)
    case SlashDelegation(v, n) =>
      var i := Find(ch.delegations, v);
      if i < |ch.delegations| then
        var d := ch.delegations[i];
        var lost: nat := Min(n, d.amount);
        ch.(delegations := ch.delegations[i := d.(amount := d.amount - lost)], slashed := ch.slashed + lost)
      else ch
    case SlashUnbonding(k, n) =>
      if k < |ch.unbonding| then
        var lost: nat := Min(n, ch.unbonding[k]);
        ch.(unbonding := ch.unbonding[k := ch.unbonding[k] - lost], slashed := ch.slashed + lost)
      else ch
  }

  // ---------------------------------------------------------------- conservation

  ghost predicate Distinct(ds: seq<Delegation>) {
    forall i, j :: 0 <= i < j < |ds| ==> ds[i].validator != ds[j].validator
  }

  /** Everything the vault owns, wherever it is. */
  function Worth(ch: Chain): nat {
    ch.bank + Staked(ch) + Unbonding(ch)
  }

  function Amounts(outbox: seq<Transfer>): seq<nat> {
    seq(|outbox|, i requires 0 <= i < |outbox| => outbox[i].amount)
  }

  function AmountsTo(outbox: seq<Transfer>, to: Addr): seq<nat> {
    seq(|outbox|, i requires 0 <= i < |outbox| => if outbox[i].to == to then outbox[i].amount else 0)
  }

  /** All payments made so far. */
  function Paid(ch: Chain): nat {
    Sum(Amounts(ch.outbox))
  }

  /** The payments the vault made to itself, which never left its bank. */
  function PaidToSelf(ch: Chain): nat {
    Sum(AmountsTo(ch.outbox, ch.self))
  }

  /** The payments made between two states. */
  function Fresh(before: Chain, after: Chain): seq<Transfer> {
    if |before.outbox| <= |after.outbox| then after.outbox[|before.outbox|..] else []
  }

  /** Between the two states `amount` was paid to `to`, in any number of payments, and nothing else. */
  ghost predicate PaysOnly(before: Chain, after: Chain, to: Addr, amount: nat) {
    && before.outbox <= after.outbox
    && (forall t :: t in Fresh(before, after) ==> t.to == to)
    && Sum(Amounts(Fresh(before, after))) == amount
  }

  /** What came in is what is there, what was slashed and what was paid to others. */
  ghost predicate Balanced(ch: Chain) {
    && Distinct(ch.delegations)
    && Worth(ch) + ch.slashed + Paid(ch) == ch.received + PaidToSelf(ch)
  }

  lemma LookupAt(ds: seq<Delegation>, k: nat)
    requires Distinct(ds) && k < |ds|
    ensures Lookup(ds, ds[k].validator) == Some(ds[k])
  {
  }

  /** Changing one delegation, under the same validator, changes what is found there only. */
  lemma LookupUpdate(ds: seq<Delegation>, i: nat, d: Delegation, u: string)
    requires Distinct(ds) && i < |ds| && d.validator == ds[i].validator
    ensures Distinct(ds[i := d])
    ensures Lookup(ds[i := d], u) == if u == d.validator then Some(d) else Lookup(ds, u)
  {
    var es := ds[i := d];
    if u == d.validator {
      LookupAt(es, i);
    } else {
      var k := Find(ds, u);
      if k < |ds| {
        LookupAt(es, k);
      }
    }
  }

  lemma LookupRemove(ds: seq<Delegation>, i: nat, u: string)
    requires Distinct(ds) && i < |ds|
    ensures Distinct(ds[..i] + ds[i + 1..])
    ensures Lookup(ds[..i] + ds[i + 1..], u) == if u == ds[i].validator then None else Lookup(ds, u)
  {
    var es := ds[..i] + ds[i + 1..];
    var j, k := Find(es, u), Find(ds, u);
    assert k < |ds| && k != i ==> es[if k < i then k else k - 1] == ds[k];
    if j < |es| {
      LookupAt(ds, if j < i then j else j + 1);
    }
  }

  /** Taking stake off one validator leaves the delegations to all others as they were. */
  lemma UnstakeKeepsOthers(ch: Chain, v: string, n: nat, u: string)
    requires Distinct(ch.delegations)
    requires Unstake(ch, v, n).Some? && u != v
    ensures QueryDelegation(Unstake(ch, v, n).value, u) == QueryDelegation(ch, u)
  {
    hide Lookup;
    var i := Find(ch.delegations, v);
    var d := ch.delegations[i].(rewards := []);
    var ds := ch.delegations[i := d];
    LookupUpdate(ch.delegations, i, d, u);
    if n == d.amount {
      LookupRemove(ds, i, u);
    } else {
      LookupUpdate(ds, i, d.(amount := d.amount - n), u);
    }
  }

  lemma StakesUpdate(ds: seq<Delegation>, i: nat, d: Delegation)
    requires i < |ds|
    ensures Sum(Stakes(ds[i := d])) + ds[i].amount == Sum(Stakes(ds)) + d.amount
  {
    assert Stakes(ds[i := d]) == Stakes(ds)[i := d.amount];
    SumUpdate(Stakes(ds), i, d.amount);
  }

  lemma StakesAppend(ds: seq<Delegation>, d: Delegation)
    ensures Sum(Stakes(ds + [d])) == Sum(Stakes(ds)) + d.amount
  {
    assert Stakes(ds + [d]) == Stakes(ds) + [d.amount];
    SumAppend(Stakes(ds), d.amount);
  }

  lemma StakesRemove(ds: seq<Delegation>, i: nat)
    requires i < |ds|
    ensures Sum(Stakes(ds[..i] + ds[i + 1..])) + ds[i].amount == Sum(Stakes(ds))
  {
    var s := Stakes(ds);
    assert Stakes(ds[..i] + ds[i + 1..]) == s[..i] + s[i + 1..];
    SumRemove(s, i);
  }

  /** `after` differs from `before` by money that came into the bank, and nothing was paid. */
  ghost predicate Gains(before: Chain, after: Chain, gain: nat) {
    && after.self == before.self && after.denom == before.denom
    && after.outbox == before.outbox && after.slashed == before.slashed
    && after.received == before.received + gain
    && Worth(after) == Worth(before) + gain
    && Distinct(after.delegations)
  }

  lemma PayRewardsGains(ch: Chain, i: nat)
    requires Distinct(ch.delegations)
    requires i < |ch.delegations|
    ensures Gains(ch, PayRewards(ch, i), Pending(ch, i))
    ensures Staked(PayRewards(ch, i)) == Staked(ch)
  {
    StakesUpdate(ch.delegations, i, ch.delegations[i].(rewards := []));
  }

  lemma TouchGains(ch: Chain, v: string)
    requires Distinct(ch.delegations)
    ensures Gains(ch, Touch(ch, v), PendingOf(ch, v))
  {
    var i := Find(ch.delegations, v);
    if i < |ch.delegations| {
      PayRewardsGains(ch, i);
    }
  }

  lemma AddStakeAdds(ch: Chain, v: string, n: nat)
    requires Distinct(ch.delegations)
    ensures Distinct(AddStake(ch, v, n).delegations)
    ensures Staked(AddStake(ch, v, n)) == Staked(ch) + n
  {
    var ds := ch.delegations;
    var i := Find(ds, v);
    if i < |ds| {
      StakesUpdate(ds, i, ds[i].(amount := ds[i].amount + n));
    } else {
      StakesAppend(ds, Delegation(v, n, []));
    }
  }

  lemma UnstakeGains(ch: Chain, v: string, n: nat)
    requires Distinct(ch.delegations)
    requires Unstake(ch, v, n).Some?
    ensures var cut := Unstake(ch, v, n).value;
      && cut.self == ch.self && cut.denom == ch.denom
      && cut.outbox == ch.outbox && cut.slashed == ch.slashed && cut.unbonding == ch.unbonding
      && cut.received == ch.received + PendingOf(ch, v)
      && cut.bank == ch.bank + PendingOf(ch, v)
      && Staked(cut) + n == Staked(ch)
      && Distinct(cut.delegations)
  {
    var i := Find(ch.delegations, v);
    var paid := PayRewards(ch, i);
    PayRewardsGains(ch, i);
    if n == paid.delegations[i].amount {
      StakesRemove(paid.delegations, i);
    } else {
      StakesUpdate(paid.delegations, i, paid.delegations[i].(amount := paid.delegations[i].amount - n));
    }
  }

  lemma DelegateGains(ch: Chain, v: string, coin: Coin, accept: bool)
    requires Distinct(ch.delegations)
    requires RunMsg(ch, Delegate(v, coin), accept).Some?
    ensures Gains(ch, RunMsg(ch, Delegate(v, coin), accept).value, PendingOf(ch, v))
  {
    hide Touch, PendingOf, Sum;
    TouchGains(ch, v);
    var paid := Touch(ch, v);
    AddStakeAdds(paid.(bank := paid.bank - coin.amount), v, coin.amount);
  }

  lemma RedelegateGains(ch: Chain, src: string, dst: string, coin: Coin, accept: bool)
    requires Distinct(ch.delegations)
    requires RunMsg(ch, Redelegate(src, dst, coin), accept).Some?
    ensures Gains(ch, RunMsg(ch, Redelegate(src, dst, coin), accept).value, PendingOf(ch, src) + PendingOf(ch, dst))
  {
    hide Touch, Unstake, QueryDelegation, Sum;
    UnstakeGains(ch, src, coin.amount);
    UnstakeKeepsOthers(ch, src, coin.amount, dst);
    var cut := Unstake(ch, src, coin.amount).value;
    TouchGains(cut, dst);
    AddStakeAdds(Touch(cut, dst), dst, coin.amount);
  }

  lemma UndelegateGains(ch: Chain, v: string, coin: Coin, accept: bool)
    requires Distinct(ch.delegations)
    requires RunMsg(ch, Undelegate(v, coin), accept).Some?
    ensures Gains(ch, RunMsg(ch, Undelegate(v, coin), accept).value, PendingOf(ch, v))
  {
    hide Unstake, PendingOf, Sum;
    UnstakeGains(ch, v, coin.amount);
    SumAppend(Unstake(ch, v, coin.amount).value.unbonding, coin.amount);
  }

  /**
    A staking message only moves money within the vault's holdings, and brings in exactly the
    rewards pending with the validators it touches.
   */
  lemma StakingGains(ch: Chain, m: CosmosMsg, accept: bool)
    requires Distinct(ch.delegations)
    requires !m.Send?
    requires RunMsg(ch, m, accept).Some?
    ensures Gains(ch, RunMsg(ch, m, accept).value, Reaped(ch, m))
  {
    match m
    case Delegate(v, coin) => DelegateGains(ch, v, coin, accept);
    case Redelegate(src, dst, coin) => RedelegateGains(ch, src, dst, coin, accept);
    case Undelegate(v, coin) => UndelegateGains(ch, v, coin, accept);
    case WithdrawDelegatorReward(v) => PayRewardsGains(ch, Find(ch.delegations, v));
    case GovVote(_, _) =>
  }

  lemma FreshJoin(a: Chain, b: Chain, c: Chain)
    requires a.outbox <= b.outbox <= c.outbox
    ensures a.outbox <= c.outbox
    ensures Fresh(a, c) == Fresh(a, b) + Fresh(b, c)
    ensures Sum(Amounts(Fresh(a, c))) == Sum(Amounts(Fresh(a, b))) + Sum(Amounts(Fresh(b, c)))
  {
    assert Amounts(Fresh(a, c)) == Amounts(Fresh(a, b)) + Amounts(Fresh(b, c));
    SumConcat(Amounts(Fresh(a, b)), Amounts(Fresh(b, c)));
  }

  lemma PaysOnlyJoin(a: Chain, b: Chain, c: Chain, to: Addr, m: nat, n: nat)
    requires PaysOnly(a, b, to, m) && PaysOnly(b, c, to, n)
    ensures PaysOnly(a, c, to, m + n)
  {
    FreshJoin(a, b, c);
  }

  /** What was paid between two states adds to all totals. */
  lemma PaysOnlyTotals(before: Chain, after: Chain, to: Addr, amount: nat, x: Addr)
    requires PaysOnly(before, after, to, amount)
    ensures Paid(after) == Paid(before) + amount
    ensures Sum(AmountsTo(after.outbox, x)) ==
            Sum(AmountsTo(before.outbox, x)) + (if x == to then amount else 0)
  {
    var recent := Fresh(before, after);
    assert Amounts(after.outbox) == Amounts(before.outbox) + Amounts(recent);
    SumConcat(Amounts(before.outbox), Amounts(recent));
    assert AmountsTo(after.outbox, x) == AmountsTo(before.outbox, x) + AmountsTo(recent, x);
    SumConcat(AmountsTo(before.outbox, x), AmountsTo(recent, x));
    if x == to {
      assert AmountsTo(recent, x) == Amounts(recent);
    } else {
      SumZeros(AmountsTo(recent, x));
    }
  }

  /** A payment moves its amount out of the bank, unless the vault pays itself. */
  lemma SendPays(ch: Chain, to: Addr, amount: nat, accept: bool)
    requires RunMsg(ch, Send(to, Coin(ch.denom, amount)), accept).Some?
    ensures var after := RunMsg(ch, Send(to, Coin(ch.denom, amount)), accept).value;
      && after == ch.(bank := after.bank, outbox := after.outbox)
      && after.bank == (if to == ch.self then ch.bank else ch.bank - amount)
      && PaysOnly(ch, after, to, amount)
      && Paid(after) == Paid(ch) + amount
      && PaidToSelf(after) == PaidToSelf(ch) + (if to == ch.self then amount else 0)
  {
    var after := RunMsg(ch, Send(to, Coin(ch.denom, amount)), accept).value;
    assert Fresh(ch, after) == if amount == 0 then [] else [Transfer(to, amount)];
    assert Amounts(Fresh(ch, after)) == if amount == 0 then [] else [amount];
    PaysOnlyTotals(ch, after, to, amount, ch.self);
  }

  /** No message creates or destroys money. */
  lemma MsgBalanced(ch: Chain, m: CosmosMsg, accept: bool)
    requires Balanced(ch)
    requires RunMsg(ch, m, accept).Some?
    ensures Balanced(RunMsg(ch, m, accept).value)
  {
    if m.Send? {
      if m.coin.amount > 0 {
        SendPays(ch, m.to, m.coin.amount, accept);
      }
    } else {
      StakingGains(ch, m, accept);
    }
  }

  lemma {:induction false} MsgsBalanced(ch: Chain, msgs: seq<CosmosMsg>, accept: bool)
    requires Balanced(ch)
    requires RunMsgs(ch, msgs, accept).Some?
    ensures var after := RunMsgs(ch, msgs, accept).value;
      Balanced(after) && after.self == ch.self && after.denom == ch.denom && after.slashed == ch.slashed
    decreases |msgs|
  {
    if msgs != [] {
      MsgBalanced(ch, msgs[0], accept);
      if !msgs[0].Send? {
        StakingGains(ch, msgs[0], accept);
      }
      MsgsBalanced(RunMsg(ch, msgs[0], accept).value, msgs[1..], accept);
    }
  }

  /** The chain's own changes keep the books balanced and never lower worth plus slashing. */
  lemma EventBalanced(ch: Chain, e: ChainEvent)
    requires Balanced(ch)
    ensures var after := Happen(ch, e);
      && Balanced(after)
      && after.self == ch.self && after.denom == ch.denom && after.outbox == ch.outbox
      && ch.slashed <= after.slashed
      && Worth(ch) + ch.slashed <= Worth(after) + after.slashed
  {
    hide Sum;
    match e
    case CompleteUnbonding(k) =>
      if k < |ch.unbonding| {
        SumRemove(ch.unbonding, k);
      }
    case AccrueReward(v, coin) =>
      var i := Find(ch.delegations, v);
      if i < |ch.delegations| {
        var d := ch.delegations[i];
        StakesUpdate(ch.delegations, i, d.(rewards := d.rewards + [coin]));
      }
    case Deposit(n) =>
    case SlashDelegation(v, n) =>
      var i := Find(ch.delegations, v);
      if i < |ch.delegations| {
        var d := ch.delegations[i];
        StakesUpdate(ch.delegations, i, d.(amount := d.amount - Min(n, d.amount)));
      }
    case SlashUnbonding(k, n) =>
      if k < |ch.unbonding| {
        SumUpdate(ch.unbonding, k, ch.unbonding[k] - Min(n, ch.unbonding[k]));
      }
  }
}
