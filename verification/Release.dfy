/**
  Funds are never stuck: from any reachable state whose holdings cover the schedule, operators can
  bring everything back to the bank and, once it is due, out to the unlock address.
 */
module Release {
  import opened Chains
  import opened Contract
  import opened LedgerProofs
  import opened Machine
  import opened Payments
  import opened Schedules
  import opened State
  import opened Sums
  import opened Theorems
  import opened Tranches
  import opened Types

  /**
    What the vault can do without help from outside: `op` takes stake back and asks for unlocked
    tokens, time passes and unbonding completes. No deposit, no reward, no one else acts.
   */
  ghost predicate OwnMeans(op: Addr, events: seq<Event>) {
    forall e :: e in events ==>
      match e
      case Tx(sender, m, _) => sender == op && (m.ExecUndelegate? || m.InitiateWithdrawUnlocked?)
      case NextBlock(_, _) => true
      case OnChain(event) => event.CompleteUnbonding?
  }

  // ---------------------------------------------------------------- bringing the stake home

  lemma UndelegateFirst(w: World, plan: Schedule, op: Addr)
    requires MoneyInv(w, plan)
    requires op in w.store.ops && op != w.chain.self
    requires w.chain.delegations != []
    ensures var d := w.chain.delegations[0];
      var after := Step(w, Tx(op, ExecUndelegate(d.validator, d.amount), true));
      && after == w.(chain := after.chain)
      && after.chain.self == w.chain.self
      && after.chain.delegations == w.chain.delegations[1..]
      && after.chain.outbox == w.chain.outbox
      && Worth(w.chain) <= Worth(after.chain)
  {
    hide ScheduleInv, MsgsInv, RunAll, Sum;
    var d := w.chain.delegations[0];
    var m := Undelegate(d.validator, Coin(w.store.denom, d.amount));
    RunAllOnChain(w, [m], true);
    assert [m][1..] == [];
    assert RunMsgs(w.chain, [m], true) == RunMsg(w.chain, m, true);
    assert Find(w.chain.delegations, d.validator) == 0;
    StakingGains(w.chain, m, true);
  }

  lemma {:induction false} UndelegateAll(w: World, plan: Schedule, op: Addr) returns (events: seq<Event>)
    requires MoneyInv(w, plan)
    requires op in w.store.ops && op != w.chain.self
    ensures OwnMeans(op, events)
    ensures var after := Run(w, events);
      && MoneyInv(after, plan)
      && after == w.(chain := after.chain)
      && after.chain.self == w.chain.self
      && after.chain.delegations == []
      && after.chain.outbox == w.chain.outbox
      && Worth(w.chain) <= Worth(after.chain)
    decreases |w.chain.delegations|
  {
    hide Step, Run, MoneyInv, Worth;
    if w.chain.delegations == [] {
      events := [];
      RunNone(w);
    } else {
      var d := w.chain.delegations[0];
      var e := Tx(op, ExecUndelegate(d.validator, d.amount), true);
      UndelegateFirst(w, plan, op);
      StepMoney(w, plan, e);
      var rest := UndelegateAll(Step(w, e), plan, op);
      RunFirst(w, e, rest);
      events := [e] + rest;
    }
  }

  lemma RunNone(w: World)
    ensures Run(w, []) == w
  {
  }

  lemma {:induction false} CompleteAll(w: World, plan: Schedule, op: Addr) returns (events: seq<Event>)
    requires MoneyInv(w, plan)
    ensures OwnMeans(op, events)
    ensures var after := Run(w, events);
      && MoneyInv(after, plan)
      && after == w.(chain := after.chain)
      && after.chain.self == w.chain.self
      && after.chain.delegations == w.chain.delegations
      && after.chain.unbonding == []
      && after.chain.outbox == w.chain.outbox
      && Worth(after.chain) == Worth(w.chain)
    decreases |w.chain.unbonding|
  {
    hide Step, Run, MoneyInv, Worth;
    if w.chain.unbonding == [] {
      events := [];
      RunNone(w);
    } else {
      var e := OnChain(CompleteUnbonding(0));
      CompleteFirst(w);
      StepMoney(w, plan, e);
      var rest := CompleteAll(Step(w, e), plan, op);
      RunFirst(w, e, rest);
      events := [e] + rest;
    }
  }

  lemma CompleteFirst(w: World)
    requires w.chain.unbonding != []
    ensures var after := Step(w, OnChain(CompleteUnbonding(0)));
      && after == w.(chain := after.chain)
      && after.chain == w.chain.(bank := after.chain.bank, unbonding := w.chain.unbonding[1..])
      && Worth(after.chain) == Worth(w.chain)
  {
    assert w.chain.unbonding[..0] + w.chain.unbonding[1..] == w.chain.unbonding[1..];
  }

  // ---------------------------------------------------------------- paying it out

  /** Everything left is due, and no entry is so large that adding one to it overflows. */
  ghost predicate Payable(s: Schedule, now: nat) {
    && (forall i :: 0 <= i < |s.timestamps| ==> s.timestamps[i] <= now)
    && (forall i :: 0 <= i < |s.amounts| ==> 0 < s.amounts[i] < U128_LIMIT - 1)
  }

  /** A request for one token never overflows and leaves the rest payable. */
  lemma OneTokenFits(s: Schedule, now: nat)
    requires Payable(s, now) && s.amounts != []
    ensures 1 <= Vested(s, now)
    ensures LastSumFits(s, now, 1)
    ensures Payable(Collected(s, now, 1), now)
    ensures Sum(Collected(s, now, 1).amounts) == Sum(s.amounts) - 1
  {
    CollectedSums(s, now, 1);
    SumSnoc(s.amounts, 0);
    assert s.amounts[..0 + 1] == s.amounts[..1];
    assert Through(s, 0) == s.amounts[0] + Sum([]);
    forall k: nat | ReachedAt(s, now, 1, k)
      ensures k == 0
    {
    }
  }

  lemma {:induction false} PayOut(w: World, plan: Schedule, op: Addr) returns (events: seq<Event>)
    requires MoneyInv(w, plan) && Sum(plan.amounts) < U128_LIMIT
    requires op in w.store.ops && op != w.chain.self
    requires Payable(w.store.ledger.schedule, w.block.time)
    requires Sum(w.store.ledger.schedule.amounts) <= w.chain.bank
    ensures OwnMeans(op, events) && Released(w, Run(w, events))
    decreases Sum(w.store.ledger.schedule.amounts)
  {
    hide Step, Run, MoneyInv, Payable, PaysOnly, Collected, LastSumFits, Sum, Transact, Released;
    var s := w.store.ledger.schedule;
    if s.amounts == [] {
      events := [];
      RunNone(w);
      NothingReleased(w);
    } else {
      var e := Tx(op, InitiateWithdrawUnlocked(1), true);
      OneTokenFits(s, w.block.time);
      UnlockedOutcome(w, plan, op, 1, true);
      StepIs(w, op, true);
      StepMoney(w, plan, e);
      var rest := PayOut(Step(w, e), plan, op);
      RunFirst(w, e, rest);
      events := [e] + rest;
      ReleasedJoin(w, Step(w, e), Run(w, events));
    }
  }

  lemma StepIs(w: World, op: Addr, accept: bool)
    requires op != w.chain.self
    requires Transact(w, op, InitiateWithdrawUnlocked(1), accept).Some?
    ensures Step(w, Tx(op, InitiateWithdrawUnlocked(1), accept)) ==
            Transact(w, op, InitiateWithdrawUnlocked(1), accept).value
  {
  }

  /** All that was left in `w` has been withdrawn and paid to the unlock address, and nothing else happened. */
  ghost predicate Released(w: World, after: World) {
    var l := w.store.ledger;
    var left := Sum(l.schedule.amounts);
    && after.store == w.store.(ledger := l.(schedule := EMPTY, withdrawnUnlocked := l.withdrawnUnlocked + left))
    && after.log == w.log
    && PaysOnly(w.chain, after.chain, w.store.unlockAddress, left)
  }

  lemma NothingReleased(w: World)
    requires w.store.ledger.schedule.amounts == []
    ensures Released(w, w)
  {
    assert Fresh(w.chain, w.chain) == [];
    assert w.store.ledger.schedule == EMPTY;
  }

  /** One token withdrawn first, the rest afterwards. */
  lemma ReleasedJoin(w: World, mid: World, after: World)
    requires var l, l' := w.store.ledger, mid.store.ledger;
      && mid.store == w.store.(ledger := l.(schedule := l'.schedule, withdrawnUnlocked := l.withdrawnUnlocked + 1))
      && Sum(l'.schedule.amounts) == Sum(l.schedule.amounts) - 1
    requires mid.log == w.log
    requires PaysOnly(w.chain, mid.chain, w.store.unlockAddress, 1)
    requires Released(mid, after)
    ensures Released(w, after)
  {
    hide PaysOnly, Sum;
    PaysOnlyJoin(w.chain, mid.chain, after.chain, w.store.unlockAddress, 1,
                 Sum(mid.store.ledger.schedule.amounts));
  }

  /** Moving the holdings around beforehand makes no difference to what is released. */
  lemma ReleasedFrom(w: World, mid: World, after: World)
    requires mid.store == w.store && mid.log == w.log && mid.chain.outbox == w.chain.outbox
    requires Released(mid, after)
    ensures Released(w, after)
  {
  }

  // ---------------------------------------------------------------- the theorem

  /** The plan of a single entry so large that no request can be added to it. */
  predicate Unpayable(plan: Schedule) {
    plan.amounts == [U128_LIMIT - 1]
  }

  lemma EntriesBelowMaximum(plan: Schedule)
    requires Positive(plan) && Sum(plan.amounts) < U128_LIMIT && !Unpayable(plan)
    ensures forall i :: 0 <= i < |plan.amounts| ==> plan.amounts[i] < U128_LIMIT - 1
  {
    forall i | 0 <= i < |plan.amounts|
      ensures plan.amounts[i] < U128_LIMIT - 1
    {
      var others := plan.amounts[..i] + plan.amounts[i + 1..];
      SumRemove(plan.amounts, i);
      if |plan.amounts| == 1 {
        assert plan.amounts == [plan.amounts[0]];
      } else {
        assert others[0] == plan.amounts[if i == 0 then 1 else 0];
      }
    }
  }

  /** Entries that are left are no larger than those of the plan. */
  lemma LeftBelowMaximum(l: Ledger, plan: Schedule, now: nat)
    requires ScheduleInv(l, plan, now)
    requires Sum(plan.amounts) < U128_LIMIT && !Unpayable(plan)
    ensures forall i :: 0 <= i < |l.schedule.amounts| ==> 0 < l.schedule.amounts[i] < U128_LIMIT - 1
  {
    hide Sum, Curve, Consume;
    EntriesBelowMaximum(plan);
    ScheduleShape(l, plan, now);
    var s := l.schedule;
    var dropped := |plan.amounts| - |s.amounts|;
    forall i | 0 <= i < |s.amounts|
      ensures 0 < s.amounts[i] < U128_LIMIT - 1
    {
      assert i > 0 ==> s.amounts[i] == s.amounts[1..][i - 1] == plan.amounts[dropped + 1..][i - 1];
    }
  }

  /** A time by which all of a schedule is due. */
  function LastTime(s: Schedule): nat {
    if s.timestamps == [] then 0 else s.timestamps[|s.timestamps| - 1]
  }

  /** The holdings come home, time passes, and everything is paid out. */
  lemma ReleaseRun(w: World, plan: Schedule, op: Addr) returns (future: seq<Event>)
    requires MoneyInv(w, plan) && Sum(plan.amounts) < U128_LIMIT && !Unpayable(plan)
    requires op in w.store.ops && op != w.chain.self
    requires Sum(w.store.ledger.schedule.amounts) <= Worth(w.chain)
    ensures OwnMeans(op, future) && Released(w, Run(w, future))
  {
    hide Run, MoneyInv, Released, ScheduleInv;
    var home := UndelegateAll(w, plan, op);
    var w1 := Run(w, home);
    var done := CompleteAll(w1, plan, op);
    var w2 := Run(w1, done);
    var wait := NextBlock(0, LastTime(w.store.ledger.schedule));
    StepMoney(w2, plan, wait);
    var w3 := Step(w2, wait);
    BankHoldsAll(w2.chain);
    NowPayable(w3, plan);
    var pay := PayOut(w3, plan, op);
    ReleasedFrom(w, w3, Run(w3, pay));
    RunFirst(w2, wait, pay);
    RunConcat(w1, done, [wait] + pay);
    RunConcat(w, home, done + ([wait] + pay));
    future := home + (done + ([wait] + pay));
  }

  lemma BankHoldsAll(ch: Chain)
    requires ch.delegations == [] && ch.unbonding == []
    ensures Worth(ch) == ch.bank
  {
    assert Stakes(ch.delegations) == [];
  }

  lemma NowPayable(w: World, plan: Schedule)
    requires MoneyInv(w, plan) && Sum(plan.amounts) < U128_LIMIT && !Unpayable(plan)
    requires LastTime(w.store.ledger.schedule) <= w.block.time
    ensures Payable(w.store.ledger.schedule, w.block.time)
  {
    var l := w.store.ledger;
    LeftBelowMaximum(l, plan, w.block.time);
    ScheduleShape(l, plan, w.block.time);
  }

  /** From the unpayable plan no positive withdrawal of unlocked tokens ever succeeds. */
  lemma {:induction false} UnpayableNeverPays(w0: World, m: InstantiateMsg, funds: seq<Coin>, events: seq<Event>)
    requires Start(w0, m, funds)
    requires Unpayable(PlanOf(m.tranche))
    ensures Run(w0, events).store.ledger.withdrawnUnlocked == 0
    decreases |events|
  {
    hide Step, Unpayable, MoneyInv;
    if events != [] {
      hide Start;
      var n := |events| - 1;
      UnpayableNeverPays(w0, m, funds, events[..n]);
      ReachableMoney(w0, m, funds, events[..n]);
      UnpayableStep(Run(w0, events[..n]), PlanOf(m.tranche), events[n]);
    }
  }

  lemma UnpayableStep(w: World, plan: Schedule, e: Event)
    requires MoneyInv(w, plan) && Unpayable(plan)
    requires w.store.ledger.withdrawnUnlocked == 0
    ensures Step(w, e).store.ledger.withdrawnUnlocked == 0
  {
    hide MoneyInv, RunAll, Handle, Unpayable;
    StepPays(w, plan, e);
    if PurposeOf(e) == Some(ForUnlocked) && Step(w, e) != w {
      UnpayableRequest(w, plan, e.sender, e.msg.amount, e.accept);
    } else {
      NothingFresh(w.chain);
    }
  }

  lemma UnpayableRequest(w: World, plan: Schedule, sender: Addr, amount: nat, accept: bool)
    requires MoneyInv(w, plan) && Unpayable(plan)
    requires w.store.ledger.withdrawnUnlocked == 0
    requires Transact(w, sender, InitiateWithdrawUnlocked(amount), accept).Some?
    ensures Transact(w, sender, InitiateWithdrawUnlocked(amount), accept).value.store.ledger.withdrawnUnlocked == 0
  {
    hide RunAll;
    var s, now := w.store.ledger.schedule, w.block.time;
    var (s', msgs) := WithdrawUnlocked(w.store, EnvOf(w), sender, amount).value;
    RunAllOnChain(w.(store := s'), msgs, accept);
    UnpayableCollect(plan, now, amount);
  }

  lemma UnpayableCollect(plan: Schedule, now: nat, r: nat)
    requires Unpayable(plan)
    ensures Collect(plan, now, r).Ok? <==> r == 0
    ensures Collect(EMPTY, now, r).Ok? <==> r == 0
  {
    assert plan.amounts[0] == U128_LIMIT - 1;
    assert Tail(plan) == EMPTY;
    assert Vested(plan, now) == if plan.timestamps[0] > now then 0 else plan.amounts[0];
    assert r > 0 && plan.timestamps[0] <= now && r <= plan.amounts[0] ==> Overflows(plan, now, 0, r);
  }

  /**
    Funds are never stuck. Take any reachable state in which some operator other than the vault
    itself exists and the holdings cover what is left, as they always do without slashing. Then
    that operator alone, taking stake back, waiting for it to unbond and for the schedule to fall
    due, and asking for unlocked tokens, can bring about that all of it is withdrawn and paid to
    the unlock address. The one exception is the unpayable plan: while something is left of it,
    no events at all, by anyone, can bring that about.
   */
  lemma NeverStuck(w0: World, m: InstantiateMsg, funds: seq<Coin>, past: seq<Event>, op: Addr)
    requires Start(w0, m, funds)
    requires var w := Run(w0, past);
      && op in w.store.ops && op != w.chain.self
      && (w.chain.slashed == 0 || Sum(w.store.ledger.schedule.amounts) <= Worth(w.chain))
    ensures var w := Run(w0, past);
      if !Unpayable(PlanOf(m.tranche)) || w.store.ledger.schedule == EMPTY
      then exists future :: OwnMeans(op, future) && Released(w, Run(w, future))
      else forall future :: !Released(w, Run(w, future))
  {
    hide Run, Start, Unpayable, Released, ScheduleInv;
    StartAccepts(w0, m, funds);
    var w, plan := Run(w0, past), PlanOf(m.tranche);
    ReachableMoney(w0, m, funds, past);
    if w.store.ledger.schedule == EMPTY {
      NothingReleased(w);
      RunNone(w);
      assert OwnMeans(op, []) && Released(w, Run(w, []));
    } else if !Unpayable(plan) {
      var future := ReleaseRun(w, plan, op);
      assert OwnMeans(op, future) && Released(w, Run(w, future));
    } else {
      forall future: seq<Event>
        ensures !Released(w, Run(w, future))
      {
        UnpayableNeverPays(w0, m, funds, past + future);
        UnpayableNeverPays(w0, m, funds, past);
        RunConcat(w0, past, future);
        SomethingLeft(w, plan, Run(w, future));
      }
    }
  }

  lemma SomethingLeft(w: World, plan: Schedule, after: World)
    requires MoneyInv(w, plan)
    requires w.store.ledger.schedule != EMPTY
    requires after.store.ledger.withdrawnUnlocked == w.store.ledger.withdrawnUnlocked
    ensures !Released(w, after)
  {
    EmptiedSchedule(w.store.ledger, plan, w.block.time);
  }
}
