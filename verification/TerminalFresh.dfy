/** The hypothesis `FreshWithdrawal` from what a caller sees: no two withdrawals with the same caller and amount are
    made at the same clock reading. */
module TerminalFresh {
  import opened Wrappers
  import opened PaymentErrors
  import opened Transfers
  import opened Ledgers
  import opened Terminal
  import opened TerminalBudget
  import opened TerminalOutcome
  import opened TerminalSolvency
  import opened TerminalRuns
  import opened TerminalThroughout
  import opened TerminalRecovery

  /** Every interim account among the executed requests and on the list is one of `used`. */
  ghost predicate Uses(w: World, used: set<Account>) {
    && (forall r :: r in w.ledger.blocks ==> r.from.sub.Interim? ==> r.from in used)
    && (forall r :: r in w.ledger.blocks ==> r.to.sub.Interim? ==> r.to in used)
    && (forall u :: u in w.recovery.Values ==> u.kind.DoubleStep? ==> u.kind.interim in used)
  }

  /** The plain ends of a deposit or withdrawal are not interim accounts. */
  lemma PlainEnds(me: Principal, t: Transfer)
    requires Shape(me, t)
    ensures !FromAcc(me, t).sub.Interim? && !t.to.sub.Interim?
  {
  }

  lemma AppendedUses(w: World, t: Transfer, w': World, r: Outcome, used: set<Account>)
    requires Uses(w, used) && Shape(w.me, t) && ThreeWays(w, t, w', r) && w'.me == w.me
    requires t.kind.DoubleStep? ==> t.kind.interim in used
    ensures forall r :: r in w'.ledger.blocks ==> r.from.sub.Interim? ==> r.from in used
    ensures forall r :: r in w'.ledger.blocks ==> r.to.sub.Interim? ==> r.to in used
  {
    var c := AppendedBlocks(w, t, w', r);
    PlainEnds(w.me, t);
    forall x | x in w'.ledger.blocks ensures x in w.ledger.blocks || x == RequestOf(w.me, t)
                                             || (IsFirstStep(t) && x == RequestOf(w.me, StepAt(t, c)))
    {
    }
  }

  lemma PushUses(list: RecoveryList, left: Option<Transfer>, used: set<Account>)
    requires forall u :: u in list.Values ==> u.kind.DoubleStep? ==> u.kind.interim in used
    requires left.Some? && left.value.kind.DoubleStep? ==> left.value.kind.interim in used
    ensures forall u :: u in PutBack(list, left).Values ==> u.kind.DoubleStep? ==> u.kind.interim in used
  {
    forall u | u in PutBack(list, left).Values && u.kind.DoubleStep? ensures u.kind.interim in used {
      var id :| id in PutBack(list, left) && PutBack(list, left)[id] == u;
      assert u in list.Values || left == Some(u);
    }
  }

  /** An attempt uses no interim account but its own. */
  lemma AttemptUses(w: World, t: Transfer, w': World, r: Outcome, left: Option<Transfer>, used: set<Account>)
    requires Uses(w, used) && Shape(w.me, t) && ThreeWays(w, t, w', r) && w'.me == w.me
    requires t.kind.DoubleStep? ==> t.kind.interim in used
    requires w'.recovery == PutBack(w.recovery, left) && (left.Some? ==> Continues(t, left.value))
    ensures Uses(w', used)
  {
    AppendedUses(w, t, w', r, used);
    PushUses(w.recovery, left, used);
  }

  // ---------------------------------------------------------------- operations

  lemma NewAttemptUses(e: Env, w: World, t: Transfer, fee: nat, live: set<Transfer>, used: set<Account>)
    requires Safe(w, fee, live + {t}) && RequestOf(w.me, t) !in w.ledger.blocks && Uses(w, used)
    requires t.createdAt == w.clock && Undisturbed(w, RunTransfer(e, w, t, N_RETRIES).0)
    requires t.kind.DoubleStep? ==> t.kind.interim in used
    ensures Uses(RunTransfer(e, w, t, N_RETRIES).0, used)
  {
    var (w', r) := RunTransfer(e, w, t, N_RETRIES);
    LiveReady(w, fee, live + {t}, t);
    assert Good(w, fee, t);
    TransferBudget(e, w, t, N_RETRIES);
    TransferOutcome(e, w, t, N_RETRIES);
    var rest := TransferAccounted(e, w, t, N_RETRIES);
    AttemptUses(w, t, w', r, rest.left, used);
  }

  lemma DepositUses(e: Env, w: World, fee: nat, caller: Principal, amount: nat, used: set<Account>)
    requires Inv(w, fee) && Uses(w, used) && Undisturbed(w, DepositTokens(e, w, caller, amount).0)
    ensures Uses(DepositTokens(e, w, caller, amount).0, used)
  {
    var t := DepositTransfer(w, caller, amount);
    if Valid(w.me, t) {
      DepositEnters(w, fee, caller, amount);
      NewAttemptUses(e, w.(counter := w.counter + 1), t, fee, OwnListed(w, w.recovery), used);
    }
  }

  /** The interim account of a withdrawal made now. */
  function InterimFor(w: World, caller: Principal, amount: nat): Account {
    WithdrawTransfer(w, caller, amount).kind.interim
  }

  lemma WithdrawUses(e: Env, w: World, fee: nat, caller: Principal, amount: nat, used: set<Account>)
    requires Inv(w, fee) && Uses(w, used) && FreshWithdrawal(w, caller, amount)
    requires Undisturbed(w, Withdraw(e, w, caller, amount).0)
    ensures Uses(Withdraw(e, w, caller, amount).0, used + {InterimFor(w, caller, amount)})
  {
    var t, w' := WithdrawTransfer(w, caller, amount), Withdraw(e, w, caller, amount).0;
    if w' != w.(counter := w.counter + 1) {
      WithdrawRuns(e, w, caller, amount);
      WithdrawEnters(w, fee, caller, amount);
      var w1 := w.(counter := w.counter + 1, balances := Debit(w.balances, caller, amount).value);
      NewAttemptUses(e, w1, t, fee, OwnListed(w, w.recovery), used + {t.kind.interim});
    }
  }

  // ---------------------------------------------------------------- recovery

  lemma RecoverTxUses(e: Env, w: World, t: Transfer, fee: nat, live: set<Transfer>, used: set<Account>)
    requires Safe(w, fee, live) && t in live && Uses(w, used) && Undisturbed(w, RecoverTx(e, w, t).0)
    requires t.kind.DoubleStep? ==> t.kind.interim in used
    ensures Uses(RecoverTx(e, w, t).0, used)
  {
    var (w', r) := RecoverTx(e, w, t);
    LiveReady(w, fee, live, t);
    assert Good(w, fee, t);
    RecoverTxBudget(e, w, t);
    var rest := RecoverTxAccounted(e, w, t);
    if CanDeduplicate(w, t) {
      RecoveryOutcome(e, w, t, N_RETRIES);
      AttemptUses(w, t, w', r, rest.left, used);
    } else if DroppedOld(e, w, t) || FoundEmpty(e, w, t) {
    } else if IsFirstStep(t) {
      OldFirstUses(e, w, t, fee, live, used, rest);
    } else {
      OldSecondUses(e, w, t, fee, live, used, rest);
    }
  }

  lemma OldFirstUses(e: Env, w: World, t: Transfer, fee: nat, live: set<Transfer>, used: set<Account>, rest: Rest)
    requires Safe(w, fee, live) && t in live && Uses(w, used) && Undisturbed(w, RecoverTx(e, w, t).0)
    requires IsFirstStep(t) && t.kind.interim in used
    requires !CanDeduplicate(w, t) && !DroppedOld(e, w, t) && !FoundEmpty(e, w, t)
    requires var (w', r) := RecoverTx(e, w, t); Accounted(e, w, t, w', r, rest)
    ensures Uses(RecoverTx(e, w, t).0, used)
  {
    var (w', r) := RecoverTx(e, w, t);
    var w1 := Asked(e, w, t);
    AskedSafe(e, w, fee, live, t);
    CompleteBudget(e, w1, t, UNKNOWN_TX_ID, N_RETRIES);
    SteadySplits(w, w1, w');
    NextOutcome(e, w1, t, fee, live);
    assert Good(w, fee, t);
    AppendedUses(w1, StepAt(t, w1.clock), w', r, used);
    PushUses(w.recovery, rest.left, used);
  }

  lemma OldSecondUses(e: Env, w: World, t: Transfer, fee: nat, live: set<Transfer>, used: set<Account>, rest: Rest)
    requires Safe(w, fee, live) && t in live && Uses(w, used) && Undisturbed(w, RecoverTx(e, w, t).0)
    requires IsSecondStep(t) && t.kind.interim in used
    requires !CanDeduplicate(w, t) && !DroppedOld(e, w, t) && !FoundEmpty(e, w, t)
    requires var (w', r) := RecoverTx(e, w, t); Accounted(e, w, t, w', r, rest)
    ensures Uses(RecoverTx(e, w, t).0, used)
  {
    var (w', r) := RecoverTx(e, w, t);
    var w1 := Asked(e, w, t);
    var s := t.(createdAt := w1.clock);
    AskedSafe(e, w, fee, live, t);
    RenewedSafe(w1, t, fee, live);
    RecoveryBudget(e, w1, s, N_RETRIES);
    SteadySplits(w, w1, w');
    RecoveryOutcome(e, w1, s, N_RETRIES);
    AppendedUses(w1, s, w', r, used);
    PushUses(w.recovery, rest.left, used);
  }

  lemma {:induction false} ItemsUse(e: Env, w: World, items: seq<Transfer>, fee: nat, kept: set<Transfer>,
                                    used: set<Account>)
    requires UndisturbedItems(e, w, items) && NoRepeat(items) && InLoop(w, items, fee, kept) && Uses(w, used)
    requires forall t :: t in items ==> t.kind.DoubleStep? ==> t.kind.interim in used
    ensures Uses(RecoverItems(e, w, items).0, used)
    decreases |items|
  {
    if items != [] {
      var t, rest := items[0], items[1..];
      var w1 := RecoverItem(e, w, t).0;
      assert NoRepeat(rest) && t !in rest && items == [t] + rest;
      if t.token == w.config.principal {
        RecoverTxUses(e, w, t, fee, kept + OwnItems(w, items), used);
      } else {
        PushUses(w.recovery, Some(t), used);
      }
      var kept1, _ := ItemSafe(e, w, t, rest, fee, kept);
      ItemsUse(e, w1, rest, fee, kept1, used);
    }
  }

  lemma RecoverAllUses(e: Env, w: World, fee: nat, used: set<Account>)
    requires Inv(w, fee) && ValidOrder(e) && Uses(w, used)
    requires UndisturbedItems(e, w.(recovery := map[]), TakeAll(e, w))
    ensures Uses(RecoverAll(e, w).0, used)
  {
    TakesAll(e, w);
    LoopStarts(e, w, fee);
    ItemsUse(e, w.(recovery := map[]), TakeAll(e, w), fee, {}, used);
  }

  // ---------------------------------------------------------------- runs

  /** A withdrawal as its caller sees it. */
  datatype Slip = Slip(caller: Principal, amount: nat, time: nat)

  function InterimOfSlip(me: Principal, token: Principal, s: Slip): Account {
    Account(me, Interim(TransferId(Default, Account(s.caller, Default), s.amount, token, s.time)))
  }

  ghost function InterimsOf(me: Principal, token: Principal, slips: set<Slip>): set<Account> {
    set s | s in slips :: InterimOfSlip(me, token, s)
  }

  lemma SlipDecides(w: World, caller: Principal, amount: nat)
    ensures InterimFor(w, caller, amount) == InterimOfSlip(w.me, w.config.principal, Slip(caller, amount, w.clock))
  {
  }

  function AddSlip(slips: set<Slip>, w: World, op: Op): set<Slip> {
    match op
    case DoWithdraw(caller, amount) => slips + {Slip(caller, amount, w.clock)}
    case _ => slips
  }

  /** Nothing disturbs the operation, and a withdrawal has a new slip and is not to the minting account's owner. */
  ghost predicate Seen(e: Env, w: World, op: Op, slips: set<Slip>) {
    match op
    case Idle(_) => true
    case DoDeposit(_, _) => Undisturbed(w, Apply(e, w, op))
    case DoWithdraw(caller, amount) =>
      && Undisturbed(w, Apply(e, w, op)) && caller != w.config.mintingAccount.owner
      && Slip(caller, amount, w.clock) !in slips
    case DoRecover => UndisturbedItems(e, w.(recovery := map[]), TakeAll(e, w))
  }

  ghost predicate SeenRun(e: Env, w: World, ops: seq<Op>, slips: set<Slip>)
    decreases |ops|
  {
    ops != [] ==> Seen(e, w, ops[0], slips) && SeenRun(e, Apply(e, w, ops[0]), ops[1..], AddSlip(slips, w, ops[0]))
  }

  lemma FreshBySlip(w: World, caller: Principal, amount: nat, slips: set<Slip>)
    requires Uses(w, InterimsOf(w.me, w.config.principal, slips)) && Slip(caller, amount, w.clock) !in slips
    requires caller != w.config.mintingAccount.owner
    ensures FreshWithdrawal(w, caller, amount)
  {
    SlipDecides(w, caller, amount);
    var a := InterimFor(w, caller, amount);
    assert a !in InterimsOf(w.me, w.config.principal, slips) && a.sub.Interim?;
  }

  lemma StepUses(e: Env, w: World, fee: nat, op: Op, slips: set<Slip>)
    requires Inv(w, fee) && ValidOrder(e) && Seen(e, w, op, slips)
    requires Uses(w, InterimsOf(w.me, w.config.principal, slips))
    ensures Legal(e, w, op)
    ensures var w' := Apply(e, w, op);
            && w'.me == w.me && w'.config.principal == w.config.principal
            && Uses(w', InterimsOf(w.me, w.config.principal, AddSlip(slips, w, op)))
  {
    var used := InterimsOf(w.me, w.config.principal, slips);
    match op {
      case Idle(_) =>
      case DoDeposit(caller, amount) =>
        DepositUses(e, w, fee, caller, amount, used);
        TransferBudget(e, w.(counter := w.counter + 1), DepositTransfer(w, caller, amount), N_RETRIES);
      case DoWithdraw(caller, amount) =>
        FreshBySlip(w, caller, amount, slips);
        WithdrawUses(e, w, fee, caller, amount, used);
        WithdrawKeepsName(e, w, caller, amount);
        SlipDecides(w, caller, amount);
        assert used + {InterimFor(w, caller, amount)} == InterimsOf(w.me, w.config.principal, AddSlip(slips, w, op));
      case DoRecover =>
        RecoverAllUses(e, w, fee, used);
        LoopKeepsName(e, w.(recovery := map[]), TakeAll(e, w));
    }
  }

  lemma WithdrawKeepsName(e: Env, w: World, caller: Principal, amount: nat)
    ensures var w' := Withdraw(e, w, caller, amount).0; w'.me == w.me && w'.config.principal == w.config.principal
  {
    if Withdraw(e, w, caller, amount).0 != w.(counter := w.counter + 1) {
      WithdrawRuns(e, w, caller, amount);
      var w1 := w.(counter := w.counter + 1, balances := Debit(w.balances, caller, amount).value);
      TransferBudget(e, w1, WithdrawTransfer(w, caller, amount), N_RETRIES);
    }
  }

  lemma {:induction false} LoopKeepsName(e: Env, w: World, items: seq<Transfer>)
    ensures var w' := RecoverItems(e, w, items).0; w'.me == w.me && w'.config.principal == w.config.principal
    decreases |items|
  {
    if items != [] {
      RecoverTxBudget(e, w, items[0]);
      LoopKeepsName(e, RecoverItem(e, w, items[0]).0, items[1..]);
    }
  }

  lemma {:induction false} SeenRunLegal(e: Env, w: World, fee: nat, ops: seq<Op>, slips: set<Slip>)
    requires Inv(w, fee) && ValidOrder(e) && SeenRun(e, w, ops, slips)
    requires Uses(w, InterimsOf(w.me, w.config.principal, slips))
    ensures LegalRun(e, w, ops)
    decreases |ops|
  {
    if ops != [] {
      StepUses(e, w, fee, ops[0], slips);
      StepInv(e, w, fee, ops[0]);
      SeenRunLegal(e, Apply(e, w, ops[0]), fee, ops[1..], AddSlip(slips, w, ops[0]));
    }
  }

  /** Solvency at every moment of every run from genesis, with hypotheses on what a caller sees only. */
  lemma AlwaysSolventSeen(e: Env, w: World, ops: seq<Op>)
    requires Genesis(w) && w.log == [] && w.calls == 0
    requires BalanceTotal(w.balances) <= Funds(w.ledger, Main(w.me))
    requires ValidOrder(e) && SeenRun(e, w, ops, {})
    ensures var w' := Run(e, w, ops);
            && BalanceTotal(w'.balances) <= Funds(w'.ledger, Main(w'.me))
            && |w'.log| == w'.calls && forall m :: m in w'.log ==> Solvent(w.me, m)
  {
    assert OwnListed(w, w.recovery) == {};
    assert Inv(w, w.config.fee);
    SeenRunLegal(e, w, w.config.fee, ops, {});
    AlwaysSolvent(e, w, ops);
    SolventRun(e, w, w.config.fee, ops);
  }
}
