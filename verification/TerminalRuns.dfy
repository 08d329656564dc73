/** Whole runs of the terminal.

    Hypotheses, each checkable from outside: an operation receives no `BadFee` reply and returns within
    the five-minute margin the terminal reserves (`Undisturbed`), nobody's account is the minting
    account, and a withdrawal's interim account has not been used (`FreshWithdrawal`: the identifier
    hash does not repeat).  Replies, lost executions, failing
    balance queries, gifts to any account and the listing order are arbitrary. */
module TerminalRuns {
  import opened Wrappers
  import opened PaymentErrors
  import opened Transfers
  import opened Ledgers
  import opened Terminal
  import opened TerminalBudget
  import opened TerminalOutcome
  import opened TerminalSolvency

  ghost predicate Keyed(list: RecoveryList) {
    forall id :: id in list ==> IdOf(list[id]) == id
  }

  ghost predicate NoRepeat<T(!new)>(s: seq<T>) {
    forall i, j :: 0 <= i < j < |s| ==> s[i] != s[j]
  }

  /** The stable map lists every key once. */
  ghost predicate ValidOrder(e: Env) {
    forall ids :: NoRepeat(e.order(ids)) && (forall id :: id in ids <==> id in e.order(ids))
  }

  ghost predicate Undisturbed(w: World, w': World) {
    w'.clock <= w.clock + TX_WINDOW && Steady(w, w')
  }

  ghost function OwnListed(w: World, list: RecoveryList): set<Transfer> {
    set t | t in list.Values && t.token == w.config.principal
  }

  ghost function OwnItems(w: World, items: seq<Transfer>): set<Transfer> {
    set t | t in items && t.token == w.config.principal
  }

  ghost predicate Inv(w: World, fee: nat) {
    Keyed(w.recovery) && Safe(w, fee, OwnListed(w, w.recovery))
  }

  lemma LiveReady(w: World, fee: nat, live: set<Transfer>, t: Transfer)
    requires Safe(w, fee, live) && t in live
    ensures Ready(w, t)
  {
    assert Good(w, fee, t) && InterimSafe(w, t);
  }

  // ---------------------------------------------------------------- recovery

  lemma AskedSafe(e: Env, w: World, fee: nat, live: set<Transfer>, t: Transfer)
    requires Safe(w, fee, live) && t.kind.DoubleStep?
    ensures Safe(Asked(e, w, t), fee, live) && Within(w, Asked(e, w, t), 0)
  {
    QueriesWithin(e, w, t.kind.interim, 0);
    MoveOn(w, Asked(e, w, t), fee, live);
  }

  /** `t` has been taken out of the live transfers and `left` put back, on the list and in the books. */
  ghost predicate Handled(w: World, t: Transfer, w': World, fee: nat, live: set<Transfer>, left: Option<Transfer>) {
    && Leaves(w, t, w', left) && w'.config == w.config && w'.me == w.me
    && (left.Some? ==> left.value !in live - {t})
    && Safe(w', fee, live - {t} + Optional(left))
  }

  lemma RecoverTxSafe(e: Env, w: World, t: Transfer, fee: nat, live: set<Transfer>) returns (left: Option<Transfer>)
    requires Safe(w, fee, live) && t in live
    requires Undisturbed(w, RecoverTx(e, w, t).0)
    ensures Handled(w, t, RecoverTx(e, w, t).0, fee, live, left)
  {
    var (w', r) := RecoverTx(e, w, t);
    LiveReady(w, fee, live, t);
    if CanDeduplicate(w, t) {
      RecoveryBudget(e, w, t, N_RETRIES);
      RecoveryOutcome(e, w, t, N_RETRIES);
      left := AttemptSafe(w, t, w', r, fee, live);
    } else if t.kind.SingleStep? {
      left := None;
      Drop(w, fee, live, live - {t} + {});
    } else {
      left := RecoverDoubleSafe(e, w, t, fee, live);
    }
  }

  lemma RecoverDoubleSafe(e: Env, w: World, t: Transfer, fee: nat, live: set<Transfer>) returns (left: Option<Transfer>)
    requires Safe(w, fee, live) && t in live
    requires t.kind.DoubleStep? && !CanDeduplicate(w, t)
    requires Undisturbed(w, RecoverTx(e, w, t).0)
    ensures Handled(w, t, RecoverTx(e, w, t).0, fee, live, left)
  {
    var w1 := Asked(e, w, t);
    AskedSafe(e, w, fee, live, t);
    LiveReady(w1, fee, live, t);
    assert Good(w, fee, t) && InterimSafe(w1, t);
    var balance := Funds(w1.ledger, t.kind.interim);
    if QueryFailure(e.answers(w.calls)).Some? {
      left := None;
      Drop(w1, fee, live, live - {t} + {});
    } else if IsFirstStep(t) && balance == 0 {
      var (w', r) := RecoverTx(e, w, t);
      left := AttemptSafe(w1, t, w', r, fee, live);
    } else if IsFirstStep(t) {
      CompleteBudget(e, w1, t, UNKNOWN_TX_ID, N_RETRIES);
      SteadySplits(w, w1, RecoverTx(e, w, t).0);
      left := ProceedSafe(e, w1, t, fee, live);
    } else if balance == 0 {
      left := None;
      Drop(w1, fee, live, live - {t} + {});
    } else {
      RecoveryBudget(e, w1, t.(createdAt := w1.clock), N_RETRIES);
      SteadySplits(w, w1, RecoverTx(e, w, t).0);
      left := RenewSafe(e, w1, t, fee, live);
    }
  }

  /** The second step of an old first step whose interim account holds tokens, its own or a gift. */
  lemma NextSafe(w: World, t: Transfer, fee: nat, live: set<Transfer>)
    requires Safe(w, fee, live) && t in live && IsFirstStep(t) && Funds(w.ledger, t.kind.interim) > 0
    ensures var s := StepAt(t, w.clock);
            && Safe(w, fee, live - {t} + {s}) && s !in live - {t}
            && Valid(w.me, s) && RequestOf(w.me, s) !in w.ledger.blocks && Ready(w, s)
  {
    assert Good(w, fee, t) && InterimSafe(w, t);
    var s := StepAt(t, w.clock);
    SecondStepAgrees(w.me, t, w.clock);
    assert RequestOf(w.me, s).from == t.kind.interim;
    Replace(w, fee, live, t, s);
  }

  /** Its attempt ends in one of the three ways, from the world in which it was created. */
  lemma NextOutcome(e: Env, w: World, t: Transfer, fee: nat, live: set<Transfer>)
    requires Safe(w, fee, live) && t in live && IsFirstStep(t) && Funds(w.ledger, t.kind.interim) > 0
    requires Undisturbed(w, Complete(e, w, t, UNKNOWN_TX_ID, N_RETRIES).0)
    ensures var s := StepAt(t, w.clock);
            var (w', r) := Complete(e, w, t, UNKNOWN_TX_ID, N_RETRIES);
            ThreeWays(w, s, w', r) && Within(w, w', N_RETRIES)
  {
    var s := StepAt(t, w.clock);
    NextSafe(w, t, fee, live);
    TransferBudget(e, w, s, N_RETRIES);
    TransferOutcome(e, w, s, N_RETRIES);
  }

  /** An old first step whose interim account holds tokens goes on with its second step, whether the
      tokens came from the first step or from somebody else. */
  lemma ProceedSafe(e: Env, w: World, t: Transfer, fee: nat, live: set<Transfer>) returns (left: Option<Transfer>)
    requires Safe(w, fee, live) && t in live && IsFirstStep(t)
    requires Funds(w.ledger, t.kind.interim) > 0
    requires Undisturbed(w, Complete(e, w, t, UNKNOWN_TX_ID, N_RETRIES).0)
    ensures Handled(w, t, Complete(e, w, t, UNKNOWN_TX_ID, N_RETRIES).0, fee, live, left)
  {
    var s := StepAt(t, w.clock);
    NextSafe(w, t, fee, live);
    NextOutcome(e, w, t, fee, live);
    var (w', r) := Complete(e, w, t, UNKNOWN_TX_ID, N_RETRIES);
    left := AttemptSafe(w, s, w', r, fee, live - {t} + {s});
    assert live - {t} + {s} - {s} == live - {t};
  }

  lemma RenewedSafe(w: World, t: Transfer, fee: nat, live: set<Transfer>)
    requires Safe(w, fee, live) && t in live && IsSecondStep(t) && Funds(w.ledger, t.kind.interim) > 0
    ensures Good(w, fee, t.(createdAt := w.clock)) && InterimSafe(w, t.(createdAt := w.clock))
  {
    assert Good(w, fee, t) && InterimSafe(w, t);
    AcceptedIffPayable(w.me, t);
    AcceptedIffPayable(w.me, t.(createdAt := w.clock));
  }

  lemma RenewSafe(e: Env, w: World, t: Transfer, fee: nat, live: set<Transfer>) returns (left: Option<Transfer>)
    requires Safe(w, fee, live) && t in live && IsSecondStep(t)
    requires Funds(w.ledger, t.kind.interim) > 0
    requires Undisturbed(w, ExecuteRecoveryTransfer(e, w, t.(createdAt := w.clock), N_RETRIES).0)
    ensures Handled(w, t, ExecuteRecoveryTransfer(e, w, t.(createdAt := w.clock), N_RETRIES).0, fee, live, left)
  {
    var s := t.(createdAt := w.clock);
    RenewedSafe(w, t, fee, live);
    Replace(w, fee, live, t, s);
    var (w', r) := ExecuteRecoveryTransfer(e, w, s, N_RETRIES);
    RecoveryBudget(e, w, s, N_RETRIES);
    RecoveryOutcome(e, w, s, N_RETRIES);
    left := AttemptSafe(w, s, w', r, fee, live - {t} + {s});
    assert live - {t} + {s} - {s} == live - {t};
  }

  ghost predicate UndisturbedItems(e: Env, w: World, items: seq<Transfer>)
    decreases |items|
  {
    items != [] ==>
      && Undisturbed(w, RecoverItem(e, w, items[0]).0)
      && UndisturbedItems(e, RecoverItem(e, w, items[0]).0, items[1..])
  }

  lemma {:induction false} ItemsSafe(e: Env, w: World, items: seq<Transfer>, fee: nat, kept: set<Transfer>)
    returns (kept': set<Transfer>)
    requires UndisturbedItems(e, w, items) && NoRepeat(items)
    requires InLoop(w, items, fee, kept)
    ensures var w' := RecoverItems(e, w, items).0;
            w'.config == w.config && w'.me == w.me && InLoop(w', [], fee, kept')
    decreases |items|
  {
    if items == [] {
      kept' := kept;
    } else {
      var rest := items[1..];
      assert NoRepeat(rest) && items[0] !in rest;
      assert items == [items[0]] + rest;
      var kept1, _ := ItemSafe(e, w, items[0], rest, fee, kept);
      kept' := ItemsSafe(e, RecoverItem(e, w, items[0]).0, rest, fee, kept1);
    }
  }

  /** Between two iterations of the loop: the transfers already dealt with cover the list, and they
      and the ones still to come are in the books. */
  ghost predicate InLoop(w: World, items: seq<Transfer>, fee: nat, kept: set<Transfer>) {
    && Keyed(w.recovery) && OwnListed(w, w.recovery) <= kept
    && kept !! OwnItems(w, items)
    && Safe(w, fee, kept + OwnItems(w, items))
  }

  lemma OwnItemSafe(e: Env, w: World, t: Transfer, rest: seq<Transfer>, fee: nat, kept: set<Transfer>)
    returns (left: Option<Transfer>)
    requires t.token == w.config.principal && Undisturbed(w, RecoverTx(e, w, t).0)
    requires InLoop(w, [t] + rest, fee, kept) && t !in rest
    ensures var w1 := RecoverTx(e, w, t).0;
            && w1.config == w.config && w1.me == w.me && InLoop(w1, rest, fee, kept + Optional(left))
            && Leaves(w, t, w1, left) && kept !! Optional(left)
  {
    var w1 := RecoverTx(e, w, t).0;
    var live := kept + OwnItems(w, [t] + rest);
    assert forall u :: u in [t] + rest <==> u == t || u in rest;
    left := RecoverTxSafe(e, w, t, fee, live);
    assert live - {t} == kept + OwnItems(w, rest);
    assert kept + Optional(left) + OwnItems(w1, rest) == live - {t} + Optional(left);
  }

  lemma ForeignItemSafe(w: World, t: Transfer, rest: seq<Transfer>, fee: nat, kept: set<Transfer>)
    requires t.token != w.config.principal && InLoop(w, [t] + rest, fee, kept)
    ensures InLoop(w.(recovery := Push(w.recovery, t)), rest, fee, kept)
  {
    assert forall u :: u in [t] + rest <==> u == t || u in rest;
    assert OwnItems(w, rest) == OwnItems(w, [t] + rest);
    MoveOn(w, w.(recovery := Push(w.recovery, t)), fee, kept + OwnItems(w, rest));
  }

  /** One round: what it leaves on the list is new, and takes the place of the transfer in the books. */
  lemma ItemSafe(e: Env, w: World, t: Transfer, rest: seq<Transfer>, fee: nat, kept: set<Transfer>)
    returns (kept1: set<Transfer>, left: Option<Transfer>)
    requires Undisturbed(w, RecoverItem(e, w, t).0)
    requires InLoop(w, [t] + rest, fee, kept) && t !in rest
    ensures var w1 := RecoverItem(e, w, t).0;
            && w1.config == w.config && w1.me == w.me && InLoop(w1, rest, fee, kept1)
            && Leaves(w, t, w1, left)
            && (t.token != w.config.principal ==> kept1 == kept && left == Some(t))
            && (t.token == w.config.principal ==> kept1 == kept + Optional(left) && kept !! Optional(left))
  {
    if t.token == w.config.principal {
      left := OwnItemSafe(e, w, t, rest, fee, kept);
      kept1 := kept + Optional(left);
    } else {
      ForeignItemSafe(w, t, rest, fee, kept);
      kept1, left := kept, Some(t);
    }
  }

  lemma {:induction false} ListingFrom(list: RecoveryList, keys: seq<TransferId>)
    requires Keyed(list) && NoRepeat(keys)
    ensures NoRepeat(Listing(list, keys))
    ensures forall t :: t in Listing(list, keys) <==> t in list.Values && IdOf(t) in keys
    decreases |keys|
  {
    if keys != [] {
      var rest := keys[1..];
      ListingFrom(list, rest);
      assert keys[0] !in rest && keys == [keys[0]] + rest;
      var tail := Listing(list, rest);
      if keys[0] in list {
        assert Listing(list, keys) == [list[keys[0]]] + tail;
        assert list[keys[0]] !in tail;
      } else {
        assert Listing(list, keys) == tail;
      }
    }
  }

  /** `take_all` hands out exactly the listed transfers, each once. */
  lemma TakesAll(e: Env, w: World)
    requires ValidOrder(e) && Keyed(w.recovery)
    ensures NoRepeat(TakeAll(e, w))
    ensures forall t :: t in TakeAll(e, w) <==> t in w.recovery.Values
  {
    ListingFrom(w.recovery, e.order(w.recovery.Keys));
  }

  lemma LoopStarts(e: Env, w: World, fee: nat)
    requires Inv(w, fee) && ValidOrder(e)
    ensures NoRepeat(TakeAll(e, w)) && InLoop(w.(recovery := map[]), TakeAll(e, w), fee, {})
  {
    TakesAll(e, w);
    var w0, items := w.(recovery := map[]), TakeAll(e, w);
    assert OwnItems(w0, items) == OwnListed(w, w.recovery);
    assert {} + OwnItems(w0, items) == OwnListed(w, w.recovery);
    MoveOn(w, w0, fee, OwnListed(w, w.recovery));
    assert OwnListed(w0, w0.recovery) == {};
  }

  lemma RecoverAllSafe(e: Env, w: World, fee: nat)
    requires Inv(w, fee) && ValidOrder(e)
    requires UndisturbedItems(e, w.(recovery := map[]), TakeAll(e, w))
    ensures Inv(RecoverAll(e, w).0, fee)
  {
    var w0, items := w.(recovery := map[]), TakeAll(e, w);
    LoopStarts(e, w, fee);
    var kept := ItemsSafe(e, w0, items, fee, {});
    var w' := RecoverAll(e, w).0;
    Drop(w', fee, kept + OwnItems(w', []), OwnListed(w', w'.recovery));
  }

  // ---------------------------------------------------------------- deposit and withdraw

  /** A new transfer enters the books; the money it may be refunded has been set aside. */
  lemma Enters(w: World, w1: World, fee: nat, live: set<Transfer>, t: Transfer)
    requires Safe(w, fee, live) && Good(w1, fee, t) && t.memo == Some(w.counter)
    requires w1 == w.(counter := w.counter + 1, balances := w1.balances)
    requires BalanceTotal(w1.balances) + (if t.operation == CreditOnError then t.amount else 0)
             <= BalanceTotal(w.balances)
    requires IsFirstStep(t) || t.kind.SingleStep?
    requires InterimUnused(w.me, t, w.ledger.blocks)
    requires t.kind.DoubleStep? ==> forall r :: r in w.ledger.blocks ==> r.to != t.kind.interim
    requires forall u :: u in live ==> !SharesInterim(u, t)
    ensures Safe(w1, fee, live + {t}) && t !in live && RequestOf(w.me, t) !in w.ledger.blocks
  {
    forall u | u in live ensures Good(w1, fee, u) && InterimSafe(w1, u) && u.memo != t.memo {
      assert Good(w, fee, u) && InterimSafe(w, u);
    }
    assert RequestOf(w.me, t) !in w.ledger.blocks;
    assert LiveOk(w1, fee, live);
    if t.kind.DoubleStep? {
      Untouched(w.ledger.blocks, t.kind.interim);
    }
    AddLive(w1, fee, live, t);
    TotalAdd(w.me, live, w.ledger.blocks, t);
  }

  lemma {:induction false} Untouched(blocks: seq<Request>, a: Account)
    requires forall r :: r in blocks ==> r.from != a && r.to != a
    ensures Net(blocks, a) == 0
    decreases |blocks|
  {
    if blocks != [] {
      Untouched(blocks[..|blocks| - 1], a);
    }
  }

  lemma AttemptInv(e: Env, w: World, t: Transfer, fee: nat, live: set<Transfer>)
    requires Safe(w, fee, live + {t}) && t !in live && Keyed(w.recovery)
    requires OwnListed(w, w.recovery) <= live
    requires RequestOf(w.me, t) !in w.ledger.blocks
    requires t.createdAt == w.clock && Undisturbed(w, RunTransfer(e, w, t, N_RETRIES).0)
    ensures Inv(RunTransfer(e, w, t, N_RETRIES).0, fee)
  {
    var (w', r) := RunTransfer(e, w, t, N_RETRIES);
    LiveReady(w, fee, live + {t}, t);
    TransferBudget(e, w, t, N_RETRIES);
    TransferOutcome(e, w, t, N_RETRIES);
    var left := AttemptSafe(w, t, w', r, fee, live + {t});
    assert live + {t} - {t} == live;
    assert OwnListed(w', w'.recovery) <= live + Optional(left);
    Drop(w', fee, live + Optional(left), OwnListed(w', w'.recovery));
  }

  lemma CounterBump(w: World, fee: nat)
    requires Inv(w, fee)
    ensures Inv(w.(counter := w.counter + 1), fee)
  {
    var w1 := w.(counter := w.counter + 1);
    var live := OwnListed(w, w.recovery);
    forall u | u in live ensures Good(w1, fee, u) && InterimSafe(w1, u) {
      assert Good(w, fee, u) && InterimSafe(w, u);
    }
    assert OwnListed(w1, w1.recovery) == live;
  }

  lemma DepositEnters(w: World, fee: nat, caller: Principal, amount: nat)
    requires Inv(w, fee) && Valid(w.me, DepositTransfer(w, caller, amount))
    ensures var t := DepositTransfer(w, caller, amount);
            var live := OwnListed(w, w.recovery);
            && Safe(w.(counter := w.counter + 1), fee, live + {t}) && t !in live
            && RequestOf(w.me, t) !in w.ledger.blocks
  {
    var t := DepositTransfer(w, caller, amount);
    var w1 := w.(counter := w.counter + 1);
    AcceptedIffPayable(w.me, t);
    assert Good(w1, fee, t);
    Enters(w, w1, fee, OwnListed(w, w.recovery), t);
  }

  lemma DepositInv(e: Env, w: World, fee: nat, caller: Principal, amount: nat)
    requires Inv(w, fee)
    requires Undisturbed(w, DepositTokens(e, w, caller, amount).0)
    ensures Inv(DepositTokens(e, w, caller, amount).0, fee)
  {
    var t := DepositTransfer(w, caller, amount);
    var w1 := w.(counter := w.counter + 1);
    CounterBump(w, fee);
    if Valid(w.me, t) {
      DepositEnters(w, fee, caller, amount);
      AttemptInv(e, w1, t, fee, OwnListed(w, w.recovery));
    }
  }

  ghost predicate FreshWithdrawal(w: World, caller: Principal, amount: nat) {
    var interim := WithdrawTransfer(w, caller, amount).kind.interim;
    && caller != w.config.mintingAccount.owner
    && (forall r :: r in w.ledger.blocks ==> r.from != interim && r.to != interim)
    && (forall u :: u in w.recovery.Values && u.kind.DoubleStep? ==> u.kind.interim != interim)
  }

  lemma WithdrawEnters(w: World, fee: nat, caller: Principal, amount: nat)
    requires Inv(w, fee) && FreshWithdrawal(w, caller, amount)
    requires Valid(w.me, WithdrawTransfer(w, caller, amount)) && Debit(w.balances, caller, amount).Some?
    ensures var t := WithdrawTransfer(w, caller, amount);
            var live := OwnListed(w, w.recovery);
            && Safe(w.(counter := w.counter + 1, balances := Debit(w.balances, caller, amount).value), fee, live + {t})
            && t !in live && RequestOf(w.me, t) !in w.ledger.blocks
  {
    var t := WithdrawTransfer(w, caller, amount);
    var w2 := w.(counter := w.counter + 1, balances := Debit(w.balances, caller, amount).value);
    AcceptedIffPayable(w.me, t);
    var plain := NewTransfer(w.config, w.me, caller, Account(caller, Default), Default, amount, w.clock);
    InterimAccountsDistinct(w.me, plain, plain);
    BalanceUpdate(w.balances, caller, BalanceOf(w.balances, caller) - amount);
    assert Good(w2, fee, t);
    Enters(w, w2, fee, OwnListed(w, w.recovery), t);
  }

  /** A withdrawal that does anything is a valid transfer of debited tokens. */
  lemma WithdrawRuns(e: Env, w: World, caller: Principal, amount: nat)
    requires Withdraw(e, w, caller, amount).0 != w.(counter := w.counter + 1)
    ensures var t, debited := WithdrawTransfer(w, caller, amount), Debit(w.balances, caller, amount);
            && Valid(w.me, t) && debited.Some?
            && Withdraw(e, w, caller, amount).0 ==
               RunTransfer(e, w.(counter := w.counter + 1, balances := debited.value), t, N_RETRIES).0
  {
  }

  lemma WithdrawInv(e: Env, w: World, fee: nat, caller: Principal, amount: nat)
    requires Inv(w, fee) && FreshWithdrawal(w, caller, amount)
    requires Undisturbed(w, Withdraw(e, w, caller, amount).0)
    ensures Inv(Withdraw(e, w, caller, amount).0, fee)
  {
    CounterBump(w, fee);
    var (w', r) := Withdraw(e, w, caller, amount);
    if w' != w.(counter := w.counter + 1) {
      WithdrawRuns(e, w, caller, amount);
      WithdrawEnters(w, fee, caller, amount);
      var w1 := w.(counter := w.counter + 1, balances := Debit(w.balances, caller, amount).value);
      AttemptInv(e, w1, WithdrawTransfer(w, caller, amount), fee, OwnListed(w, w.recovery));
    }
  }

  // ---------------------------------------------------------------- runs

  datatype Op =
    | Idle(duration: nat)
    | DoDeposit(caller: Principal, amount: nat)
    | DoWithdraw(caller: Principal, amount: nat)
    | DoRecover

  function Apply(e: Env, w: World, op: Op): World {
    match op
    case Idle(d) => w.(clock := w.clock + d)
    case DoDeposit(caller, amount) => DepositTokens(e, w, caller, amount).0
    case DoWithdraw(caller, amount) => Withdraw(e, w, caller, amount).0
    case DoRecover => RecoverAll(e, w).0
  }

  function Run(e: Env, w: World, ops: seq<Op>): World
    decreases |ops|
  {
    if ops == [] then w else Run(e, Apply(e, w, ops[0]), ops[1..])
  }

  ghost predicate Legal(e: Env, w: World, op: Op) {
    match op
    case Idle(_) => true
    case DoDeposit(_, _) => Undisturbed(w, Apply(e, w, op))
    case DoWithdraw(caller, amount) => FreshWithdrawal(w, caller, amount) && Undisturbed(w, Apply(e, w, op))
    case DoRecover => UndisturbedItems(e, w.(recovery := map[]), TakeAll(e, w))
  }

  ghost predicate LegalRun(e: Env, w: World, ops: seq<Op>)
    decreases |ops|
  {
    ops != [] ==> Legal(e, w, ops[0]) && LegalRun(e, Apply(e, w, ops[0]), ops[1..])
  }

  lemma StepInv(e: Env, w: World, fee: nat, op: Op)
    requires Inv(w, fee) && ValidOrder(e) && Legal(e, w, op)
    ensures Inv(Apply(e, w, op), fee)
  {
    match op {
      case Idle(d) => MoveOn(w, Apply(e, w, op), fee, OwnListed(w, w.recovery));
      case DoDeposit(caller, amount) => DepositInv(e, w, fee, caller, amount);
      case DoWithdraw(caller, amount) => WithdrawInv(e, w, fee, caller, amount);
      case DoRecover => RecoverAllSafe(e, w, fee);
    }
  }

  /** A canister that starts with an empty list, no request sent and its balances covered. */
  predicate Genesis(w: World) {
    w.recovery == map[] && w.ledger.blocks == [] && w.config.mintingAccount.owner != w.me
  }

  /** The main account never falls below the sum of the user balances, in any run. */
  lemma {:induction false} SolventRun(e: Env, w: World, fee: nat, ops: seq<Op>)
    requires Inv(w, fee) && ValidOrder(e) && LegalRun(e, w, ops)
    ensures Inv(Run(e, w, ops), fee)
    ensures var w' := Run(e, w, ops); BalanceTotal(w'.balances) <= Funds(w'.ledger, Main(w'.me))
    decreases |ops|
  {
    if ops != [] {
      StepInv(e, w, fee, ops[0]);
      SolventRun(e, Apply(e, w, ops[0]), fee, ops[1..]);
    }
  }

  /** From genesis, every run is solvent at its end, and so at the end of each of its prefixes. */
  lemma SolventFromGenesis(e: Env, w: World, ops: seq<Op>)
    requires Genesis(w) && BalanceTotal(w.balances) <= Funds(w.ledger, Main(w.me))
    requires ValidOrder(e) && LegalRun(e, w, ops)
    ensures var w' := Run(e, w, ops); BalanceTotal(w'.balances) <= Funds(w'.ledger, Main(w'.me))
  {
    assert OwnListed(w, w.recovery) == {};
    assert Inv(w, w.config.fee);
    SolventRun(e, w, w.config.fee, ops);
  }

  // ---------------------------------------------------------------- recovery decides rightly

  /** In every reachable world, an old listed transfer whose interim account received nothing from
      anybody else shows there whether its current step was executed: so an old first step is refunded
      exactly if it was never executed and otherwise carried on, and an old second step completes
      exactly if it was executed and is otherwise renewed. */
  lemma OldRecoveryRight(e: Env, w: World, fee: nat, t: Transfer)
    requires Inv(w, fee) && t in OwnListed(w, w.recovery) && t.kind.DoubleStep?
    requires !CanDeduplicate(w, t) && QueryFailure(e.answers(w.calls)).None?
    requires Slack(Asked(e, w, t).ledger, t.kind.interim) == 0
    requires RecoverTx(e, w, t).0.clock < w.clock + DEDUP_PERIOD && Steady(w, RecoverTx(e, w, t).0)
    ensures var (w', r) := RecoverTx(e, w, t);
            var w1 := Asked(e, w, t);
            var executed := RequestOf(w.me, t) in w.ledger.blocks;
            if IsFirstStep(t) then
              && ThreeWays(w, t, w', r)
              && (r.Err? && r.error.PaymentFailed? <==> !executed)
            else if executed then w' == w1 && r == Ok(UNKNOWN_TX_ID)
            else ThreeWays(w1, t.(createdAt := w1.clock), w', r)
  {
    var live := OwnListed(w, w.recovery);
    var w1 := Asked(e, w, t);
    AskedSafe(e, w, fee, live, t);
    LiveReady(w, fee, live, t);
    assert Good(w1, fee, t) && InterimSafe(w1, t);
    AcceptedIffPayable(w.me, t);
    if IsFirstStep(t) {
      OldFirstStepOutcome(e, w, t);
    } else {
      OldSecondStepOutcome(e, w, t);
    }
  }
}
