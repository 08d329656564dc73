/** What the operations of the terminal do, told by the amounts, accounts and ages their callers know and by the
    replies of the ledger.  Single operations need no hypotheses. */
module TerminalCallers {
  import opened Wrappers
  import opened PaymentErrors
  import opened Transfers
  import opened Ledgers
  import opened Terminal
  import opened TerminalSolvency
  import opened TerminalRuns
  import opened TerminalRecovery
  import opened TerminalRecoverAll
  import opened TerminalBudget
  import opened TerminalRepricing
  import opened TerminalReplies

  ghost predicate Attempted(e: Env, w: World, t: Transfer, n: nat, initial: bool, w': World, r: Outcome) {
    exists w1, k :: Tried(w, t, n, initial, w1, k) && Concludes(e, t, n, initial, w1, k, w', r)
  }

  lemma ValidAttempted(e: Env, w: World, t: Transfer, n: nat)
    requires Account(w.me, t.from) != t.to && t.amount > (if IsFirstStep(t) then t.fee + t.fee else t.fee)
    ensures var (w', r) := RunTransfer(e, w, t, n); Attempted(e, w, t, n, true, w', r)
  {
    AcceptedIffPayable(w.me, t);
    var w1, k := AttemptByReplies(e, w, t, n, true);
    assert RunTransfer(e, w, t, n) == Attempt(e, w, t, n, true);
  }

  function BalanceIn(w: World, p: Principal): nat {
    if p in w.balances then w.balances[p] else 0
  }

  // ---------------------------------------------------------------- deposit

  /** The deposit account of a caller. */
  function DepositAccount(me: Principal, caller: Principal): Account {
    Account(me, if caller == 0 then Default else OfPrincipal(caller))
  }

  function DepositOf(w: World, caller: Principal, amount: nat): Transfer {
    var from, to := DepositAccount(w.me, caller), Account(w.me, Default);
    Transfer(w.config.principal, caller, from.sub, to, amount,
             if w.config.mintingAccount in {from, to} then 0 else w.config.fee,
             CreditOnSuccess, SingleStep, w.clock, Some(w.counter))
  }

  /** Deposits of different callers are drawn from different accounts. */
  lemma DepositAccountsApart(w: World, w': World, caller: Principal, other: Principal, amount: nat, amount': nat)
    requires w'.me == w.me
    ensures RequestOf(w.me, DepositTransfer(w, caller, amount)).from == DepositAccount(w.me, caller)
    ensures (RequestOf(w.me, DepositTransfer(w, caller, amount)).from ==
             RequestOf(w.me, DepositTransfer(w', other, amount')).from) <==> caller == other
  {
  }

  /** A deposit that is too small or of the management canister is refused without a call; any other is tried
      three times from the caller's deposit account. */
  lemma DepositByReplies(e: Env, w: World, caller: Principal, amount: nat)
    ensures var (w', r) := DepositTokens(e, w, caller, amount);
            var t, w0 := DepositOf(w, caller, amount), w.(counter := w.counter + 1);
            if amount <= t.fee then w' == w0 && r == Err(ParametersRejected(AmountTooSmall(t.fee + 1, amount)))
            else if caller == 0 then w' == w0 && r == Err(ParametersRejected(TargetAccountInvalid))
            else exists r0 :: Attempted(e, w0, t, 3, true, w', r0) &&
                   r == match r0 case Ok(tx) => Ok((tx, amount - t.fee)) case Err(err) => Err(err)
  {
    var t, w0 := DepositOf(w, caller, amount), w.(counter := w.counter + 1);
    assert DepositTransfer(w, caller, amount) == t;
    if amount > t.fee && caller != 0 {
      ValidAttempted(e, w0, t, 3);
      assert DepositTokens(e, w, caller, amount).0 == RunTransfer(e, w0, t, 3).0;
    }
  }

  // ---------------------------------------------------------------- withdraw

  function WithdrawalOf(w: World, caller: Principal, amount: nat): Transfer {
    var from, to := Account(w.me, Default), Account(caller, Default);
    var interim := Account(w.me, Interim(TransferId(Default, to, amount, w.config.principal, w.clock)));
    Transfer(w.config.principal, caller, Default, to, amount,
             if w.config.mintingAccount in {from, to} then 0 else w.config.fee,
             CreditOnError, DoubleStep(First, interim), w.clock, Some(w.counter))
  }

  /** `amount` has been taken from the balance of `p`. */
  ghost predicate Taken(w: World, w': World, p: Principal, amount: nat) {
    && w' == w.(balances := w'.balances)
    && forall q :: BalanceIn(w', q) == BalanceIn(w, q) - (if q == p then amount else 0)
  }

  lemma WithdrawalTaken(w: World, caller: Principal, amount: nat)
    ensures if BalanceIn(w, caller) < amount then Debit(w.balances, caller, amount).None?
            else
              && Debit(w.balances, caller, amount).Some?
              && Taken(w, w.(balances := Debit(w.balances, caller, amount).value), caller, amount)
  {
  }

  /** A withdrawal to the canister itself, of an amount that does not cover two fees, or of more than the balance
      is refused without a call; any other is debited in full before its first call, and tried three times. */
  lemma WithdrawByReplies(e: Env, w: World, caller: Principal, amount: nat)
    ensures var (w', r) := Withdraw(e, w, caller, amount);
            var t, w0 := WithdrawalOf(w, caller, amount), w.(counter := w.counter + 1);
            if caller == w.me then w' == w0 && r == Err(ParametersRejected(TargetAccountInvalid))
            else if amount <= 2 * t.fee then
              w' == w0 && r == Err(ParametersRejected(AmountTooSmall(2 * t.fee + 1, amount)))
            else if BalanceIn(w, caller) < amount then w' == w0 && r == Err(NotEnoughFunds)
            else exists w2, r0 :: Taken(w0, w2, caller, amount) && Attempted(e, w2, t, 3, true, w', r0) &&
                   r == match r0 case Ok(tx) => Ok((tx, amount - 2 * t.fee)) case Err(err) => Err(err)
  {
    var t, w0 := WithdrawalOf(w, caller, amount), w.(counter := w.counter + 1);
    assert WithdrawTransfer(w, caller, amount) == t;
    WithdrawalTaken(w0, caller, amount);
    if caller != w.me && amount > 2 * t.fee && BalanceIn(w, caller) >= amount {
      var w2 := w0.(balances := Debit(w0.balances, caller, amount).value);
      ValidAttempted(e, w2, t, 3);
      assert Taken(w0, w2, caller, amount);
      assert Withdraw(e, w, caller, amount).0 == RunTransfer(e, w2, t, 3).0;
    }
  }

  // ---------------------------------------------------------------- recovery of one transfer

  /** The balance query of an old transfer and its answer. */
  ghost predicate BalanceAsked(e: Env, w: World, a: Account, w1: World, reply: Result<nat, PaymentError>) {
    && OnlyAsked(w, w1) && |w1.log| == |w.log| + 1 && Last(w1).call == AskedBalance(a, reply)
    && reply == match e.answers(w.calls).fate
                case Served => Ok(if a in w1.ledger.funds then w1.ledger.funds[a] else 0)
                case Unreachable => Err(PaymentFailed(NotFound))
                case Trapped => Err(PaymentFailed(TokenPanic))
                case _ => Err(Recoverable(IcError))
  }

  /** What the answer decides: an empty interim account refunds a first step and completes a second one; one that
      holds tokens lets a first step go on and a second one be tried anew; without an answer nothing is done. */
  ghost predicate OldDecided(e: Env, w1: World, t: Transfer, reply: Result<nat, PaymentError>, w': World, r: Outcome)
    requires t.kind.DoubleStep?
  {
    match reply
    case Err(err) => w' == w1 && r == Err(err)
    case Ok(balance) =>
      if t.kind.stage == First then
        if balance == 0 then TurnedDown(w1, t, Unknown, w', r)
        else GoesOn(e, w1, t, 3, 0xFFFF_FFFF_FFFF_FFFF, w', r)
      else if balance == 0 then GoesOn(e, w1, t, 3, 0xFFFF_FFFF_FFFF_FFFF, w', r)
      else Attempted(e, w1, t.(createdAt := w1.clock), 3, false, w', r)
  }

  /** The age of a listed transfer decides: a recent one, single step or not, is sent again and tried three times;
      an old single step is dropped without a call; an old double step is decided by its interim balance. */
  lemma RecoverByAge(e: Env, w: World, t: Transfer)
    ensures var (w', r) := RecoverTx(e, w, t);
            if w.clock < t.createdAt + RECENT then Attempted(e, w, t, 3, false, w', r)
            else if t.kind.SingleStep? then w' == w && r == Err(PaymentFailed(TransferTooOld))
            else exists w1, reply ::
                   BalanceAsked(e, w, t.kind.interim, w1, reply) && OldDecided(e, w1, t, reply, w', r)
  {
    var (w', r) := RecoverTx(e, w, t);
    if w.clock < t.createdAt + RECENT {
      var w1, k := AttemptByReplies(e, w, t, 3, false);
      assert RecoverTx(e, w, t) == ExecuteRecoveryTransfer(e, w, t, 3);
    } else if t.kind.DoubleStep? {
      OldByBalance(e, w, t);
    }
  }

  lemma OldByBalance(e: Env, w: World, t: Transfer)
    requires t.kind.DoubleStep? && w.clock >= t.createdAt + RECENT
    ensures var (w', r) := RecoverTx(e, w, t);
            var (w1, reply) := QueryBalance(e, w, t.kind.interim);
            BalanceAsked(e, w, t.kind.interim, w1, reply) && OldDecided(e, w1, t, reply, w', r)
  {
    var (w', r) := RecoverTx(e, w, t);
    var (w1, reply) := QueryBalance(e, w, t.kind.interim);
    assert (w', r) == RecoverOldTx(e, w, t);
    match reply {
      case Err(_) =>
      case Ok(balance) =>
        if t.kind.stage == First && balance == 0 {
          RejectsRightly(w1, t, Unknown);
        } else if t.kind.stage == First || balance == 0 {
          CompletesRightly(e, w1, t, 3, 0xFFFF_FFFF_FFFF_FFFF);
        } else {
          var w2, k := AttemptByReplies(e, w1, t.(createdAt := w1.clock), 3, false);
        }
    }
  }

  /** A listed single step is dropped, without a call, exactly if it is a day old, less five minutes; otherwise it
      is sent again. */
  lemma SingleDroppedIff(e: Env, w: World, t: Transfer)
    requires t.kind.SingleStep?
    ensures RecoverTx(e, w, t) == (w, Err(PaymentFailed(TransferTooOld))) <==> w.clock >= t.createdAt + RECENT
    ensures w.clock < t.createdAt + RECENT ==>
              var w' := RecoverTx(e, w, t).0;
              w.log <= w'.log && |w.log| < |w'.log| && Asks(w'.log[|w.log|].call, t)
  {
    RecoverByAge(e, w, t);
    if w.clock < t.createdAt + RECENT {
      RecoveryBudget(e, w, t, 3);
      StartsAsking(e, w, t, 3);
    }
  }

  // ---------------------------------------------------------------- recovery of the list

  /** What `recover_all` reports for one transfer. */
  ghost predicate ReportOf(result: RecoveryResult, t: Transfer, r: Outcome) {
    match r
    case Ok(tx) => result == Ok((tx, t))
    case Err(err) => result == Err(err)
  }

  /** How many of the first `i` transfers are of the token. */
  function OwnBefore(items: seq<Transfer>, principal: Principal, i: nat): nat
    requires i <= |items|
    decreases i
  {
    if i == 0 then 0
    else (if items[0].token == principal then 1 else 0) + OwnBefore(items[1..], principal, i - 1)
  }

  /** One result for each transfer of the token, in their order, and nothing else. */
  ghost predicate ReportsOf(e: Env, w: World, items: seq<Transfer>, results: seq<RecoveryResult>) {
    && |results| == OwnBefore(items, w.config.principal, |items|)
    && (forall i :: 0 <= i < |items| && items[i].token == w.config.principal ==>
          Answers(e, w, items, i, results, OwnBefore(items, w.config.principal, i)))
  }

  /** Result `j` is what the recovery of item `i`, in its own turn, gave. */
  ghost predicate Answers(e: Env, w: World, items: seq<Transfer>, i: nat, results: seq<RecoveryResult>, j: nat) {
    i < |items| && j < |results| && ReportOf(results[j], items[i], RecoverTx(e, Trail(e, w, items, i), items[i]).1)
  }

  /** One round of the loop: an own transfer is recovered, a foreign one goes back to the list. */
  ghost predicate Round(e: Env, w: World, t: Transfer, w1: World, principal: Principal) {
    w1 == if t.token == principal then RecoverTx(e, w, t).0 else w.(recovery := w.recovery[IdOf(t) := t])
  }

  ghost predicate Rounds(e: Env, w: World, items: seq<Transfer>) {
    forall i :: 0 <= i < |items| ==>
      Round(e, Trail(e, w, items, i), items[i], Trail(e, w, items, i + 1), w.config.principal)
  }

  lemma ItemKeepsPrincipal(e: Env, w: World, t: Transfer)
    ensures RecoverItem(e, w, t).0.config.principal == w.config.principal
  {
    RecoverTxBudget(e, w, t);
  }

  /** One more transfer at the front. */
  lemma ReportsBefore(e: Env, w: World, items: seq<Transfer>, results: seq<RecoveryResult>)
    requires items != [] && RecoverItem(e, w, items[0]).0.config.principal == w.config.principal
    requires ReportsOf(e, RecoverItem(e, w, items[0]).0, items[1..], results)
    ensures ReportsOf(e, w, items, Reported(items[0], RecoverItem(e, w, items[0]).1) + results)
  {
    var (w1, r) := RecoverItem(e, w, items[0]);
    var principal := w.config.principal;
    var all := Reported(items[0], r) + results;
    forall i | 0 <= i < |items| && items[i].token == principal
      ensures Answers(e, w, items, i, all, OwnBefore(items, principal, i))
    {
      if i > 0 {
        var j := OwnBefore(items[1..], principal, i - 1);
        assert items[1..][i - 1] == items[i];
        assert Answers(e, w1, items[1..], i - 1, results, j);
        assert Trail(e, w, items, i) == Trail(e, w1, items[1..], i - 1);
        assert results[j] == all[OwnBefore(items, principal, i)];
      }
    }
  }

  lemma {:induction false} ItemsReport(e: Env, w: World, items: seq<Transfer>)
    ensures var (w', results) := RecoverItems(e, w, items);
            w' == Trail(e, w, items, |items|) && ReportsOf(e, w, items, results) && Rounds(e, w, items)
    decreases |items|
  {
    if items != [] {
      var (w1, r) := RecoverItem(e, w, items[0]);
      ItemKeepsPrincipal(e, w, items[0]);
      var (w', results) := RecoverItems(e, w1, items[1..]);
      ItemsReport(e, w1, items[1..]);
      assert Trail(e, w, items, |items|) == Trail(e, w1, items[1..], |items[1..]|);
      ReportsBefore(e, w, items, results);
      forall i | 0 <= i < |items|
        ensures Round(e, Trail(e, w, items, i), items[i], Trail(e, w, items, i + 1), w.config.principal)
      {
        assert Trail(e, w, items, i + 1) == Trail(e, w1, items[1..], i);
        if i > 0 {
          assert Trail(e, w, items, i) == Trail(e, w1, items[1..], i - 1);
          assert Round(e, Trail(e, w1, items[1..], i - 1), items[1..][i - 1], Trail(e, w1, items[1..], i),
                       w1.config.principal);
        }
      }
    }
  }

  /** `recover_all` takes every transfer off the list, recovers the own ones in order, puts the foreign ones back,
      and reports exactly one result for each own one, in order: its id and itself, or its error. */
  lemma RecoverAllReports(e: Env, w: World)
    requires ValidOrder(e) && Keyed(w.recovery)
    ensures var (w', results) := RecoverAll(e, w);
            var w0, items := w.(recovery := map[]), TakeAll(e, w);
            && NoRepeat(items) && (forall t :: t in items <==> t in w.recovery.Values)
            && w' == Trail(e, w0, items, |items|) && Rounds(e, w0, items)
            && ReportsOf(e, w0, items, results)
  {
    TakesAll(e, w);
    ItemsReport(e, w.(recovery := map[]), TakeAll(e, w));
  }

  /** The result of item `i` is that of its recovery in its turn. */
  lemma ReportInTurn(e: Env, w: World, i: nat) returns (w1: World, r: Outcome)
    requires ValidOrder(e) && Keyed(w.recovery)
    requires i < |TakeAll(e, w)| && TakeAll(e, w)[i].token == w.config.principal
    ensures var items := TakeAll(e, w);
            var results, j := RecoverAll(e, w).1, OwnBefore(items, w.config.principal, i);
            && j < |results| && ReportOf(results[j], items[i], r)
            && (w1, r) == RecoverTx(e, Trail(e, w.(recovery := map[]), items, i), items[i])
  {
    RecoverAllReports(e, w);
    var w0, items := w.(recovery := map[]), TakeAll(e, w);
    assert Answers(e, w0, items, i, RecoverAll(e, w).1, OwnBefore(items, w.config.principal, i));
    w1, r := RecoverTx(e, Trail(e, w0, items, i), items[i]).0, RecoverTx(e, Trail(e, w0, items, i), items[i]).1;
  }

  lemma ItemInTurn(e: Env, w: World, t: Transfer, left: Option<Transfer>)
    requires ItemRight(e, w, t, left) && t.token == w.config.principal
    ensures var (w', r) := RecoverTx(e, w, t); RecoveredRight(e, w, t, w', r)
  {
  }

  /** In every reachable world the reports are true: the result of each own transfer names an outcome that is right
      for it in its own turn. */
  lemma ReportsRight(e: Env, w: World, fee: nat, i: nat) returns (w1: World, r: Outcome)
    requires Inv(w, fee) && ValidOrder(e) && UndisturbedItems(e, w.(recovery := map[]), TakeAll(e, w))
    requires i < |TakeAll(e, w)| && TakeAll(e, w)[i].token == w.config.principal
    ensures var items := TakeAll(e, w);
            var results, j := RecoverAll(e, w).1, OwnBefore(items, w.config.principal, i);
            && j < |results| && ReportOf(results[j], items[i], r)
            && RecoveredRight(e, Trail(e, w.(recovery := map[]), items, i), items[i], w1, r)
  {
    var w0, items := w.(recovery := map[]), TakeAll(e, w);
    w1, r := ReportInTurn(e, w, i);
    TrailPrincipal(e, w0, items, i);
    var lefts := RecoverAllRight(e, w, fee);
    ItemInTurn(e, Trail(e, w0, items, i), items[i], lefts[i]);
  }

  lemma {:induction false} TrailPrincipal(e: Env, w: World, items: seq<Transfer>, i: nat)
    requires i <= |items|
    ensures Trail(e, w, items, i).config.principal == w.config.principal
    decreases i
  {
    if i > 0 {
      ItemKeepsPrincipal(e, w, items[0]);
      TrailPrincipal(e, RecoverItem(e, w, items[0]).0, items[1..], i - 1);
    }
  }
}
