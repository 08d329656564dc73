/** What a caller of `deposit` and `withdraw` may rely on, and what re-pricing does to the list. */
module TerminalCalls {
  import opened Wrappers
  import opened PaymentErrors
  import opened Transfers
  import opened Ledgers
  import opened Terminal
  import opened TerminalBudget
  import opened TerminalOutcome
  import opened TerminalSolvency
  import opened TerminalRuns
  import opened TerminalRecovery

  ghost predicate MemosIssued(w: World) {
    forall r :: r in w.ledger.blocks ==> r.memo.Some? && r.memo.value < w.counter
  }

  /** Every user's balance is the old one plus `delta` for the caller. */
  ghost predicate BalanceMoved(w: World, w': World, caller: Principal, delta: int) {
    forall p :: BalanceOf(w'.balances, p) == BalanceOf(w.balances, p) + if p == caller then delta else 0
  }

  /** The movement of a deposit, from the caller's deposit account to the main account. */
  function DepositRequest(w: World, caller: Principal, received: nat): Request {
    Request(Account(w.me, if caller == 0 then Default else OfPrincipal(caller)), Main(w.me), received, w.config.fee,
            w.clock, Some(w.counter))
  }

  /** A deposit credits exactly what it reports and what reached the main account, once; if it is
      recoverable it is listed uncredited; if it fails nothing moved. */
  lemma DepositOutcome(e: Env, w: World, caller: Principal, amount: nat)
    requires MemosIssued(w) && w.config.mintingAccount.owner != w.me
    requires DepositTokens(e, w, caller, amount).0.clock < w.clock + DEDUP_PERIOD
    requires Steady(w, DepositTokens(e, w, caller, amount).0)
    ensures var (w', r) := DepositTokens(e, w, caller, amount);
            var t := DepositTransfer(w, caller, amount);
            match r
            case Ok((tx, received)) =>
              && received + w.config.fee == amount && BalanceMoved(w, w', caller, received)
              && w'.ledger.blocks == w.ledger.blocks + [DepositRequest(w, caller, received)] && tx == |w.ledger.blocks|
              && w'.recovery == w.recovery
            case Err(Recoverable(_)) => w'.balances == w.balances && w'.recovery == Push(w.recovery, t)
            case Err(_) => w'.balances == w.balances && w'.recovery == w.recovery && w'.ledger.blocks == w.ledger.blocks
  {
    var t := DepositTransfer(w, caller, amount);
    var w1 := w.(counter := w.counter + 1);
    if Valid(w.me, t) {
      ChargedExactly(w.me, t);
      assert RequestOf(w.me, t) !in w.ledger.blocks;
      TransferOutcome(e, w1, t, N_RETRIES);
    }
  }

  /** A successful deposit, at any fees: the caller is credited what the executed request delivered. */
  lemma DepositCredits(e: Env, w: World, caller: Principal, amount: nat) returns (s: Transfer)
    requires MemosIssued(w) && DepositTokens(e, w, caller, amount).1.Ok?
    ensures var (w', r) := DepositTokens(e, w, caller, amount);
            var (tx, received) := r.value;
            && tx < |w'.ledger.blocks| && w'.ledger.blocks[tx] == RequestOf(w.me, s)
            && s.amount == amount && StepTo(s) == Main(w.me) && Charged(e, w, RequestOf(w.me, s))
            && RequestOf(w.me, s) !in w.ledger.blocks
            && BalanceMoved(w, w', caller, RequestOf(w.me, s).amount)
            && received + DepositTransfer(w, caller, amount).fee == amount
  {
    var t := DepositTransfer(w, caller, amount);
    var w1 := w.(counter := w.counter + 1);
    var (w', r) := RunTransfer(e, w1, t, N_RETRIES);
    assert RequestOf(w.me, t) !in w.ledger.blocks;
    AcceptedIffPayable(w.me, t);
    var rest := TransferAccounted(e, w1, t, N_RETRIES);
    s :| SettledAs(e, w1, t, w', r.value, s);
    assert RequestOf(w.me, s).memo == Some(w.counter);
  }

  /** If the ledger asks for one fee throughout, a successful deposit reports what it credits exactly if that is
      the configured fee.  The credit is always what was delivered. */
  lemma DepositReportIff(e: Env, w: World, caller: Principal, amount: nat, f: nat)
    requires MemosIssued(w) && DepositTokens(e, w, caller, amount).1.Ok? && FixedFee(e, f)
    requires w.config.mintingAccount !in {Account(w.me, PrincipalSubaccount(caller)), Main(w.me)}
    ensures var (w', r) := DepositTokens(e, w, caller, amount);
            var (tx, received) := r.value;
            && tx < |w'.ledger.blocks|
            && BalanceMoved(w, w', caller, w'.ledger.blocks[tx].amount)
            && w'.ledger.blocks[tx].to == Main(w.me) && w'.ledger.blocks[tx].fee == f
            && (received == w'.ledger.blocks[tx].amount <==> f == w.config.fee)
  {
    var s := DepositCredits(e, w, caller, amount);
    var (w', r) := DepositTokens(e, w, caller, amount);
    assert RequestOf(w.me, s).fee == f;
    assert r.value.1 > 0 by {
      AcceptedIffPayable(w.me, DepositTransfer(w, caller, amount));
    }
  }

  /** The two movements of a withdrawal: `amount` leaves the main account, `sent` reaches the caller. */
  ghost predicate PaidOut(w: World, w': World, caller: Principal, amount: nat, tx: nat, sent: nat) {
    var n := |w.ledger.blocks|;
    && sent + 2 * w.config.fee == amount
    && |w'.ledger.blocks| == n + 2 && w'.ledger.blocks[..n] == w.ledger.blocks && tx == n + 1
    && w'.ledger.blocks[n].from == Main(w.me)
    && w'.ledger.blocks[n].amount + w'.ledger.blocks[n].fee == amount
    && w'.ledger.blocks[n + 1].to == Account(caller, Default) && w'.ledger.blocks[n + 1].amount == sent
  }

  lemma SettledPaysOut(w: World, caller: Principal, amount: nat, w': World, tx: nat)
    requires var t := WithdrawTransfer(w, caller, amount);
             && Valid(w.me, t) && t.fee == w.config.fee && RequestOf(w.me, t) !in w.ledger.blocks
             && exists c :: SettledTwice(w, t, w', tx, c)
    ensures PaidOut(w, w', caller, amount, tx, FinalAmount(WithdrawTransfer(w, caller, amount)).value)
  {
    var t := WithdrawTransfer(w, caller, amount);
    var c :| SettledTwice(w, t, w', tx, c);
    AcceptedIffPayable(w.me, t);
    SecondStepAgrees(w.me, t, c);
    assert w'.ledger.blocks == w.ledger.blocks + [RequestOf(w.me, t)] + [RequestOf(w.me, StepAt(t, c))];
  }

  /** How a withdrawal can end for its caller. */
  ghost predicate WithdrawEnds(w: World, caller: Principal, amount: nat, w': World,
                               r: Result<(nat, nat), PaymentError>) {
    var t := WithdrawTransfer(w, caller, amount);
    match r
    case Ok((tx, sent)) =>
      && PaidOut(w, w', caller, amount, tx, sent) && BalanceMoved(w, w', caller, -(amount as int))
      && w'.recovery == w.recovery
    case Err(Recoverable(_)) =>
      && BalanceMoved(w, w', caller, -(amount as int))
      && (w'.recovery == Push(w.recovery, t) || exists c :: w'.recovery == Push(w.recovery, StepAt(t, c)))
    case Err(_) => BalanceMoved(w, w', caller, 0) && w'.recovery == w.recovery && w'.ledger.blocks == w.ledger.blocks
  }

  lemma DebitedEnds(w: World, caller: Principal, amount: nat, w2: World, w': World, r: Outcome)
    requires var t := WithdrawTransfer(w, caller, amount);
             && Valid(w.me, t) && t.fee == w.config.fee && RequestOf(w.me, t) !in w.ledger.blocks
             && Debit(w.balances, caller, amount).Some?
             && w2 == w.(counter := w.counter + 1, balances := Debit(w.balances, caller, amount).value)
             && ThreeWays(w2, t, w', r)
    ensures WithdrawEnds(w, caller, amount, w', match r
              case Ok(tx) => Ok((tx, FinalAmount(WithdrawTransfer(w, caller, amount)).value))
              case Err(err) => Err(err))
  {
    var t := WithdrawTransfer(w, caller, amount);
    match r {
      case Ok(tx) =>
        var c :| SettledTwice(w2, t, w', tx, c);
        assert SettledTwice(w, t, w', tx, c);
        SettledPaysOut(w, caller, amount, w', tx);
      case Err(Recoverable(_)) =>
        if w'.recovery != Push(w.recovery, t) {
          var c :| ListedSecond(w2, t, w', c);
          assert w'.recovery == Push(w.recovery, StepAt(t, c));
        }
      case Err(_) =>
    }
  }

  /** A withdrawal that succeeds has sent what it reports, `amount` less two fees, to the caller's
      account, in two movements; one that fails has given the debit back in full; a recoverable one is
      debited and listed; a rejected one changed nothing. */
  lemma WithdrawOutcome(e: Env, w: World, caller: Principal, amount: nat)
    requires MemosIssued(w) && w.config.mintingAccount.owner != w.me
    requires FreshWithdrawal(w, caller, amount)
    requires Withdraw(e, w, caller, amount).0.clock < w.clock + DEDUP_PERIOD
    requires Steady(w, Withdraw(e, w, caller, amount).0)
    ensures var (w', r) := Withdraw(e, w, caller, amount); WithdrawEnds(w, caller, amount, w', r)
  {
    var t := WithdrawTransfer(w, caller, amount);
    var debited := Debit(w.balances, caller, t.amount);
    if Valid(w.me, t) && debited.Some? {
      var w2 := w.(counter := w.counter + 1, balances := debited.value);
      DebitedThreeWays(e, w, caller, amount);
      var (w', r) := RunTransfer(e, w2, t, N_RETRIES);
      DebitedEnds(w, caller, amount, w2, w', r);
    }
  }

  lemma DebitedThreeWays(e: Env, w: World, caller: Principal, amount: nat)
    requires MemosIssued(w) && w.config.mintingAccount.owner != w.me
    requires FreshWithdrawal(w, caller, amount)
    requires Withdraw(e, w, caller, amount).0.clock < w.clock + DEDUP_PERIOD
    requires Steady(w, Withdraw(e, w, caller, amount).0)
    requires var t := WithdrawTransfer(w, caller, amount);
             Valid(w.me, t) && Debit(w.balances, caller, t.amount).Some?
    ensures var t := WithdrawTransfer(w, caller, amount);
            var w2 := w.(counter := w.counter + 1, balances := Debit(w.balances, caller, t.amount).value);
            var (w', r) := RunTransfer(e, w2, t, N_RETRIES);
            && ThreeWays(w2, t, w', r) && RequestOf(w.me, t) !in w.ledger.blocks && t.fee == w.config.fee
            && w' == Withdraw(e, w, caller, amount).0
  {
    var t := WithdrawTransfer(w, caller, amount);
    var w2 := w.(counter := w.counter + 1, balances := Debit(w.balances, caller, t.amount).value);
    var plain := NewTransfer(w.config, w.me, caller, Account(caller, Default), Default, amount, w.clock);
    InterimAccountsDistinct(w.me, plain, plain);
    TransferOutcome(e, w2, t, N_RETRIES);
  }

  // ---------------------------------------------------------------- re-pricing the list

  lemma {:induction false} AllOnListIff(ts: seq<Transfer>)
    ensures (forall t :: t in ts ==> OnList(PushAll(map[], ts), t))
            <==> forall t, u :: t in ts && u in ts && IdOf(t) == IdOf(u) ==> t == u
  {
    if forall t, u :: t in ts && u in ts && IdOf(t) == IdOf(u) ==> t == u {
      PushAllKeeps(map[], ts, {});
    }
  }

  lemma {:induction false} PushAllKeeps(list: RecoveryList, ts: seq<Transfer>, kept: set<Transfer>)
    requires forall t :: t in kept ==> OnList(list, t)
    requires forall t, u :: (t in kept || t in ts) && u in ts && IdOf(t) == IdOf(u) ==> t == u
    ensures forall t :: t in kept || t in ts ==> OnList(PushAll(list, ts), t)
    decreases |ts|
  {
    if ts != [] {
      assert ts == [ts[0]] + ts[1..];
      PushAllKeeps(Push(list, ts[0]), ts[1..], kept + {ts[0]});
    }
  }

  lemma {:induction false} RefeeMembers(me: Principal, config: TokenConfiguration, ts: seq<Transfer>)
    ensures forall s :: s in RefeeAll(me, config, ts) <==> exists t :: t in ts && s == Refee(me, config, t)
    decreases |ts|
  {
    if ts != [] {
      RefeeMembers(me, config, ts[1..]);
      assert ts == [ts[0]] + ts[1..];
      var all := RefeeAll(me, config, ts);
      assert all == [Refee(me, config, ts[0])] + RefeeAll(me, config, ts[1..]);
    }
  }

  /** Re-pricing, for a new fee or a new minting account, zeroes the creation times, which are part of the ids:
      every listed transfer survives it exactly when no two of them differ after re-pricing but agree on the
      hashed fields other than the creation time. */
  lemma RepricingKeepsAllIff(e: Env, w: World, config: TokenConfiguration)
    requires ValidOrder(e) && Keyed(w.recovery)
    ensures (forall t :: t in w.recovery.Values ==>
               OnList(UpdateRecoveryFees(e, w.(config := config)).recovery, Refee(w.me, config, t)))
            <==> (forall t, u ::
                   t in w.recovery.Values && u in w.recovery.Values
                   && IdOf(t).(createdAt := 0) == IdOf(u).(createdAt := 0)
                   ==> Refee(w.me, config, t) == Refee(w.me, config, u))
  {
    var w1 := w.(config := config);
    TakesAll(e, w1);
    var ts := TakeAll(e, w1);
    var all := RefeeAll(w.me, config, ts);
    RefeeMembers(w.me, config, ts);
    AllOnListIff(all);
    assert UpdateRecoveryFees(e, w1).recovery == PushAll(map[], all);
    assert forall t :: t in w.recovery.Values ==> Refee(w.me, config, t) in all;
    forall t ensures IdOf(Refee(w.me, config, t)) == IdOf(t).(createdAt := 0) {
    }
    if forall t :: t in w.recovery.Values ==> OnList(PushAll(map[], all), Refee(w.me, config, t)) {
      assert forall s :: s in all ==> OnList(PushAll(map[], all), s);
    }
  }
}
