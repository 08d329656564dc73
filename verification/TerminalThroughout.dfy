/** Solvency at every moment of an operation, not only between operations: the log holds one moment for
    every remote call, with the ledger its reply left and the balances of that time, and in each of them
    the main account covers the balances. */
module TerminalThroughout {
  import opened Wrappers
  import opened PaymentErrors
  import opened Transfers
  import opened Ledgers
  import opened Terminal
  import opened TerminalBudget
  import opened TerminalOutcome
  import opened TerminalSolvency
  import opened TerminalRuns

  ghost predicate Solvent(me: Principal, m: Moment) {
    BalanceTotal(m.balances) <= Funds(m.ledger, Main(me))
  }

  /** Every remote call on the way from `w` to `w'` is in the log, at a solvent moment. */
  ghost predicate SolventUntil(w: World, w': World) {
    && w.log <= w'.log && w'.calls - w.calls == |w'.log| - |w.log| && w'.me == w.me
    && forall i :: |w.log| <= i < |w'.log| ==> Solvent(w.me, w'.log[i])
  }

  lemma SolventChain(w: World, w1: World, w': World)
    requires SolventUntil(w, w1) && SolventUntil(w1, w')
    ensures SolventUntil(w, w')
  {
    forall i | |w.log| <= i < |w'.log| ensures Solvent(w.me, w'.log[i]) {
      if i < |w1.log| {
        assert w'.log[i] == w1.log[i];
      }
    }
  }

  /** The blocks an attempt at `t` may have appended. */
  predicate Appended(me: Principal, t: Transfer, b: seq<Request>, b': seq<Request>, c: nat) {
    || b' == b || b' == b + Owed(me, t, b)
    || (IsFirstStep(t) && b' == b + Owed(me, t, b) + [RequestOf(me, StepAt(t, c))])
  }

  lemma AppendedBlocks(w: World, t: Transfer, w': World, r: Outcome) returns (c: nat)
    requires ThreeWays(w, t, w', r)
    ensures Appended(w.me, t, w.ledger.blocks, w'.ledger.blocks, c)
  {
    c := 0;
    match r {
      case Ok(tx) =>
        if IsFirstStep(t) {
          c :| SettledTwice(w, t, w', tx, c);
        }
      case Err(Recoverable(_)) =>
        var b, b' := w.ledger.blocks, w'.ledger.blocks;
        if !(b' == b || b' == b + Owed(w.me, t, b)) {
          c :| ListedSecond(w, t, w', c);
        }
      case Err(PaymentFailed(_)) =>
    }
  }

  lemma PrefixAppended(me: Principal, t: Transfer, b: seq<Request>, b1: seq<Request>, b': seq<Request>, c: nat)
    requires Appended(me, t, b, b', c) && b <= b1 <= b'
    ensures Appended(me, t, b, b1, c)
  {
    var done := b + Owed(me, t, b);
    assert b1 == b'[..|b1|];
    assert b'[..|b|] == b;
    if |b1| == |done| {
      assert b1 == done;
    }
  }

  /** No prefix of an attempt takes more from the main account than was set aside for the transfer. */
  lemma AppendedNet(me: Principal, t: Transfer, b: seq<Request>, b1: seq<Request>, c: nat)
    requires Valid(me, t) && Shape(me, t) && Appended(me, t, b, b1, c)
    ensures Net(b1, Main(me)) + Reserve(me, t, b) >= Net(b, Main(me))
  {
    if IsFirstStep(t) {
      FirstStepNet(me, t, b, c);
    } else {
      LastStepNet(me, t, b, b1);
    }
  }

  lemma AttemptSolvent(w: World, t: Transfer, w': World, r: Outcome, live: set<Transfer>)
    requires Covered(w, live) && t in live && Valid(w.me, t) && Shape(w.me, t)
    requires ThreeWays(w, t, w', r) && Within(w, w', N_RETRIES + 1)
    ensures SolventUntil(w, w')
  {
    var b := w.ledger.blocks;
    var c := AppendedBlocks(w, t, w', r);
    TotalSplit(w.me, live, b, t);
    forall i | |w.log| <= i < |w'.log| ensures Solvent(w.me, w'.log[i]) {
      var m := w'.log[i];
      assert Occurs(w, m, w');
      PrefixAppended(w.me, t, b, m.ledger.blocks, w'.ledger.blocks, c);
      AppendedNet(w.me, t, b, m.ledger.blocks, c);
      assert Slack(w.ledger, Main(w.me)) <= Slack(m.ledger, Main(w.me));
    }
  }

  lemma IdleSolvent(w: World, w': World, live: set<Transfer>)
    requires Covered(w, live) && w'.ledger.blocks == w.ledger.blocks && Within(w, w', N_RETRIES + 1)
    ensures SolventUntil(w, w')
  {
    forall i | |w.log| <= i < |w'.log| ensures Solvent(w.me, w'.log[i]) {
      var m := w'.log[i];
      assert Occurs(w, m, w');
      assert m.ledger.blocks == w.ledger.blocks;
      assert Slack(w.ledger, Main(w.me)) <= Slack(m.ledger, Main(w.me));
    }
  }

  // ---------------------------------------------------------------- recovery

  /** The attempt at the second step `s` that an old transfer `t` is continued with. */
  lemma ContinuedSolvent(w: World, w1: World, t: Transfer, s: Transfer, w': World, r: Outcome, live: set<Transfer>)
    requires Covered(w, live) && t in live && IsSecondStep(s) && Valid(w.me, s) && Shape(w.me, s)
    requires OneCall(w, s, w1) && ThreeWays(w1, s, w', r) && Within(w, w', N_RETRIES + 1)
    ensures SolventUntil(w, w')
  {
    AfterCall(w, s, w1, w', r);
    var rest := live - {t} - {s};
    TotalSubset(w.me, rest, live, w.ledger.blocks);
    TotalAdd(w.me, rest, w.ledger.blocks, s);
    AttemptSolvent(w, s, w', r, rest + {s});
  }

  lemma RecoverTxSolvent(e: Env, w: World, t: Transfer, fee: nat, live: set<Transfer>)
    requires Safe(w, fee, live) && t in live
    requires Undisturbed(w, RecoverTx(e, w, t).0)
    ensures SolventUntil(w, RecoverTx(e, w, t).0)
  {
    var (w', r) := RecoverTx(e, w, t);
    LiveReady(w, fee, live, t);
    assert Good(w, fee, t);
    RecoverTxBudget(e, w, t);
    if CanDeduplicate(w, t) {
      RecoveryOutcome(e, w, t, N_RETRIES);
      AttemptSolvent(w, t, w', r, live);
    } else if w'.ledger.blocks == w.ledger.blocks {
      IdleSolvent(w, w', live);
    } else if IsFirstStep(t) {
      OldFirstSolvent(e, w, t, fee, live);
    } else {
      OldSecondSolvent(e, w, t, fee, live);
    }
  }

  /** An old first step that goes on with its second step. */
  lemma OldFirstSolvent(e: Env, w: World, t: Transfer, fee: nat, live: set<Transfer>)
    requires Safe(w, fee, live) && t in live && !CanDeduplicate(w, t) && IsFirstStep(t)
    requires Undisturbed(w, RecoverTx(e, w, t).0) && RecoverTx(e, w, t).0.ledger.blocks != w.ledger.blocks
    ensures SolventUntil(w, RecoverTx(e, w, t).0)
  {
    var w1 := Asked(e, w, t);
    var (w', r) := RecoverTx(e, w, t);
    AskedSafe(e, w, fee, live, t);
    assert Good(w, fee, t);
    CompleteBudget(e, w1, t, UNKNOWN_TX_ID, N_RETRIES);
    SteadySplits(w, w1, w');
    NextOutcome(e, w1, t, fee, live);
    SecondStepAgrees(w.me, t, w1.clock);
    RecoverOldBudget(e, w, t);
    ContinuedSolvent(w, w1, t, StepAt(t, w1.clock), w', r, live);
  }

  /** An old second step that is renewed. */
  lemma OldSecondSolvent(e: Env, w: World, t: Transfer, fee: nat, live: set<Transfer>)
    requires Safe(w, fee, live) && t in live && !CanDeduplicate(w, t) && IsSecondStep(t)
    requires Undisturbed(w, RecoverTx(e, w, t).0) && RecoverTx(e, w, t).0.ledger.blocks != w.ledger.blocks
    ensures SolventUntil(w, RecoverTx(e, w, t).0)
  {
    var w1 := Asked(e, w, t);
    var (w', r) := RecoverTx(e, w, t);
    AskedSafe(e, w, fee, live, t);
    RenewedSafe(w1, t, fee, live);
    var s := t.(createdAt := w1.clock);
    RecoveryBudget(e, w1, s, N_RETRIES);
    SteadySplits(w, w1, w');
    RecoveryOutcome(e, w1, s, N_RETRIES);
    RecoverOldBudget(e, w, t);
    ContinuedSolvent(w, w1, t, s, w', r, live);
  }

  lemma {:induction false} LoopSolvent(e: Env, w: World, items: seq<Transfer>, fee: nat, kept: set<Transfer>)
    requires UndisturbedItems(e, w, items) && NoRepeat(items)
    requires InLoop(w, items, fee, kept)
    ensures SolventUntil(w, RecoverItems(e, w, items).0)
    decreases |items|
  {
    if items != [] {
      var t, rest := items[0], items[1..];
      var w1 := RecoverItem(e, w, t).0;
      assert NoRepeat(rest) && t !in rest && items == [t] + rest;
      if t.token == w.config.principal {
        RecoverTxSolvent(e, w, t, fee, kept + OwnItems(w, items));
      }
      var kept1, _ := ItemSafe(e, w, t, rest, fee, kept);
      LoopSolvent(e, w1, rest, fee, kept1);
      SolventChain(w, w1, RecoverItems(e, w, items).0);
    }
  }

  // ---------------------------------------------------------------- operations and runs

  lemma NewAttemptSolvent(e: Env, w: World, t: Transfer, fee: nat, live: set<Transfer>)
    requires Safe(w, fee, live + {t}) && RequestOf(w.me, t) !in w.ledger.blocks
    requires t.createdAt == w.clock && Undisturbed(w, RunTransfer(e, w, t, N_RETRIES).0)
    ensures SolventUntil(w, RunTransfer(e, w, t, N_RETRIES).0)
  {
    var (w', r) := RunTransfer(e, w, t, N_RETRIES);
    LiveReady(w, fee, live + {t}, t);
    assert Good(w, fee, t);
    TransferOutcome(e, w, t, N_RETRIES);
    TransferBudget(e, w, t, N_RETRIES);
    AttemptSolvent(w, t, w', r, live + {t});
  }

  lemma DepositSolvent(e: Env, w: World, fee: nat, caller: Principal, amount: nat)
    requires Inv(w, fee) && Undisturbed(w, DepositTokens(e, w, caller, amount).0)
    ensures SolventUntil(w, DepositTokens(e, w, caller, amount).0)
  {
    var t, live := DepositTransfer(w, caller, amount), OwnListed(w, w.recovery);
    if Valid(w.me, t) {
      DepositEnters(w, fee, caller, amount);
      NewAttemptSolvent(e, w.(counter := w.counter + 1), t, fee, live);
    }
  }

  lemma WithdrawSolvent(e: Env, w: World, fee: nat, caller: Principal, amount: nat)
    requires Inv(w, fee) && FreshWithdrawal(w, caller, amount)
    requires Undisturbed(w, Withdraw(e, w, caller, amount).0)
    ensures SolventUntil(w, Withdraw(e, w, caller, amount).0)
  {
    var t, debited := WithdrawTransfer(w, caller, amount), Debit(w.balances, caller, amount);
    if Valid(w.me, t) && debited.Some? {
      WithdrawEnters(w, fee, caller, amount);
      var w1 := w.(counter := w.counter + 1, balances := debited.value);
      NewAttemptSolvent(e, w1, t, fee, OwnListed(w, w.recovery));
    }
  }

  lemma OpSolvent(e: Env, w: World, fee: nat, op: Op)
    requires Inv(w, fee) && ValidOrder(e) && Legal(e, w, op)
    ensures SolventUntil(w, Apply(e, w, op))
  {
    match op {
      case Idle(_) =>
      case DoDeposit(caller, amount) => DepositSolvent(e, w, fee, caller, amount);
      case DoWithdraw(caller, amount) => WithdrawSolvent(e, w, fee, caller, amount);
      case DoRecover =>
        LoopStarts(e, w, fee);
        LoopSolvent(e, w.(recovery := map[]), TakeAll(e, w), fee, {});
    }
  }

  lemma {:induction false} SolventThroughout(e: Env, w: World, fee: nat, ops: seq<Op>)
    requires Inv(w, fee) && ValidOrder(e) && LegalRun(e, w, ops)
    ensures SolventUntil(w, Run(e, w, ops))
    decreases |ops|
  {
    if ops != [] {
      OpSolvent(e, w, fee, ops[0]);
      StepInv(e, w, fee, ops[0]);
      SolventThroughout(e, Apply(e, w, ops[0]), fee, ops[1..]);
      SolventChain(w, Apply(e, w, ops[0]), Run(e, w, ops));
    }
  }

  /** From genesis, in any run, the log holds every remote call, and at each of these moments the main
      account covers the user balances. */
  lemma AlwaysSolvent(e: Env, w: World, ops: seq<Op>)
    requires Genesis(w) && w.log == [] && w.calls == 0
    requires BalanceTotal(w.balances) <= Funds(w.ledger, Main(w.me))
    requires ValidOrder(e) && LegalRun(e, w, ops)
    ensures var w' := Run(e, w, ops);
            |w'.log| == w'.calls && forall m :: m in w'.log ==> Solvent(w.me, m)
  {
    assert OwnListed(w, w.recovery) == {};
    assert Inv(w, w.config.fee);
    SolventThroughout(e, w, w.config.fee, ops);
  }
}
