/** What every run of the protocol keeps, for every reply sequence and without any hypothesis on
    fees, clocks or identifiers: time and the ledger only move forward, and the retry budget is
    shared by the two steps of a transfer.  (Termination itself is the lexicographic measure
    (stage, retries, phase) on the functions of `Terminal`.) */
module TerminalBudget {
  import opened Wrappers
  import opened PaymentErrors
  import opened Transfers
  import opened Ledgers
  import opened Terminal

  /** The moment lies between the two worlds: no balance has changed yet, the ledger has grown from the
      first, and its blocks are a prefix of the second's. */
  ghost predicate Occurs(w: World, m: Moment, w': World) {
    m.balances == w.balances && Grew(w.ledger, m.ledger) && m.ledger.blocks <= w'.ledger.blocks
  }

  ghost predicate Observed(w: World, w': World) {
    w.log <= w'.log && forall i :: |w.log| <= i < |w'.log| ==> Occurs(w, w'.log[i], w')
  }

  /** `w` evolved into `w'` with at most `budget` ledger transfers. */
  ghost predicate Within(w: World, w': World, budget: nat) {
    && w'.me == w.me && w'.counter == w.counter
    && w'.config.principal == w.config.principal
    && w.clock <= w'.clock && w'.calls - w.calls == |w'.log| - |w.log|
    && w.sent <= w'.sent <= w.sent + budget
    && Grew(w.ledger, w'.ledger) && Observed(w, w')
  }

  function AtLeast1(n: nat): nat {
    if n == 0 then 1 else n
  }

  lemma Chain(w0: World, w1: World, w2: World, a: nat, b: nat)
    requires Within(w0, w1, a) && Within(w1, w2, b) && w1.balances == w0.balances
    ensures Within(w0, w2, a + b)
  {
    GrewTransitive(w0.ledger, w1.ledger, w2.ledger);
    forall i | |w0.log| <= i < |w2.log| ensures Occurs(w0, w2.log[i], w2) {
      if i < |w1.log| {
        assert w2.log[i] == w1.log[i] && Occurs(w0, w1.log[i], w1);
      } else {
        assert Occurs(w1, w2.log[i], w2);
        GrewTransitive(w0.ledger, w1.ledger, w2.log[i].ledger);
      }
    }
  }

  lemma AwaitWithin(e: Env, w: World)
    ensures Within(w, Await(e, w), 0)
  {
    var a := e.answers(w.calls);
    DepositGrows(w.ledger, a.giftTo, a.gift);
  }

  lemma RecordWithin(w: World, w1: World, call: Call, budget: nat)
    requires Within(w, w1, budget) && w1.balances == w.balances && w1.log == w.log
    ensures Within(w, Record(w1, call), budget)
  {
  }

  lemma ExecuteWithin(e: Env, w: World, t: Transfer)
    ensures Within(w, Execute(e, w, t).0, 1)
  {
    AwaitWithin(e, w);
    var w1 := Await(e, w);
    SubmitGrows(w1.ledger, RequestOf(w.me, t), w1.clock, e.answers(w.calls));
    var (ledger, reply) := Submit(w1.ledger, RequestOf(w.me, t), w1.clock, e.answers(w.calls));
    GrewTransitive(w.ledger, w1.ledger, ledger);
    RecordWithin(w, w1.(ledger := ledger, sent := w.sent + 1), Requested(t, FromReply(reply)), 1);
  }

  lemma QueriesWithin(e: Env, w: World, account: Account, expectedFee: nat)
    ensures Within(w, QueryBalance(e, w, account).0, 0)
    ensures Within(w, QueryMintingAccount(e, w, expectedFee).0, 0)
  {
    AwaitWithin(e, w);
    var w1 := Await(e, w);
    RecordWithin(w, w1, AskedBalance(account, QueryBalance(e, w, account).1), 0);
    RecordWithin(w, w1, AskedMinting(QueryMintingAccount(e, w, expectedFee).1), 0);
  }

  /** `transfer(t, n)` issues at most max(n, 1) ledger transfers, plus one for a double step, whatever
      the ledger answers, `BadFee` included. */
  lemma {:induction false} TransferBudget(e: Env, w: World, t: Transfer, n: nat)
    ensures Within(w, RunTransfer(e, w, t, n).0, AtLeast1(n) + StageRank(t))
    decreases StageRank(t), n, 8
  {
    if Validate(w.me, t).Ok? {
      ExecuteBudget(e, w, t, n);
    }
  }

  lemma {:induction false} ExecuteBudget(e: Env, w: World, t: Transfer, n: nat)
    ensures Within(w, ExecuteTransfer(e, w, t, n).0, AtLeast1(n) + StageRank(t))
    decreases StageRank(t), n, 7
  {
    ExecuteWithin(e, w, t);
    var (w1, reply) := Execute(e, w, t);
    ContinueBudget(e, w1, t, n, FirstVerdict(reply));
    Chain(w, w1, ExecuteTransfer(e, w, t, n).0, 1, AtLeast1(n) - 1 + StageRank(t));
  }

  lemma {:induction false} RecoveryBudget(e: Env, w: World, t: Transfer, n: nat)
    ensures Within(w, ExecuteRecoveryTransfer(e, w, t, n).0, AtLeast1(n) + StageRank(t))
    decreases StageRank(t), n, 4
  {
    ExecuteWithin(e, w, t);
    var (w1, reply) := Execute(e, w, t);
    ContinueBudget(e, w1, t, n, RecoveryVerdict(reply));
    Chain(w, w1, ExecuteRecoveryTransfer(e, w, t, n).0, 1, AtLeast1(n) - 1 + StageRank(t));
  }

  lemma {:induction false} ContinueBudget(e: Env, w: World, t: Transfer, n: nat, v: Verdict)
    ensures Within(w, Continue(e, w, t, n, v).0, AtLeast1(n) - 1 + StageRank(t))
    decreases StageRank(t), n, 3
  {
    match v {
      case Done(tx) => CompleteBudget(e, w, t, tx, n);
      case Again => RetryBudget(e, w, t, Minus1(n));
      case Reprice(expected) => UpdateBudget(e, w, expected, t, Minus1(n));
      case Fail(_) =>
    }
  }

  function RetryCost(t: Transfer, n: nat): nat {
    if n == 0 then 0 else n + StageRank(t)
  }

  lemma {:induction false} RetryBudget(e: Env, w: World, t: Transfer, n: nat)
    ensures Within(w, Retry(e, w, t, n).0, RetryCost(t, n))
    decreases StageRank(t), n, if n == 0 then 1 else 5
  {
    if n != 0 {
      RecoveryBudget(e, w, t, n);
    }
  }

  lemma {:induction false} CompleteBudget(e: Env, w: World, t: Transfer, tx: nat, n: nat)
    ensures Within(w, Complete(e, w, t, tx, n).0, if IsFirstStep(t) then AtLeast1(n) else 0)
    decreases StageRank(t), n, 0
  {
    if IsFirstStep(t) {
      TransferBudget(e, w, SecondStep(t, t.kind.interim, w.clock), n);
    }
  }

  lemma {:induction false} UpdateBudget(e: Env, w: World, expectedFee: nat, t: Transfer, n: nat)
    ensures Within(w, UpdateConfigAndRetry(e, w, expectedFee, t, n).0, RetryCost(t, n))
    decreases StageRank(t), n, if n == 0 then 2 else 6
  {
    QueriesWithin(e, w, StepTo(t), expectedFee);
    if expectedFee == 0 || expectedFee == w.config.fee {
      var (w1, reply) := QueryMintingAccount(e, w, expectedFee);
      if reply.Ok? {
        var w2 := SetMintingAccount(e, w1, reply.value);
        var t2 := t.(fee := GetFee(w2.config, StepTo(t), StepFrom(w2.me, t)));
        RetryBudget(e, w2, t2, n);
        Chain(w, w2, Retry(e, w2, t2, n).0, 0, RetryCost(t, n));
      }
    } else {
      var w2 := SetFee(e, w, expectedFee);
      RetryBudget(e, w2, t.(fee := GetFee(w2.config, StepTo(t), StepFrom(w2.me, t))), n);
    }
  }

  /** Recovering one listed transfer costs at most `N_RETRIES` ledger transfers plus one. */
  lemma RecoverTxBudget(e: Env, w: World, t: Transfer)
    ensures Within(w, RecoverTx(e, w, t).0, N_RETRIES + StageRank(t))
  {
    if CanDeduplicate(w, t) {
      RecoveryBudget(e, w, t, N_RETRIES);
    } else if t.kind.DoubleStep? {
      RecoverOldBudget(e, w, t);
    }
  }

  lemma RecoverOldBudget(e: Env, w: World, t: Transfer)
    requires t.kind.DoubleStep?
    ensures Within(w, RecoverOldTx(e, w, t).0, N_RETRIES + StageRank(t))
  {
    QueriesWithin(e, w, t.kind.interim, 0);
    var w1 := QueryBalance(e, w, t.kind.interim).0;
    var balance := Funds(w1.ledger, t.kind.interim);
    if IsFirstStep(t) || balance == 0 {
      CompleteBudget(e, w1, t, UNKNOWN_TX_ID, N_RETRIES);
      Chain(w, w1, Complete(e, w1, t, UNKNOWN_TX_ID, N_RETRIES).0, 0, if IsFirstStep(t) then N_RETRIES else 0);
    } else {
      var renewed := t.(createdAt := w1.clock);
      RecoveryBudget(e, w1, renewed, N_RETRIES);
      Chain(w, w1, ExecuteRecoveryTransfer(e, w1, renewed, N_RETRIES).0, 0, N_RETRIES + StageRank(t));
    }
  }
}
