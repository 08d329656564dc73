/** Exactly-once outcome of a transfer against a deduplicating ledger.

    Hypotheses, all visible in the lemmas: no `BadFee` reply arrives during the attempt (`Steady`), the
    interim account of a first step is unused (`InterimUnused`), and the operation returns before the
    deduplication window of the transfer closes.  `TerminalFees` treats the attempts that are
    re-priced. */
module TerminalOutcome {
  import opened Wrappers
  import opened PaymentErrors
  import opened Transfers
  import opened Ledgers
  import opened Terminal
  import opened TerminalBudget

  predicate BadFeeReply(m: Moment) {
    m.call.Requested? && m.call.reply.Err? && m.call.reply.error.WrongFee?
  }

  /** No `BadFee` reply arrived on the way from `w` to `w'`. */
  ghost predicate Steady(w: World, w': World) {
    forall i :: |w.log| <= i < |w'.log| ==> !BadFeeReply(w'.log[i])
  }

  lemma SteadySplits(w: World, w1: World, w': World)
    requires Steady(w, w') && w.log <= w1.log <= w'.log
    ensures Steady(w, w1) && Steady(w1, w')
  {
    forall i | |w.log| <= i < |w1.log| ensures !BadFeeReply(w1.log[i]) {
      assert w'.log[i] == w1.log[i];
    }
  }

  ghost predicate InterimUnused(me: Principal, t: Transfer, blocks: seq<Request>) {
    IsFirstStep(t) ==>
      && FromAcc(me, t) != t.kind.interim
      && forall r :: r in blocks ==> r.from != t.kind.interim
  }

  ghost predicate Ready(w: World, t: Transfer) {
    Valid(w.me, t) && t.createdAt <= w.clock && InterimUnused(w.me, t, w.ledger.blocks)
  }

  predicate InWindow(t: Transfer, clock: nat) {
    clock < t.createdAt + DEDUP_PERIOD
  }

  /** An attempt at `t` that returned in time and without a `BadFee` reply. */
  ghost predicate Calm(w: World, t: Transfer, w': World) {
    InWindow(t, w'.clock) && Steady(w, w')
  }

  /** The transfer's own request unless it has been executed already. */
  function Owed(me: Principal, t: Transfer, blocks: seq<Request>): seq<Request> {
    if RequestOf(me, t) in blocks then [] else [RequestOf(me, t)]
  }

  function AfterSuccess(balances: map<Principal, nat>, t: Transfer): map<Principal, nat> {
    if t.operation == CreditOnSuccess && FinalAmount(t).Ok?
    then Credit(balances, t.caller, FinalAmount(t).value)
    else balances
  }

  function AfterFailure(balances: map<Principal, nat>, t: Transfer): map<Principal, nat> {
    if t.operation == CreditOnError then Credit(balances, t.caller, t.amount) else balances
  }

  /** Second step of `t` created at time `c`. */
  function StepAt(t: Transfer, c: nat): Transfer
    requires IsFirstStep(t)
  {
    SecondStep(t, t.kind.interim, c)
  }

  ghost predicate SettledTwice(w: World, t: Transfer, w': World, tx: nat, c: nat)
    requires IsFirstStep(t)
  {
    && w.clock <= c <= w'.clock
    && w'.ledger.blocks == w.ledger.blocks + Owed(w.me, t, w.ledger.blocks) + [RequestOf(w.me, StepAt(t, c))]
    && tx == |w'.ledger.blocks| - 1
  }

  /** Every step's movement is executed, each one once, the final amount is delivered and credited. */
  ghost predicate Settled(w: World, t: Transfer, w': World, tx: nat) {
    && FinalAmount(t).Ok?
    && w'.recovery == w.recovery
    && w'.balances == AfterSuccess(w.balances, t)
    && if IsFirstStep(t) then exists c :: SettledTwice(w, t, w', tx, c)
       else
         && w'.ledger.blocks == w.ledger.blocks + Owed(w.me, t, w.ledger.blocks)
         && tx < |w'.ledger.blocks| && w'.ledger.blocks[tx] == RequestOf(w.me, t)
  }

  ghost predicate ListedSecond(w: World, t: Transfer, w': World, c: nat)
    requires IsFirstStep(t)
  {
    && w.clock <= c <= w'.clock
    && w'.recovery == Push(w.recovery, StepAt(t, c))
    && var done := w.ledger.blocks + Owed(w.me, t, w.ledger.blocks);
       w'.ledger.blocks == done || w'.ledger.blocks == done + [RequestOf(w.me, StepAt(t, c))]
  }

  /** The transfer or its second step is on the recovery list; nobody has been credited. */
  ghost predicate Listed(w: World, t: Transfer, w': World) {
    && w'.balances == w.balances
    && (|| (&& w'.recovery == Push(w.recovery, t)
            && (w'.ledger.blocks == w.ledger.blocks
                || w'.ledger.blocks == w.ledger.blocks + Owed(w.me, t, w.ledger.blocks)))
        || (IsFirstStep(t) && exists c :: ListedSecond(w, t, w', c)))
  }

  /** Nothing was executed, now or earlier, and the caller has been refunded if that was agreed. */
  ghost predicate Failed(w: World, t: Transfer, w': World) {
    && !IsSecondStep(t)
    && RequestOf(w.me, t) !in w.ledger.blocks
    && w'.ledger.blocks == w.ledger.blocks
    && w'.recovery == w.recovery
    && w'.balances == AfterFailure(w.balances, t)
  }

  ghost predicate ThreeWays(w: World, t: Transfer, w': World, r: Outcome) {
    && w'.config == w.config
    && match r
       case Ok(tx) => Settled(w, t, w', tx)
       case Err(Recoverable(_)) => Listed(w, t, w')
       case Err(PaymentFailed(_)) => Failed(w, t, w')
       case Err(_) => false
  }

  /** One ledger call either leaves the ledger's blocks alone or appends the owed request. */
  ghost predicate OneCall(w: World, t: Transfer, w1: World) {
    && w1.me == w.me && w1.clock >= w.clock
    && w1.recovery == w.recovery && w1.balances == w.balances && w1.config == w.config
    && (w1.ledger.blocks == w.ledger.blocks
        || w1.ledger.blocks == w.ledger.blocks + Owed(w.me, t, w.ledger.blocks))
  }

  /** What a verdict may be relied upon to mean. */
  ghost predicate Justified(w: World, t: Transfer, v: Verdict) {
    match v
    case Done(tx) => tx < |w.ledger.blocks| && w.ledger.blocks[tx] == RequestOf(w.me, t)
    case Again => true
    case Reprice(_) => false
    case Fail(err) => err.TransferFailed? && RequestOf(w.me, t) !in w.ledger.blocks
  }

  lemma CallContract(e: Env, w: World, t: Transfer)
    requires Ready(w, t) && Calm(w, t, Execute(e, w, t).0)
    ensures var (w1, reply) := Execute(e, w, t);
            && OneCall(w, t, w1) && Ready(w1, t)
            && Justified(w1, t, RecoveryVerdict(reply))
            && (RequestOf(w.me, t) !in w.ledger.blocks ==> Justified(w1, t, FirstVerdict(reply)))
  {
    var w1 := Await(e, w);
    SubmitContract(w1.ledger, RequestOf(w.me, t), w1.clock, e.answers(w.calls));
    assert !BadFeeReply(Execute(e, w, t).0.log[|w.log|]);
  }

  /** The three ways compose with the call before them. */
  lemma AfterCall(w: World, t: Transfer, w1: World, w': World, r: Outcome)
    requires OneCall(w, t, w1) && ThreeWays(w1, t, w', r)
    ensures ThreeWays(w, t, w', r)
  {
    var b, b1, b' := w.ledger.blocks, w1.ledger.blocks, w'.ledger.blocks;
    assert b1 + Owed(w.me, t, b1) == b + Owed(w.me, t, b);
    match r {
      case Ok(tx) =>
        if IsFirstStep(t) {
          var c :| SettledTwice(w1, t, w', tx, c);
          assert SettledTwice(w, t, w', tx, c);
        }
      case Err(Recoverable(_)) =>
        if w'.recovery == Push(w1.recovery, t) && (b' == b1 || b' == b1 + Owed(w.me, t, b1)) {
        } else {
          var c :| ListedSecond(w1, t, w', c);
          assert ListedSecond(w, t, w', c);
        }
      case Err(PaymentFailed(_)) =>
    }
  }

  lemma {:induction false} TransferOutcome(e: Env, w: World, t: Transfer, n: nat)
    requires Ready(w, t) && RequestOf(w.me, t) !in w.ledger.blocks
    requires Calm(w, t, RunTransfer(e, w, t, n).0)
    ensures var (w', r) := RunTransfer(e, w, t, n); ThreeWays(w, t, w', r)
    decreases StageRank(t), n, 8
  {
    var (w1, reply) := Execute(e, w, t);
    var (w', r) := RunTransfer(e, w, t, n);
    assert (w', r) == Continue(e, w1, t, n, FirstVerdict(reply)) by {
      assert RunTransfer(e, w, t, n) == ExecuteTransfer(e, w, t, n);
    }
    ContinueBudget(e, w1, t, n, FirstVerdict(reply));
    SteadySplits(w, w1, w');
    CallContract(e, w, t);
    ContinueOutcome(e, w1, t, n, FirstVerdict(reply));
    AfterCall(w, t, w1, w', r);
  }

  lemma {:induction false} RecoveryOutcome(e: Env, w: World, t: Transfer, n: nat)
    requires Ready(w, t)
    requires Calm(w, t, ExecuteRecoveryTransfer(e, w, t, n).0)
    ensures var (w', r) := ExecuteRecoveryTransfer(e, w, t, n); ThreeWays(w, t, w', r)
    decreases StageRank(t), n, 4
  {
    var (w1, reply) := Execute(e, w, t);
    var (w', r) := ExecuteRecoveryTransfer(e, w, t, n);
    ContinueBudget(e, w1, t, n, RecoveryVerdict(reply));
    SteadySplits(w, w1, w');
    CallContract(e, w, t);
    ContinueOutcome(e, w1, t, n, RecoveryVerdict(reply));
    AfterCall(w, t, w1, w', r);
  }

  lemma {:induction false} ContinueOutcome(e: Env, w: World, t: Transfer, n: nat, v: Verdict)
    requires Ready(w, t) && Justified(w, t, v)
    requires Calm(w, t, Continue(e, w, t, n, v).0)
    ensures var (w', r) := Continue(e, w, t, n, v); ThreeWays(w, t, w', r)
    decreases StageRank(t), n, 3
  {
    match v {
      case Done(tx) => CompleteOutcome(e, w, t, tx, n);
      case Again => RetryOutcome(e, w, t, Minus1(n));
      case Reprice(_) => assert false;
      case Fail(err) =>
    }
  }

  lemma {:induction false} RetryOutcome(e: Env, w: World, t: Transfer, n: nat)
    requires Ready(w, t)
    requires Calm(w, t, Retry(e, w, t, n).0)
    ensures var (w', r) := Retry(e, w, t, n); ThreeWays(w, t, w', r)
    decreases StageRank(t), n, if n == 0 then 1 else 5
  {
    if n != 0 {
      RecoveryOutcome(e, w, t, n);
    }
  }

  lemma {:induction false} CompleteOutcome(e: Env, w: World, t: Transfer, tx: nat, n: nat)
    requires Ready(w, t) && Justified(w, t, Done(tx))
    requires Calm(w, t, Complete(e, w, t, tx, n).0)
    ensures var (w', r) := Complete(e, w, t, tx, n); ThreeWays(w, t, w', r)
    decreases StageRank(t), n, 0
  {
    var (w', r) := Complete(e, w, t, tx, n);
    assert RequestOf(w.me, t) in w.ledger.blocks;
    if IsFirstStep(t) {
      SecondLeg(e, w, t, n);
    } else {
      ChargedExactly(w.me, t);
    }
  }

  /** A first step known to be executed continues with a second step that has never been requested. */
  lemma {:induction false} SecondLeg(e: Env, w: World, t: Transfer, n: nat)
    requires Ready(w, t) && IsFirstStep(t) && RequestOf(w.me, t) in w.ledger.blocks
    requires Calm(w, StepAt(t, w.clock), RunTransfer(e, w, StepAt(t, w.clock), n).0)
    ensures var (w', r) := RunTransfer(e, w, StepAt(t, w.clock), n); ThreeWays(w, t, w', r)
    ensures var r := RunTransfer(e, w, StepAt(t, w.clock), n).1; r.Ok? || r.error.Recoverable?
    decreases 0, n, 9
  {
    var s := StepAt(t, w.clock);
    SecondStepAgrees(w.me, t, w.clock);
    TransferBudget(e, w, s, n);
    TransferOutcome(e, w, s, n);
    var (w', r) := RunTransfer(e, w, s, n);
    match r {
      case Ok(tx) => assert SettledTwice(w, t, w', tx, w.clock);
      case Err(Recoverable(_)) => assert ListedSecond(w, t, w', w.clock);
      case Err(PaymentFailed(_)) => assert false;
    }
  }

  // ---------------------------------------------------------------- recognition

  /** The answer settles what a retry of an executed request makes of it. */
  predicate Decides(a: Answer) {
    a.fate.Served? || a.fate.Refused?
  }

  /** The first deciding call among the attempts that are left, from call `k` on. */
  function Decision(e: Env, k: nat, n: nat): Option<nat>
    decreases n
  {
    if Decides(e.answers(k)) then Some(k) else if n <= 1 then None else Decision(e, k + 1, n - 1)
  }

  ghost predicate SameBooks(w: World, w1: World) {
    && w1.me == w.me && w1.config == w.config && w1.balances == w.balances && w1.recovery == w.recovery
    && w1.ledger.blocks == w.ledger.blocks
  }

  /** A retried request that has been executed is recognised, and completed without a further movement,
      if and only if the deciding call is not served with another fee; then it is re-priced instead, and
      without a deciding call it stays listed. */
  lemma {:induction false} RecognisedIff(e: Env, w: World, t: Transfer, n: nat) returns (w1: World, m: nat, tx: nat)
    requires RequestOf(w.me, t) in w.ledger.blocks && InWindow(t, ExecuteRecoveryTransfer(e, w, t, n).0.clock)
    ensures SameBooks(w, w1) && m <= n && tx < |w.ledger.blocks| && w.ledger.blocks[tx] == RequestOf(w.me, t)
    ensures match Decision(e, w.calls, n)
            case None =>
              ExecuteRecoveryTransfer(e, w, t, n) == (w1.(recovery := Push(w.recovery, t)), Err(Recoverable(IcError)))
            case Some(k) =>
              && w1.calls == k + 1
              && var a := e.answers(k);
                 ExecuteRecoveryTransfer(e, w, t, n) ==
                   if a.fate.Served? && a.fee != t.fee then UpdateConfigAndRetry(e, w1, a.fee, t, m)
                   else Complete(e, w1, t, tx, m)
    decreases n
  {
    var (w2, reply) := Execute(e, w, t);
    var v := RecoveryVerdict(reply);
    ContinueBudget(e, w2, t, n, v);
    tx := RetriedCall(e, w, t);
    assert ExecuteRecoveryTransfer(e, w, t, n) == Continue(e, w2, t, n, v);
    w1, m := w2, if v.Done? then n else Minus1(n);
    if !Decides(e.answers(w.calls)) {
      assert Continue(e, w2, t, n, Again) == Retry(e, w2, t, Minus1(n));
      if n > 1 {
        assert Retry(e, w2, t, n - 1) == ExecuteRecoveryTransfer(e, w2, t, n - 1);
        w1, m, tx := RecognisedIff(e, w2, t, n - 1);
      }
    }
  }

  lemma RetriedCall(e: Env, w: World, t: Transfer) returns (tx: nat)
    requires RequestOf(w.me, t) in w.ledger.blocks && InWindow(t, Execute(e, w, t).0.clock)
    ensures var (w2, reply) := Execute(e, w, t);
            var a := e.answers(w.calls);
            && SameBooks(w, w2) && w2.calls == w.calls + 1
            && tx < |w.ledger.blocks| && w.ledger.blocks[tx] == RequestOf(w.me, t)
            && RecoveryVerdict(reply) == if !Decides(a) then Again
                                         else if a.fate.Served? && a.fee != t.fee then Reprice(a.fee) else Done(tx)
  {
    tx := IndexOf(w.ledger.blocks, RequestOf(w.me, t));
  }

  /** The whole statement for `transfer`: an invalid transfer changes nothing; any other ends in
      exactly one of the three ways, for every reply sequence. */
  lemma TransferExactlyOnce(e: Env, w: World, t: Transfer, n: nat)
    requires t.createdAt <= w.clock
    requires InterimUnused(w.me, t, w.ledger.blocks) && RequestOf(w.me, t) !in w.ledger.blocks
    requires Calm(w, t, RunTransfer(e, w, t, n).0)
    ensures var (w', r) := RunTransfer(e, w, t, n);
            if !Valid(w.me, t) then w' == w && r.Err? && r.error.ParametersRejected?
            else ThreeWays(w, t, w', r)
  {
    if Valid(w.me, t) {
      TransferOutcome(e, w, t, n);
    }
  }

  /** In a settled transfer that had not been requested before, no movement is made twice. */
  lemma SettledMovesOnce(w: World, t: Transfer, w': World, tx: nat)
    requires Settled(w, t, w', tx) && RequestOf(w.me, t) !in w.ledger.blocks && InterimUnused(w.me, t, w.ledger.blocks)
    ensures multiset(w'.ledger.blocks)[RequestOf(w.me, t)] == 1
    ensures tx < |w'.ledger.blocks| && multiset(w'.ledger.blocks)[w'.ledger.blocks[tx]] == 1
  {
    var b := w.ledger.blocks;
    if IsFirstStep(t) {
      var c :| SettledTwice(w, t, w', tx, c);
      var r, s := RequestOf(w.me, t), RequestOf(w.me, StepAt(t, c));
      assert s.from == t.kind.interim != r.from && s !in b;
      assert w'.ledger.blocks == b + [r] + [s];
      assert multiset(w'.ledger.blocks) == multiset(b) + multiset{r} + multiset{s};
    } else {
      assert multiset(w'.ledger.blocks) == multiset(b) + multiset{RequestOf(w.me, t)};
    }
  }

  /** Recovery of an old first step through its interim account: when the account is non-empty exactly
      if the first step was executed, the transfer ends in one of the three ways as well. */
  lemma OldFirstStepOutcome(e: Env, w: World, t: Transfer)
    requires Ready(w, t) && IsFirstStep(t) && !CanDeduplicate(w, t)
    requires QueryFailure(e.answers(w.calls)).None?
    requires Funds(Asked(e, w, t).ledger, t.kind.interim) > 0 <==> RequestOf(w.me, t) in w.ledger.blocks
    requires RecoverTx(e, w, t).0.clock < w.clock + DEDUP_PERIOD && Steady(w, RecoverTx(e, w, t).0)
    ensures var (w', r) := RecoverTx(e, w, t); ThreeWays(w, t, w', r)
  {
    var w1 := Asked(e, w, t);
    var (w', r) := RecoverTx(e, w, t);
    QueriesWithin(e, w, t.kind.interim, 0);
    if Funds(w1.ledger, t.kind.interim) == 0 {
    } else {
      assert (w', r) == Complete(e, w1, t, UNKNOWN_TX_ID, N_RETRIES);
      CompleteBudget(e, w1, t, UNKNOWN_TX_ID, N_RETRIES);
      SteadySplits(w, w1, w');
      SecondLeg(e, w1, t, N_RETRIES);
      AfterCall(w, t, w1, w', r);
    }
  }

  /** Recovery of an old second step: an empty interim account means it was executed, so it completes
      with the unknown id and one credit; otherwise it is renewed and ends like a fresh second step. */
  lemma OldSecondStepOutcome(e: Env, w: World, t: Transfer)
    requires Ready(w, t) && IsSecondStep(t) && !CanDeduplicate(w, t)
    requires QueryFailure(e.answers(w.calls)).None?
    requires RecoverTx(e, w, t).0.clock < w.clock + DEDUP_PERIOD && Steady(w, RecoverTx(e, w, t).0)
    ensures var (w', r) := RecoverTx(e, w, t);
            var w1 := Asked(e, w, t);
            if Funds(w1.ledger, t.kind.interim) == 0
            then w' == w1.(balances := AfterSuccess(w.balances, t)) && r == Ok(UNKNOWN_TX_ID)
            else ThreeWays(w1, t.(createdAt := w1.clock), w', r)
  {
    var w1 := Asked(e, w, t);
    QueriesWithin(e, w, t.kind.interim, 0);
    ChargedExactly(w.me, t);
    if Funds(w1.ledger, t.kind.interim) != 0 {
      RecoveryBudget(e, w1, t.(createdAt := w1.clock), N_RETRIES);
      SteadySplits(w, w1, RecoverTx(e, w, t).0);
      RecoveryOutcome(e, w1, t.(createdAt := w1.clock), N_RETRIES);
    }
  }
}
