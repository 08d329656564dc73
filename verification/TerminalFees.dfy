/** Fee changes: when a refund after a refusal is safe, and how a transfer ends whose fee is not the one
    the ledger asks for. */
module TerminalFees {
  import opened Wrappers
  import opened PaymentErrors
  import opened Transfers
  import opened Ledgers
  import opened Terminal
  import opened TerminalBudget
  import opened TerminalOutcome
  import opened TerminalSolvency
  import opened TerminalRecovery

  // ---------------------------------------------------------------- refusals

  /** No request for the current step of `t` is executed, at whatever fee. */
  ghost predicate NothingMoved(w: World, t: Transfer) {
    forall g: nat :: RequestOf(w.me, AtFee(t, g)) !in w.ledger.blocks
  }

  /** Before the attempt, only the request at the current fee may have been executed. */
  ghost predicate OnlyCurrent(w: World, t: Transfer) {
    forall g: nat :: g != t.fee ==> RequestOf(w.me, AtFee(t, g)) !in w.ledger.blocks
  }

  /** A lost reply to a request for `t` at another fee than `f`. */
  predicate LostElsewhere(t: Transfer, m: Moment, f: nat) {
    LostReply(m) && Repriced(t, m.call.t) && m.call.t.fee != f
  }

  /** No `BadFee` reply comes after a lost one: no re-pricing separates a request that may have been executed
      from the refusal. */
  ghost predicate NoRepriceAfterLoss(w: World, w': World) {
    forall i :: |w.log| <= i < |w'.log| && LostReply(w'.log[i]) ==> NoBadFeeAfter(w', i)
  }

  /** A refused transfer has moved nothing exactly if neither its earlier request nor one with a lost reply
      was executed at another fee than the refused one. */
  lemma RefusalSafeIff(w: World, t: Transfer, w': World)
    requires GivenUp(w, t, w') && InWindow(t, w'.clock) && w'.me == w.me && w.ledger.blocks <= w'.ledger.blocks
    requires OnlyCurrent(w, t)
    ensures var f := Last(w').call.t.fee;
            NothingMoved(w', t) <==>
            && (t.fee != f ==> RequestOf(w.me, t) !in w.ledger.blocks)
            && forall i :: |w.log| <= i < |w'.log| && LostElsewhere(t, w'.log[i], f) ==>
                 RequestOf(w.me, w'.log[i].call.t) !in w'.ledger.blocks
  {
    var f := Last(w').call.t.fee;
    assert AtFee(t, t.fee) == t;
    if NothingMoved(w', t) {
      assert RequestOf(w.me, AtFee(t, t.fee)) !in w'.ledger.blocks;
      forall i | |w.log| <= i < |w'.log| && LostElsewhere(t, w'.log[i], f)
        ensures RequestOf(w.me, w'.log[i].call.t) !in w'.ledger.blocks
      {
        assert RequestOf(w.me, AtFee(t, w'.log[i].call.t.fee)) !in w'.ledger.blocks;
      }
    } else {
      var g: nat :| RequestOf(w.me, AtFee(t, g)) in w'.ledger.blocks;
      assert g != f;
      assert RequestOf(w.me, AtFee(t, g)) in w.ledger.blocks || MaybeExecuted(w, w', AtFee(t, g));
    }
  }

  /** A refusal is safe when every request that may have been executed is the refused one. */
  lemma RefusalSafe(w: World, t: Transfer, w': World)
    requires GivenUp(w, t, w') && InWindow(t, w'.clock) && w'.me == w.me && w.ledger.blocks <= w'.ledger.blocks
    requires OnlyCurrent(w, t) && NoRepriceAfterLoss(w, w')
    requires RequestOf(w.me, t) in w.ledger.blocks ==> Steady(w, w')
    ensures NothingMoved(w', t)
  {
    RefusalSafeIff(w, t, w');
  }

  /** A refused and refunded `transfer` has moved nothing, provided no `BadFee` reply followed a lost one. */
  lemma TransferRefused(e: Env, w: World, t: Transfer, n: nat)
    requires Valid(w.me, t) && NothingMoved(w, t) && InWindow(t, RunTransfer(e, w, t, n).0.clock)
    requires IsGivenUp(RunTransfer(e, w, t, n).1) && NoRepriceAfterLoss(w, RunTransfer(e, w, t, n).0)
    ensures var w' := RunTransfer(e, w, t, n).0; NothingMoved(w', t) && w'.balances == AfterFailure(w.balances, t)
  {
    assert AtFee(t, t.fee) == t;
    assert RequestOf(w.me, AtFee(t, t.fee)) !in w.ledger.blocks;
    var rest := TransferAccounted(e, w, t, n);
    TransferBudget(e, w, t, n);
    RefusalSafe(w, t, RunTransfer(e, w, t, n).0);
  }

  /** The same for a recovered transfer; one that may already be executed must not be re-priced at all. */
  lemma RecoveryRefused(e: Env, w: World, t: Transfer, n: nat)
    requires OnlyCurrent(w, t) && InWindow(t, ExecuteRecoveryTransfer(e, w, t, n).0.clock)
    requires IsGivenUp(ExecuteRecoveryTransfer(e, w, t, n).1)
    requires NoRepriceAfterLoss(w, ExecuteRecoveryTransfer(e, w, t, n).0)
    requires RequestOf(w.me, t) in w.ledger.blocks ==> Steady(w, ExecuteRecoveryTransfer(e, w, t, n).0)
    ensures var w' := ExecuteRecoveryTransfer(e, w, t, n).0;
            NothingMoved(w', t) && w'.balances == AfterFailure(w.balances, t)
  {
    var rest := RecoveryAccounted(e, w, t, n);
    RecoveryBudget(e, w, t, n);
    RefusalSafe(w, t, ExecuteRecoveryTransfer(e, w, t, n).0);
  }

  /** The first request is executed behind a lost reply, the second one answered with the new fee `f`, and the
      re-priced one refused. */
  function Hiding(k: nat, fee: nat, f: nat): Env {
    Env((j: nat) => Answer(0, if j == k then fee else f,
                           if j == k then Lost(SysTransient, true) else if j == k + 1 then Served else Refused(TooOld),
                           Account(MANAGEMENT_CANISTER, Default), 0, None),
        (ids: set<TransferId>) => [])
  }

  /** The condition is needed for every transfer: with a `BadFee` reply after a lost one, replies exist for which
      it is executed and nevertheless refused and refunded. */
  lemma RefundAtRisk(w: World, t: Transfer, n: nat, f: nat)
    requires Valid(w.me, t) && !IsSecondStep(t) && n >= 3 && InWindow(t, w.clock) && NothingMoved(w, t)
    requires CanPay(w.ledger, RequestOf(w.me, t)) && f !in {0, t.fee, w.config.fee}
    requires w.config.mintingAccount !in {StepFrom(w.me, t), StepTo(t)}
    ensures var (w', r) := RunTransfer(Hiding(w.calls, t.fee, f), w, t, n);
            && IsGivenUp(r) && !NothingMoved(w', t) && InWindow(t, w'.clock)
            && w'.balances == AfterFailure(w.balances, t) && w'.ledger.blocks == w.ledger.blocks + [RequestOf(w.me, t)]
  {
    var e, u := Hiding(w.calls, t.fee, f), AtFee(t, f);
    assert AtFee(t, t.fee) == t && RequestOf(w.me, AtFee(t, t.fee)) !in w.ledger.blocks;
    var w1 := HiddenRequest(e, w, t, n);
    var w2 := SetFee(e, w1, f);
    assert RunTransfer(e, w, t, n) == Retry(e, w2, u, n - 2) == ExecuteRecoveryTransfer(e, w2, u, n - 2);
    assert RequestOf(w.me, u).fee != RequestOf(w.me, t).fee && RequestOf(w.me, AtFee(t, f)) !in w.ledger.blocks;
    var (w3, reply) := Execute(e, w2, u);
    assert reply == Err(TransferFailed(Rejected(TooOld))) && w3.ledger.blocks == w2.ledger.blocks;
    assert ExecuteRecoveryTransfer(e, w2, u, n - 2) == Reject(w3, u, TransferFailed(Rejected(TooOld)));
    assert RequestOf(w.me, AtFee(t, t.fee)) in w3.ledger.blocks;
  }

  /** The world after the lost call and the `BadFee` reply. */
  lemma HiddenRequest(e: Env, w: World, t: Transfer, n: nat) returns (w1: World)
    requires Valid(w.me, t) && n >= 3 && InWindow(t, w.clock) && RequestOf(w.me, t) !in w.ledger.blocks
    requires CanPay(w.ledger, RequestOf(w.me, t))
    requires var a, b := e.answers(w.calls), e.answers(w.calls + 1);
             && a.fate == Lost(SysTransient, true) && a.fee == t.fee && a.elapsed == 0
             && b.fate == Served && b.fee != t.fee && b.elapsed == 0
    ensures RunTransfer(e, w, t, n) == UpdateConfigAndRetry(e, w1, e.answers(w.calls + 1).fee, t, n - 2)
    ensures w1.me == w.me && w1.clock == w.clock && w1.config == w.config && w1.calls == w.calls + 2
    ensures w1.balances == w.balances && w1.ledger.blocks == w.ledger.blocks + [RequestOf(w.me, t)]
  {
    var (w0, r0) := Execute(e, w, t);
    assert CanPay(Await(e, w).ledger, RequestOf(w.me, t));
    assert r0 == Err(MaybeFailed) && w0.ledger.blocks == w.ledger.blocks + [RequestOf(w.me, t)];
    var r1: Result<nat, InternalPaymentError>;
    w1, r1 := Execute(e, w0, t).0, Execute(e, w0, t).1;
    assert r1 == Err(WrongFee(e.answers(w.calls + 1).fee));
    assert RunTransfer(e, w, t, n) == ExecuteTransfer(e, w, t, n) == Retry(e, w0, t, n - 1);
    assert Retry(e, w0, t, n - 1) == ExecuteRecoveryTransfer(e, w0, t, n - 1)
        == UpdateConfigAndRetry(e, w1, e.answers(w.calls + 1).fee, t, n - 2);
  }

  // ---------------------------------------------------------------- a wrong fee

  /** The amount covers the fee `f` as often as the transfer will pay it. */
  predicate Covers(t: Transfer, f: nat) {
    t.amount > (if IsFirstStep(t) then f + f else f)
  }

  /** The minting account, configured or reported, is not an endpoint of the current step. */
  ghost predicate NoMinter(e: Env, w: World, t: Transfer) {
    && var ends := {StepFrom(w.me, t), StepTo(t)};
       w.config.mintingAccount !in ends && forall k :: Minter(e.answers(k)) !in ends
  }

  function Minter(a: Answer): Account {
    match a.minting case Some(acc) => acc case None => Account(MANAGEMENT_CANISTER, Default)
  }

  /** The configured fee is `f`, the list has been re-priced accordingly, and nothing has moved. */
  ghost predicate Corrected(e: Env, w: World, f: nat, w2: World) {
    && w2.me == w.me && w2.ledger.blocks == w.ledger.blocks && w2.balances == w.balances && w2.clock >= w.clock
    && w2.config.fee == f && w2.recovery == UpdateRecoveryFees(e, w.(config := w2.config)).recovery
  }

  ghost predicate EndsAs(e: Env, w: World, u: Transfer, w2: World, w': World, r: Outcome) {
    Corrected(e, w, u.fee, w2) && ThreeWays(w2, u, w', r)
  }

  /** Without an answer about the fee, listed or given up with nothing executed; else as the re-priced transfer. */
  ghost predicate GoodEnd(e: Env, w: World, t: Transfer, f: nat, w': World, r: Outcome) {
    || (ThreeWays(w, t, w', r) && w'.ledger.blocks == w.ledger.blocks)
    || exists w2 :: EndsAs(e, w, AtFee(t, f), w2, w', r)
  }

  /** A transfer at a fee that is neither the ledger's nor executed. */
  ghost predicate OffFee(e: Env, w: World, t: Transfer, f: nat) {
    && FixedFee(e, f) && f != t.fee && f != 0 && NoMinter(e, w, t)
    && RequestOf(w.me, t) !in w.ledger.blocks
    && t.createdAt <= w.clock && InterimUnused(w.me, t, w.ledger.blocks)
  }

  /** One call at the wrong fee executes nothing. */
  lemma WrongFeeCall(e: Env, w: World, t: Transfer, f: nat)
    requires OffFee(e, w, t, f) && InWindow(t, Execute(e, w, t).0.clock)
    ensures var (w1, reply) := Execute(e, w, t);
            && OneCall(w, t, w1) && w1.ledger.blocks == w.ledger.blocks && OffFee(e, w1, t, f) && w.log <= w1.log
            && Settles(t, FirstVerdict(reply), f) && Settles(t, RecoveryVerdict(reply), f)
  {
    assert e.answers(w.calls).fee == f;
    SubmitContract(Await(e, w).ledger, RequestOf(w.me, t), Await(e, w).clock, e.answers(w.calls));
  }

  predicate Settles(t: Transfer, v: Verdict, f: nat) {
    match v
    case Done(_) => false
    case Again => true
    case Reprice(expected) => expected == f
    case Fail(err) => err.TransferFailed?
  }

  lemma GoodEndBefore(e: Env, w: World, t: Transfer, f: nat, w1: World, w': World, r: Outcome)
    requires OneCall(w, t, w1) && w1.ledger.blocks == w.ledger.blocks && w.log <= w1.log
    requires GoodEnd(e, w1, t, f, w', r)
    ensures GoodEnd(e, w, t, f, w', r)
  {
    if ThreeWays(w1, t, w', r) && w'.ledger.blocks == w1.ledger.blocks {
      AfterCall(w, t, w1, w', r);
    } else {
      var w2 :| EndsAs(e, w1, AtFee(t, f), w2, w', r);
      assert EndsAs(e, w, AtFee(t, f), w2, w', r);
    }
  }

  lemma {:induction false} WrongFeeContinue(e: Env, w: World, t: Transfer, n: nat, f: nat, v: Verdict)
    requires OffFee(e, w, t, f) && Covers(t, f) && FromAcc(w.me, t) != t.to && Settles(t, v, f) && f != w.config.fee
    requires InWindow(t, Continue(e, w, t, n, v).0.clock)
    ensures var (w', r) := Continue(e, w, t, n, v); GoodEnd(e, w, t, f, w', r)
    decreases n
  {
    var (w', r) := Continue(e, w, t, n, v);
    match v {
      case Again =>
        if n > 1 {
          var (w1, reply) := Execute(e, w, t);
          assert Continue(e, w, t, n, v) == ExecuteRecoveryTransfer(e, w, t, n - 1)
              == Continue(e, w1, t, n - 1, RecoveryVerdict(reply));
          ContinueBudget(e, w1, t, n - 1, RecoveryVerdict(reply));
          WrongFeeCall(e, w, t, f);
          WrongFeeContinue(e, w1, t, n - 1, f, RecoveryVerdict(reply));
          GoodEndBefore(e, w, t, f, w1, w', r);
        }
      case Reprice(_) => CorrectedEnd(e, w, t, Minus1(n), f);
      case Fail(_) =>
    }
  }

  /** The re-priced transfer ends in one of the three ways. */
  lemma CorrectedEnd(e: Env, w: World, t: Transfer, n: nat, f: nat)
    requires OffFee(e, w, t, f) && Covers(t, f) && FromAcc(w.me, t) != t.to && f != w.config.fee
    requires InWindow(t, UpdateConfigAndRetry(e, w, f, t, n).0.clock)
    ensures var (w', r) := UpdateConfigAndRetry(e, w, f, t, n); GoodEnd(e, w, t, f, w', r)
  {
    var (w', r) := UpdateConfigAndRetry(e, w, f, t, n);
    var w2, u := SetFee(e, w, f), AtFee(t, f);
    assert (w', r) == Retry(e, w2, u, n);
    AcceptedIffPayable(w.me, u);
    RightFeeRetry(e, w2, u, n);
    assert EndsAs(e, w, u, w2, w', r);
  }

  lemma RightFeeRetry(e: Env, w: World, u: Transfer, n: nat)
    requires FixedFee(e, u.fee) && Ready(w, u) && InWindow(u, Retry(e, w, u, n).0.clock)
    ensures var (w', r) := Retry(e, w, u, n); ThreeWays(w, u, w', r)
  {
    if n > 0 {
      var rest := RecoveryAccounted(e, w, u, n);
      RecoveryOutcome(e, w, u, n);
    }
  }

  /** If the amount covers the ledger's fee and that is not the configured one, a transfer at a third fee ends
      well, for every reply sequence. */
  lemma WrongFeeOutcome(e: Env, w: World, t: Transfer, n: nat, f: nat)
    requires OffFee(e, w, t, f) && Valid(w.me, t) && Covers(t, f) && f != w.config.fee
    requires InWindow(t, RunTransfer(e, w, t, n).0.clock)
    ensures var (w', r) := RunTransfer(e, w, t, n); GoodEnd(e, w, t, f, w', r)
  {
    var (w1, reply) := Execute(e, w, t);
    var (w', r) := RunTransfer(e, w, t, n);
    assert RunTransfer(e, w, t, n) == ExecuteTransfer(e, w, t, n) == Continue(e, w1, t, n, FirstVerdict(reply));
    ContinueBudget(e, w1, t, n, FirstVerdict(reply));
    WrongFeeCall(e, w, t, f);
    WrongFeeContinue(e, w1, t, n, f, FirstVerdict(reply));
    GoodEndBefore(e, w, t, f, w1, w', r);
  }

  // ---------------------------------------------------------------- the condition is exact

  /** Every call is served at once, at fee `f`. */
  function Prompt(f: nat, minter: Account): Env {
    Env((k: nat) => Answer(0, f, Served, Account(MANAGEMENT_CANISTER, Default), 0, Some(minter)),
        (ids: set<TransferId>) => [])
  }

  lemma PromptReprice(w: World, t: Transfer, n: nat, f: nat) returns (w2: World)
    requires var e := Prompt(f, w.config.mintingAccount); OffFee(e, w, t, f)
    requires Valid(w.me, t) && n >= 2
    ensures var e := Prompt(f, w.config.mintingAccount);
            RunTransfer(e, w, t, n) == ExecuteRecoveryTransfer(e, w2, AtFee(t, f), n - 1)
    ensures w2.me == w.me && w2.clock == w.clock && w2.ledger.blocks == w.ledger.blocks
    ensures forall a :: Funds(w2.ledger, a) == Funds(w.ledger, a)
  {
    var e, u := Prompt(f, w.config.mintingAccount), AtFee(t, f);
    var (w1, reply) := Execute(e, w, t);
    assert reply == Err(WrongFee(f)) && w1.clock == w.clock && w1.config == w.config;
    assert RunTransfer(e, w, t, n) == ExecuteTransfer(e, w, t, n) == UpdateConfigAndRetry(e, w1, f, t, n - 1);
    if f == w.config.fee {
      w2 := SetMintingAccount(e, QueryMintingAccount(e, w1, f).0, w.config.mintingAccount);
    } else {
      w2 := SetFee(e, w1, f);
    }
    assert UpdateConfigAndRetry(e, w1, f, t, n - 1) == Retry(e, w2, u, n - 1);
    assert Retry(e, w2, u, n - 1) == ExecuteRecoveryTransfer(e, w2, u, n - 1);
  }

  lemma PromptPays(w: World, u: Transfer, n: nat, minter: Account)
    requires InWindow(u, w.clock) && RequestOf(w.me, u) !in w.ledger.blocks && CanPay(w.ledger, RequestOf(w.me, u))
    ensures var e := Prompt(u.fee, minter);
            var w1 := Execute(e, w, u).0;
            && ExecuteRecoveryTransfer(e, w, u, n) == Complete(e, w1, u, |w.ledger.blocks|, n)
            && w1.me == w.me && w1.clock == w.clock && w1.ledger.blocks == w.ledger.blocks + [RequestOf(w.me, u)]
  {
    var e := Prompt(u.fee, minter);
    assert CanPay(Await(e, w).ledger, RequestOf(w.me, u));
    assert Execute(e, w, u).1 == Ok(|w.ledger.blocks|);
  }

  /** If it does not, and the ledger answers, the re-priced request is executed, but not as a transfer: a first
      step's tokens are stranded, and a last step delivers nothing and is charged more than its amount. */
  lemma UnderpaidEnd(w: World, t: Transfer, n: nat, f: nat)
    requires var e := Prompt(f, w.config.mintingAccount); OffFee(e, w, t, f)
    requires Valid(w.me, t) && !Covers(t, f) && n >= 2 && InWindow(t, w.clock)
    requires RequestOf(w.me, AtFee(t, f)) !in w.ledger.blocks && CanPay(w.ledger, RequestOf(w.me, AtFee(t, f)))
    ensures var e := Prompt(f, w.config.mintingAccount);
            var (w', r) := RunTransfer(e, w, t, n);
            && InWindow(t, w'.clock)
            && w'.ledger.blocks == w.ledger.blocks + [RequestOf(w.me, AtFee(t, f))]
            && (if IsFirstStep(t) then r.Err? && r.error.ParametersRejected? else r == Ok(|w.ledger.blocks|))
            && !GoodEnd(e, w, t, f, w', r)
  {
    var e, u := Prompt(f, w.config.mintingAccount), AtFee(t, f);
    var w2 := PromptReprice(w, t, n, f);
    PromptPays(w2, u, n - 1, w.config.mintingAccount);
    AcceptedIffPayable(w.me, u);
    var (w', r) := RunTransfer(e, w, t, n);
    var w3 := Execute(e, w2, u).0;
    if IsFirstStep(t) {
      SecondStepAcceptedIff(w.me, u, w3.clock);
    } else {
      var b := w.ledger.blocks;
      assert RequestOf(w.me, u).fee != RequestOf(w.me, t).fee;
      assert (b + [RequestOf(w.me, u)])[|b|] != (b + [RequestOf(w.me, t)])[|b|];
      assert FinalAmount(u).Err?;
    }
  }

  /** The first call is answered `BadFee(f)`; then the ledger fails. */
  function Failing(k: nat, f: nat, minter: Account): Env {
    Env((j: nat) => Answer(0, f, if j == k then Served else Trapped, minter, 0, Some(minter)),
        (ids: set<TransferId>) => [])
  }

  /** A ledger fee that is already configured makes the terminal ask for the minting account; if that fails, the
      transfer is neither executed nor listed nor refunded. */
  lemma MinterEnd(e: Env, w: World, t: Transfer, n: nat, f: nat)
    requires FixedFee(e, f) && f == w.config.fee && f != t.fee && f != 0
    requires e.answers(w.calls).fate == Served && e.answers(w.calls).elapsed == 0
    requires e.answers(w.calls + 1).fate == Trapped && e.answers(w.calls + 1).elapsed == 0
    requires Valid(w.me, t) && InWindow(t, w.clock)
    ensures var (w', r) := RunTransfer(e, w, t, n);
            && InWindow(t, w'.clock) && r == Err(FeeMismatch(f))
            && w'.ledger.blocks == w.ledger.blocks && w'.recovery == w.recovery && w'.balances == w.balances
            && !GoodEnd(e, w, t, f, w', r)
  {
    assert e.answers(w.calls).fee == f;
    var (w1, reply) := Execute(e, w, t);
    assert reply == Err(WrongFee(f)) && w1.config == w.config && w1.clock == w.clock;
    assert RunTransfer(e, w, t, n) == ExecuteTransfer(e, w, t, n) == UpdateConfigAndRetry(e, w1, f, t, Minus1(n));
  }

  /** Whether a transfer at a fee that the ledger does not ask for ends well for every reply sequence can be told
      before the call: it does exactly if the amount covers the ledger's fee for every step and the ledger's fee
      is not the configured one. */
  lemma WrongFeeSafeIff(w: World, t: Transfer, n: nat, f: nat)
    requires Valid(w.me, t) && n >= 2 && InWindow(t, w.clock)
    requires OffFee(Prompt(f, w.config.mintingAccount), w, t, f)
    requires RequestOf(w.me, AtFee(t, f)) !in w.ledger.blocks && CanPay(w.ledger, RequestOf(w.me, AtFee(t, f)))
    ensures (forall e: Env :: OffFee(e, w, t, f) && InWindow(t, RunTransfer(e, w, t, n).0.clock) ==>
               GoodEnd(e, w, t, f, RunTransfer(e, w, t, n).0, RunTransfer(e, w, t, n).1))
            <==> Covers(t, f) && f != w.config.fee
  {
    if !Covers(t, f) {
      UnderpaidEnd(w, t, n, f);
    } else if f == w.config.fee {
      var e := FailingFor(w, t, f);
      MinterEnd(e, w, t, n, f);
    } else {
      forall e: Env | OffFee(e, w, t, f) && InWindow(t, RunTransfer(e, w, t, n).0.clock)
        ensures GoodEnd(e, w, t, f, RunTransfer(e, w, t, n).0, RunTransfer(e, w, t, n).1)
      {
        WrongFeeOutcome(e, w, t, n, f);
      }
    }
  }

  lemma FailingFor(w: World, t: Transfer, f: nat) returns (e: Env)
    requires OffFee(Prompt(f, w.config.mintingAccount), w, t, f)
    ensures OffFee(e, w, t, f) && e.answers(w.calls).fate == Served && e.answers(w.calls + 1).fate == Trapped
    ensures e.answers(w.calls).elapsed == 0 && e.answers(w.calls + 1).elapsed == 0
  {
    e := Failing(w.calls, f, w.config.mintingAccount);
    assert Minter(Prompt(f, w.config.mintingAccount).answers(0)) == w.config.mintingAccount;
  }
}
