/** Why the hypotheses are there: concrete runs in which the strong guarantees fail without them. */
module TerminalHoles {
  import opened Wrappers
  import opened PaymentErrors
  import opened Transfers
  import opened Ledgers
  import opened Terminal
  import opened TerminalBudget
  import opened TerminalOutcome
  import opened TerminalSolvency
  import opened TerminalRuns
  import opened TerminalRecovery
  import opened TerminalCalls

  const ME: Principal := 1
  const ALICE: Principal := 2
  const BOB: Principal := 3

  const NOBODY: Account := Account(MANAGEMENT_CANISTER, Default)

  /** The first request is executed but its reply is lost; then the ledger doubles its fee. */
  const FEE_CHANGE: Env := Env(
    (k: nat) => Answer(0, if k == 0 then 10 else 20, if k == 0 then Lost(SysTransient, true) else Served,
                       NOBODY, 0, None),
    (ids: set<TransferId>) => [])

  /** A terminal configured with fee 10, with `main` tokens in its main account. */
  function Start(main: nat, balances: map<Principal, nat>): World {
    World(ME, Ledger(map[Main(ME) := main], []), 0, 0, 0, 0, TokenConfiguration(9, 10, NOBODY), balances, map[], [])
  }

  lemma Unlisted(e: Env, w: World, fee: nat)
    requires w.recovery == map[] && e.order({}) == []
    ensures SetFee(e, w, fee) == w.(config := w.config.(fee := fee))
  {
    assert w.recovery.Keys == {};
  }

  /** Nothing but the ledger has changed. */
  ghost predicate OnlyLedger(w: World, w1: World) {
    && w1.me == w.me && w1.clock == w.clock && w1.calls == w.calls + 1 && w1.config == w.config
    && w1.balances == w.balances && w1.recovery == w.recovery
  }

  predicate ServedAtOnce(a: Answer) {
    a.fate == Served && a.elapsed == 0 && a.gift == 0
  }

  /** A request at the right fee, not seen before and covered, is executed. */
  lemma Pays(e: Env, w: World, t: Transfer)
    requires ServedAtOnce(e.answers(w.calls)) && e.answers(w.calls).fee == t.fee && InWindow(t, w.clock)
    requires var r := RequestOf(w.me, t); r !in w.ledger.blocks && CanPay(w.ledger, r) && r.from != r.to
    ensures var (w1, reply) := Execute(e, w, t);
            var r := RequestOf(w.me, t);
            && OnlyLedger(w, w1) && reply == Ok(|w.ledger.blocks|) && w1.ledger.blocks == w.ledger.blocks + [r]
            && Funds(w1.ledger, r.from) == Funds(w.ledger, r.from) - r.amount - r.fee
            && Funds(w1.ledger, r.to) == Funds(w.ledger, r.to) + r.amount
  {
  }

  /** A request at the right fee, not seen before and not covered, is refused. */
  lemma CannotPay(e: Env, w: World, t: Transfer)
    requires ServedAtOnce(e.answers(w.calls)) && e.answers(w.calls).fee == t.fee && InWindow(t, w.clock)
    requires var r := RequestOf(w.me, t); r !in w.ledger.blocks && !CanPay(w.ledger, r)
    ensures var (w1, reply) := Execute(e, w, t);
            && OnlyLedger(w, w1) && w1.ledger.blocks == w.ledger.blocks
            && reply == Err(TransferFailed(Rejected(InsufficientFunds(Funds(w.ledger, StepFrom(w.me, t))))))
            && forall a :: Funds(w1.ledger, a) == Funds(w.ledger, a)
  {
  }

  /** A request at another fee is answered with the right one. */
  lemma Mispriced(e: Env, w: World, t: Transfer)
    requires ServedAtOnce(e.answers(w.calls)) && e.answers(w.calls).fee != t.fee
    ensures var (w1, reply) := Execute(e, w, t);
            && OnlyLedger(w, w1) && w1.ledger.blocks == w.ledger.blocks
            && reply == Err(WrongFee(e.answers(w.calls).fee))
            && forall a :: Funds(w1.ledger, a) == Funds(w.ledger, a)
  {
  }

  // ---------------------------------------------------------------- a fee change behind a lost reply

  /** The first step of Alice's withdrawal, as requested with the given fee. */
  function FirstStep(fee: nat): Transfer {
    WithdrawTransfer(Start(0, map[]), ALICE, 500).(fee := fee)
  }

  function INTERIM(): Account {
    FirstStep(10).kind.interim
  }

  /** What matters of it: 500 tokens for Alice through an account of the terminal that is not the main one. */
  predicate IsAlices(t: Transfer, fee: nat, amount: nat, interim: Account) {
    && t.from == Default && t.to == Account(ALICE, Default) && t.caller == ALICE && t.operation == CreditOnError
    && t.amount == amount && t.fee == fee && t.createdAt == 0
    && t.kind == DoubleStep(First, interim) && interim.owner == ME && interim.sub != Default
  }

  lemma AlicesSteps()
    ensures IsAlices(FirstStep(10), 10, 500, INTERIM()) && IsAlices(FirstStep(20), 20, 500, INTERIM())
    ensures FirstStep(20) == FirstStep(10).(fee := 20)
    ensures IsAlices(SmallStep(10), 10, 30, SmallStep(20).kind.interim)
    ensures IsAlices(SmallStep(20), 20, 30, SmallStep(20).kind.interim) && SmallStep(20) == SmallStep(10).(fee := 20)
  {
  }

  /** Alice's withdrawal, up to the re-priced request. */
  lemma FirstPayment(main: nat, balances: map<Principal, nat>) returns (w: World)
    requires main >= 500 && ALICE in balances && balances[ALICE] == 500
    ensures Withdraw(FEE_CHANGE, Start(main, balances), ALICE, 500).0 ==
            ExecuteRecoveryTransfer(FEE_CHANGE, w, FirstStep(20), 1).0
    ensures var r := ExecuteRecoveryTransfer(FEE_CHANGE, w, FirstStep(20), 1).1;
            Withdraw(FEE_CHANGE, Start(main, balances), ALICE, 500).1 ==
            match r case Ok(tx) => Ok((tx, 480)) case Err(err) => Err(err)
    ensures w.me == ME && w.clock == 0 && w.calls == 2 && w.recovery == map[] && w.balances == balances[ALICE := 0]
    ensures w.ledger.blocks == [RequestOf(ME, FirstStep(10))]
    ensures Funds(w.ledger, Main(ME)) == main - 500 && Funds(w.ledger, INTERIM()) == 490
  {
    var t, w0 := FirstStep(10), Start(main, balances).(counter := 1, balances := balances[ALICE := 0]);
    assert Debit(balances, ALICE, 500) == Some(w0.balances);
    AlicesSteps();
    assert Validate(ME, t).Ok? && FinalAmount(t) == Ok(480);
    w := LostPayment(w0, t, FirstStep(20), INTERIM());
  }

  lemma LostPayment(w: World, t: Transfer, u: Transfer, a: Account) returns (w2: World)
    requires IsAlices(t, 10, 500, a) && u == t.(fee := 20) && a != NOBODY
    requires w.me == ME && w.clock == 0 && w.calls == 0 && w.recovery == map[] && w.ledger.blocks == []
    requires w.config == TokenConfiguration(9, 10, NOBODY) && Funds(w.ledger, Main(ME)) >= 500
    ensures RunTransfer(FEE_CHANGE, w, t, 3) == ExecuteRecoveryTransfer(FEE_CHANGE, w2, u, 1)
    ensures w2.me == ME && w2.clock == 0 && w2.calls == 2 && w2.recovery == map[] && w2.balances == w.balances
    ensures w2.ledger.blocks == [RequestOf(ME, t)]
    ensures Funds(w2.ledger, Main(ME)) == Funds(w.ledger, Main(ME)) - 500
    ensures Funds(w2.ledger, a) == Funds(w.ledger, a) + 490
  {
    var e := FEE_CHANGE;
    var (w1, r1) := Execute(e, w, t);
    assert r1 == Err(MaybeFailed) && w1.ledger.blocks == [RequestOf(ME, t)];
    assert RunTransfer(e, w, t, 3) == ExecuteTransfer(e, w, t, 3) == Retry(e, w1, t, 2);
    assert Retry(e, w1, t, 2) == ExecuteRecoveryTransfer(e, w1, t, 2);
    w2 := RepricedRetry(w1, t, u, a);
  }

  lemma RepricedRetry(w1: World, t: Transfer, u: Transfer, a: Account) returns (w: World)
    requires IsAlices(t, 10, 500, a) && u == t.(fee := 20) && a != NOBODY
    requires w1.me == ME && w1.clock == 0 && w1.calls == 1 && w1.recovery == map[]
    requires w1.config == TokenConfiguration(9, 10, NOBODY)
    ensures ExecuteRecoveryTransfer(FEE_CHANGE, w1, t, 2) == ExecuteRecoveryTransfer(FEE_CHANGE, w, u, 1)
    ensures w.me == ME && w.clock == 0 && w.calls == 2 && w.recovery == map[] && w.balances == w1.balances
    ensures w.ledger.blocks == w1.ledger.blocks && forall b :: Funds(w.ledger, b) == Funds(w1.ledger, b)
  {
    var e := FEE_CHANGE;
    Mispriced(e, w1, t);
    var w2 := Execute(e, w1, t).0;
    Unlisted(e, w2, 20);
    w := w2.(config := w2.config.(fee := 20));
    assert ExecuteRecoveryTransfer(e, w1, t, 2) == UpdateConfigAndRetry(e, w2, 20, t, 1)
        == ExecuteRecoveryTransfer(e, w, u, 1);
  }

  /** The re-priced request is a new one to the ledger and is executed too, then its second step. */
  lemma SecondPayment(w: World, t: Transfer, u: Transfer, a: Account)
    requires IsAlices(t, 10, 500, a) && IsAlices(u, 20, 500, a)
    requires w.me == ME && w.clock == 0 && w.calls == 2 && w.ledger.blocks == [RequestOf(ME, t)]
    requires Funds(w.ledger, Main(ME)) == 500 && Funds(w.ledger, a) == 490
    ensures var (w', r) := ExecuteRecoveryTransfer(FEE_CHANGE, w, u, 1);
            && r == Ok(2) && w'.balances == w.balances && Funds(w'.ledger, Main(ME)) == 0
            && w'.ledger.blocks == [RequestOf(ME, t), RequestOf(ME, u), RequestOf(ME, SecondStep(u, a, 0))]
  {
    var e := FEE_CHANGE;
    Pays(e, w, u);
    var w4 := Execute(e, w, u).0;
    var s := SecondStep(u, a, 0);
    assert Validate(ME, s).Ok?;
    assert ExecuteRecoveryTransfer(e, w, u, 1) == Complete(e, w4, u, 1, 1) == RunTransfer(e, w4, s, 1);
    LastPayment(w4, t, u, a);
  }

  lemma LastPayment(w: World, t: Transfer, u: Transfer, a: Account)
    requires IsAlices(t, 10, 500, a) && IsAlices(u, 20, 500, a)
    requires w.me == ME && w.clock == 0 && w.calls == 3 && w.ledger.blocks == [RequestOf(ME, t), RequestOf(ME, u)]
    requires Funds(w.ledger, Main(ME)) == 0 && Funds(w.ledger, a) == 970
    ensures var s := SecondStep(u, a, 0);
            var (w', r) := RunTransfer(FEE_CHANGE, w, s, 1);
            && r == Ok(2) && w'.balances == w.balances && Funds(w'.ledger, Main(ME)) == 0
            && w'.ledger.blocks == w.ledger.blocks + [RequestOf(ME, s)]
  {
    var s := SecondStep(u, a, 0);
    assert RequestOf(ME, s).from == a && RequestOf(ME, s).to == Account(ALICE, Default);
    Pays(FEE_CHANGE, w, s);
    assert Funds(Execute(FEE_CHANGE, w, s).0.ledger, Main(ME)) == 0;
    assert RunTransfer(FEE_CHANGE, w, s, 1) == ExecuteTransfer(FEE_CHANGE, w, s, 1)
        == Complete(FEE_CHANGE, Execute(FEE_CHANGE, w, s).0, s, 2, 1);
  }

  /** With a fee change between a hidden execution and its retry, one withdrawal is paid twice: it
      reports success, and what is left does not cover Bob's balance. */
  lemma FeeChangePaysTwice()
    ensures var (w', r) := Withdraw(FEE_CHANGE, Start(1000, map[ALICE := 500, BOB := 500]), ALICE, 500);
            && r.Ok?
            && w'.ledger.blocks == [RequestOf(ME, FirstStep(10)), RequestOf(ME, FirstStep(20)),
                                    RequestOf(ME, SecondStep(FirstStep(20), INTERIM(), 0))]
            && Funds(w'.ledger, Main(ME)) == 0
            && BalanceOf(w'.balances, BOB) == 500
  {
    var w := FirstPayment(1000, map[ALICE := 500, BOB := 500]);
    AlicesSteps();
    SecondPayment(w, FirstStep(10), FirstStep(20), INTERIM());
  }

  /** If the main account cannot pay twice, the re-priced request is refused and the executed withdrawal is
      refunded: nothing is listed, the tokens stay in the interim account, and the balance is uncovered. */
  lemma FeeChangeRefundsExecuted()
    ensures var (w', r) := Withdraw(FEE_CHANGE, Start(500, map[ALICE := 500]), ALICE, 500);
            && r == Err(PaymentFailed(Rejected(InsufficientFunds(0))))
            && w'.ledger.blocks == [RequestOf(ME, FirstStep(10))] && w'.recovery == map[]
            && Funds(w'.ledger, INTERIM()) == 490 && Funds(w'.ledger, Main(ME)) == 0
            && ALICE in w'.balances && w'.balances[ALICE] == 500
  {
    var w := FirstPayment(500, map[ALICE := 500]);
    AlicesSteps();
    RefusedRepriced(w, FirstStep(10), FirstStep(20), INTERIM());
  }

  lemma RefusedRepriced(w: World, t: Transfer, u: Transfer, a: Account)
    requires IsAlices(t, 10, 500, a) && IsAlices(u, 20, 500, a)
    requires w.me == ME && w.clock == 0 && w.calls == 2 && w.ledger.blocks == [RequestOf(ME, t)]
    requires Funds(w.ledger, Main(ME)) == 0 && w.balances == map[ALICE := 0]
    ensures var (w', r) := ExecuteRecoveryTransfer(FEE_CHANGE, w, u, 1);
            && r == Err(PaymentFailed(Rejected(InsufficientFunds(0)))) && w'.ledger.blocks == w.ledger.blocks
            && w'.recovery == w.recovery && w'.balances == map[ALICE := 500]
            && forall b :: Funds(w'.ledger, b) == Funds(w.ledger, b)
  {
    CannotPay(FEE_CHANGE, w, u);
    assert ExecuteRecoveryTransfer(FEE_CHANGE, w, u, 1) ==
           Reject(Execute(FEE_CHANGE, w, u).0, u, TransferFailed(Rejected(InsufficientFunds(0))));
    assert map[ALICE := 0][ALICE := 500] == map[ALICE := 500];
  }

  // ---------------------------------------------------------------- a fee above the configured one

  /** Every call is served, at fee 20. */
  const FEE_TWENTY: Env := Env(
    (k: nat) => Answer(0, 20, Served, NOBODY, 0, None), (ids: set<TransferId>) => [])

  function SmallStep(fee: nat): Transfer {
    WithdrawTransfer(Start(0, map[]), ALICE, 30).(fee := fee)
  }

  /** No reply is lost: a withdrawal of 30 is accepted at fee 10, re-priced to 20, its first step executed,
      and its second step found too small.  The balance is gone and nothing is listed. */
  lemma RepricedIsStranded()
    ensures var (w', r) := Withdraw(FEE_TWENTY, Start(30, map[ALICE := 30]), ALICE, 30);
            && r == Err(ParametersRejected(AmountTooSmall(21, 10)))
            && w'.ledger.blocks == [RequestOf(ME, SmallStep(20))] && w'.recovery == map[]
            && BalanceOf(w'.balances, ALICE) == 0 && Funds(w'.ledger, SmallStep(20).kind.interim) == 10
  {
    var t, u := SmallStep(10), SmallStep(20);
    var w0 := Start(30, map[ALICE := 30]).(counter := 1, balances := map[ALICE := 0]);
    assert map[ALICE := 30][ALICE := 0] == w0.balances;
    assert Debit(map[ALICE := 30], ALICE, 30) == Some(w0.balances);
    AlicesSteps();
    assert Validate(ME, t).Ok?;
    var w2 := SmallStepRepriced(w0, t, u, u.kind.interim);
    SmallStepPaid(w2, u, u.kind.interim);
  }

  lemma SmallStepRepriced(w: World, t: Transfer, u: Transfer, a: Account) returns (w2: World)
    requires IsAlices(t, 10, 30, a) && u == t.(fee := 20) && a != NOBODY
    requires w.me == ME && w.clock == 0 && w.recovery == map[] && w.config == TokenConfiguration(9, 10, NOBODY)
    ensures RunTransfer(FEE_TWENTY, w, t, 3) == ExecuteRecoveryTransfer(FEE_TWENTY, w2, u, 2)
    ensures w2.me == ME && w2.clock == 0 && w2.recovery == map[] && w2.balances == w.balances
    ensures w2.ledger.blocks == w.ledger.blocks && forall b :: Funds(w2.ledger, b) == Funds(w.ledger, b)
  {
    var e := FEE_TWENTY;
    Mispriced(e, w, t);
    var w1 := Execute(e, w, t).0;
    Unlisted(e, w1, 20);
    w2 := w1.(config := w1.config.(fee := 20));
    assert RunTransfer(e, w, t, 3) == ExecuteTransfer(e, w, t, 3) == UpdateConfigAndRetry(e, w1, 20, t, 2);
    assert UpdateConfigAndRetry(e, w1, 20, t, 2) == ExecuteRecoveryTransfer(e, w2, u, 2);
  }

  lemma SmallStepPaid(w: World, u: Transfer, a: Account)
    requires IsAlices(u, 20, 30, a)
    requires w.me == ME && w.clock == 0 && w.ledger.blocks == [] && w.recovery == map[]
    requires Funds(w.ledger, Main(ME)) == 30 && Funds(w.ledger, a) == 0
    ensures var (w', r) := ExecuteRecoveryTransfer(FEE_TWENTY, w, u, 2);
            && r == Err(ParametersRejected(AmountTooSmall(21, 10)))
            && w'.ledger.blocks == [RequestOf(ME, u)] && w'.recovery == map[]
            && w'.balances == w.balances && Funds(w'.ledger, a) == 10
  {
    Pays(FEE_TWENTY, w, u);
    var w1 := Execute(FEE_TWENTY, w, u).0;
    assert ExecuteRecoveryTransfer(FEE_TWENTY, w, u, 2) == Complete(FEE_TWENTY, w1, u, 0, 2);
    assert Validate(ME, SecondStep(u, a, 0)) == Err(InvalidParameters(AmountTooSmall(21, 10)));
    assert Complete(FEE_TWENTY, w1, u, 0, 2) == RunTransfer(FEE_TWENTY, w1, SecondStep(u, a, 0), 2);
  }

  // ---------------------------------------------------------------- merged entries

  /** No call gets through. */
  ghost predicate Silent(e: Env) {
    ValidOrder(e) && forall k :: e.answers(k) == Answer(0, 10, Lost(SysTransient, false), NOBODY, 0, None)
  }

  /** A deposit nobody answers is listed, and nothing else happens. */
  lemma SilentDeposit(e: Env, w: World)
    requires Silent(e) && w.me == ME && w.config == TokenConfiguration(9, 10, NOBODY)
    ensures var w' := DepositTokens(e, w, ALICE, 100).0;
            && w'.me == w.me && w'.config == w.config && w'.clock == w.clock && w'.counter == w.counter + 1
            && w'.recovery == Push(w.recovery, DepositTransfer(w, ALICE, 100))
  {
    var t, w1 := DepositTransfer(w, ALICE, 100), w.(counter := w.counter + 1);
    var (w2, r2) := Execute(e, w1, t);
    var (w3, r3) := Execute(e, w2, t);
    var (w4, r4) := Execute(e, w3, t);
    assert r2 == Err(MaybeFailed) && r3 == Err(MaybeFailed) && r4 == Err(MaybeFailed);
    assert ExecuteRecoveryTransfer(e, w3, t, 1) == Retry(e, w4, t, 0);
    assert ExecuteRecoveryTransfer(e, w2, t, 2) == Retry(e, w3, t, 1) == ExecuteRecoveryTransfer(e, w3, t, 1);
    assert RunTransfer(e, w1, t, 3) == ExecuteTransfer(e, w1, t, 3) == Retry(e, w2, t, 2);
    assert Retry(e, w2, t, 2) == ExecuteRecoveryTransfer(e, w2, t, 2);
  }

  const TWO_DEPOSITS: seq<Op> := [DoDeposit(ALICE, 100), Idle(1), DoDeposit(ALICE, 100)]

  /** Two equal deposits of one caller, a nanosecond apart, are both listed; re-pricing the list for a new fee
      loses one of them. */
  lemma RepricingMergesDeposits(e: Env, fee: nat)
    requires Silent(e)
    ensures var w := Run(e, Start(0, map[]), TWO_DEPOSITS);
            && |w.recovery| == 2
            && exists t :: t in w.recovery.Values
                 && !OnList(SetFee(e, w, fee).recovery, Refee(ME, w.config.(fee := fee), t))
  {
    TwoListed(e);
    var w := Run(e, Start(0, map[]), TWO_DEPOSITS);
    var t, u := FirstDeposit(), SecondDeposit();
    RepricingKeepsAllIff(e, w, w.config.(fee := fee));
    assert t in w.recovery.Values && u in w.recovery.Values by {
      assert w.recovery[IdOf(t)] == t && w.recovery[IdOf(u)] == u;
    }
    assert Refee(ME, w.config.(fee := fee), t).memo != Refee(ME, w.config.(fee := fee), u).memo;
  }

  function FirstDeposit(): Transfer {
    DepositTransfer(Start(0, map[]), ALICE, 100)
  }

  function SecondDeposit(): Transfer {
    FirstDeposit().(createdAt := 1, memo := Some(1))
  }

  lemma TwoListed(e: Env)
    requires Silent(e)
    ensures var w := Run(e, Start(0, map[]), TWO_DEPOSITS);
            && w.me == ME && w.config == TokenConfiguration(9, 10, NOBODY) && Keyed(w.recovery)
            && w.recovery == map[IdOf(FirstDeposit()) := FirstDeposit(), IdOf(SecondDeposit()) := SecondDeposit()]
            && |w.recovery| == 2
  {
    var w0 := Start(0, map[]);
    var w1 := Apply(e, w0, TWO_DEPOSITS[0]);
    var w2 := Apply(e, w1, TWO_DEPOSITS[1]);
    var w3 := Apply(e, w2, TWO_DEPOSITS[2]);
    assert Run(e, w0, TWO_DEPOSITS) == w3 by {
      assert TWO_DEPOSITS[1..][1..] == TWO_DEPOSITS[2..] && TWO_DEPOSITS[2..][1..] == [];
      assert Run(e, w1, TWO_DEPOSITS[1..]) == Run(e, w2, TWO_DEPOSITS[2..]);
    }
    SilentDeposit(e, w0);
    SilentDeposit(e, w2);
    assert DepositTransfer(w2, ALICE, 100) == SecondDeposit();
    TwoKeys(IdOf(FirstDeposit()), FirstDeposit(), IdOf(SecondDeposit()), SecondDeposit());
  }

  lemma TwoKeys(i: TransferId, t: Transfer, j: TransferId, u: Transfer)
    requires i != j
    ensures |map[i := t, j := u]| == 2
  {
    assert map[i := t, j := u].Keys == {i, j};
  }

  // ---------------------------------------------------------------- smaller promises

  /** A deposit at fee 10 while the ledger asks for 20: 90 is reported, 80 credited. */
  lemma DepositMisreports()
    ensures var deposit := Account(ME, OfPrincipal(ALICE));
            var w := Start(0, map[]).(ledger := Ledger(map[deposit := 100], []));
            var (w', r) := DepositTokens(FEE_TWENTY, w, ALICE, 100);
            r == Ok((0, 90)) && w'.balances == map[ALICE := 80] && Funds(w'.ledger, Main(ME)) == 80
  {
    var e, deposit := FEE_TWENTY, Account(ME, OfPrincipal(ALICE));
    var w := Start(0, map[]).(ledger := Ledger(map[deposit := 100], []));
    var t, w0 := DepositTransfer(w, ALICE, 100), w.(counter := 1);
    assert Validate(ME, t).Ok? && FinalAmount(t) == Ok(90);
    Mispriced(e, w0, t);
    var w1 := Execute(e, w0, t).0;
    Unlisted(e, w1, 20);
    var w2, u := w1.(config := w1.config.(fee := 20)), t.(fee := 20);
    assert RunTransfer(e, w0, t, 3) == ExecuteTransfer(e, w0, t, 3) == UpdateConfigAndRetry(e, w1, 20, t, 2);
    assert UpdateConfigAndRetry(e, w1, 20, t, 2) == ExecuteRecoveryTransfer(e, w2, u, 2);
    Pays(e, w2, u);
    assert ExecuteRecoveryTransfer(e, w2, u, 2) == Complete(e, Execute(e, w2, u).0, u, 0, 2);
    assert map[][ALICE := 80] == map[ALICE := 80];
  }

  /** The ledger answers `BadFee(10)`, then fails. */
  const NO_MINTER: Env := Env(
    (k: nat) => Answer(0, 10, if k == 0 then Served else Trapped, NOBODY, 0, None), (ids: set<TransferId>) => [])

  /** Alice's own account is the configured minting account, so her withdrawal is priced at 0.  When the minting
      account cannot be read, she is told the fee was wrong, as if nothing had happened: but her balance is
      gone, nothing was paid, and nothing is listed. */
  lemma MinterFailureLoses()
    ensures var w := Start(500, map[ALICE := 500]).(config := TokenConfiguration(9, 10, Account(ALICE, Default)));
            var (w', r) := Withdraw(NO_MINTER, w, ALICE, 500);
            && r == Err(FeeMismatch(10)) && w'.ledger.blocks == [] && w'.recovery == map[]
            && BalanceOf(w'.balances, ALICE) == 0 && Funds(w'.ledger, Main(ME)) == 500
  {
    var e, w := NO_MINTER, Start(500, map[ALICE := 500]).(config := TokenConfiguration(9, 10, Account(ALICE, Default)));
    var t := WithdrawTransfer(w, ALICE, 500);
    var w0 := w.(counter := 1, balances := map[ALICE := 500][ALICE := 0]);
    assert Debit(w.balances, ALICE, 500) == Some(w0.balances) && t.fee == 0 && Validate(ME, t).Ok?;
    Mispriced(e, w0, t);
    var w1 := Execute(e, w0, t).0;
    assert RunTransfer(e, w0, t, 3) == ExecuteTransfer(e, w0, t, 3) == UpdateConfigAndRetry(e, w1, 10, t, 2);
    assert UpdateConfigAndRetry(e, w1, 10, t, 2) == (QueryMintingAccount(e, w1, 10).0, Err(FeeMismatch(10)));
  }
}
