/** A legal run in which recovery loses a withdrawal, because two second steps get one identifier. */
module TerminalOvertaking {
  import opened Wrappers
  import opened PaymentErrors
  import opened Transfers
  import opened Ledgers
  import opened Terminal
  import opened TerminalBudget
  import opened TerminalOutcome
  import opened TerminalSolvency
  import opened TerminalRuns
  import opened TerminalClashes
  import opened TerminalHoles

  const DAY: nat := 24 * 60 * 60 * 1_000_000_000

  /** All requests are executed behind lost replies until two withdrawals are listed; then each balance query is
      answered, and nothing else. */
  ghost predicate Overtaking(e: Env) {
    ValidOrder(e) && forall k :: e.answers(k) == Answer(0, 10, OvertakingFate(k), NOBODY, 0, None)
  }

  function OvertakingFate(k: nat): Fate {
    if k < 6 then Lost(SysTransient, true)
    else if k == 6 || k == 10 then Served
    else Lost(SysTransient, false)
  }

  function InterimAt(c: nat): Account {
    Account(ME, Interim(TransferId(Default, Account(ALICE, Default), 500, 9, c)))
  }

  /** Alice's withdrawal of 500 at time `c`. */
  predicate IsWithdrawal(t: Transfer, c: nat) {
    && t.token == 9 && t.from == Default && t.to == Account(ALICE, Default) && t.caller == ALICE
    && t.operation == CreditOnError && t.amount == 500 && t.fee == 10 && t.createdAt == c
    && t.kind == DoubleStep(First, InterimAt(c))
  }

  predicate Configured(w: World) {
    w.me == ME && w.config == TokenConfiguration(9, 10, NOBODY)
  }

  lemma WithdrawalIs(w: World)
    requires Configured(w)
    ensures IsWithdrawal(WithdrawTransfer(w, ALICE, 500), w.clock)
    ensures WithdrawTransfer(w, ALICE, 500).memo == Some(w.counter)
  {
  }

  /** The withdrawal's tokens have moved to its interim account, and nothing else has changed in the books. */
  ghost predicate Hidden(w: World, t: Transfer, w': World) {
    && Quiet(w, w', 3) && w'.counter == w.counter && w'.recovery == Push(w.recovery, t)
    && w'.ledger.blocks == w.ledger.blocks + [RequestOf(ME, t)]
    && Funds(w'.ledger, Main(ME)) == Funds(w.ledger, Main(ME)) - 500
    && (forall a :: a != Main(ME) ==>
          Funds(w'.ledger, a) == Funds(w.ledger, a) + if a == InterimAt(t.createdAt) then 490 else 0)
  }

  lemma HiddenCall(e: Env, w: World, t: Transfer)
    requires Overtaking(e) && w.calls < 6 && w.me == ME && IsWithdrawal(t, w.clock)
    requires RequestOf(ME, t) in w.ledger.blocks || Funds(w.ledger, Main(ME)) >= 500
    ensures var (w1, reply) := Execute(e, w, t);
            && reply == Err(MaybeFailed) && Quiet(w, w1, 1) && w1.recovery == w.recovery && w1.counter == w.counter
            && if RequestOf(ME, t) in w.ledger.blocks
               then w1.ledger.blocks == w.ledger.blocks && forall a :: Funds(w1.ledger, a) == Funds(w.ledger, a)
               else
                 && w1.ledger.blocks == w.ledger.blocks + [RequestOf(ME, t)]
                 && Funds(w1.ledger, Main(ME)) == Funds(w.ledger, Main(ME)) - 500
                 && (forall a :: a != Main(ME) ==>
                       Funds(w1.ledger, a) == Funds(w.ledger, a) + if a == InterimAt(t.createdAt) then 490 else 0)
  {
    assert RequestOf(ME, t) == Request(Main(ME), InterimAt(w.clock), 490, 10, w.clock, t.memo);
    assert e.answers(w.calls).fate == Lost(SysTransient, true);
  }

  lemma HiddenTransfer(e: Env, w: World, t: Transfer)
    requires Overtaking(e) && w.calls <= 3 && w.me == ME && IsWithdrawal(t, w.clock)
    requires RequestOf(ME, t) !in w.ledger.blocks && Funds(w.ledger, Main(ME)) >= 500
    ensures var (w', r) := RunTransfer(e, w, t, 3); Hidden(w, t, w') && r == Err(Recoverable(IcError))
  {
    HiddenCall(e, w, t);
    var w1 := Execute(e, w, t).0;
    HiddenCall(e, w1, t);
    var w2 := Execute(e, w1, t).0;
    HiddenCall(e, w2, t);
    var w3 := Execute(e, w2, t).0;
    QuietChain(w, w1, w2, 1, 1);
    QuietChain(w, w2, w3, 2, 1);
    assert Validate(ME, t).Ok?;
    assert ExecuteRecoveryTransfer(e, w2, t, 1) == Retry(e, w3, t, 0);
    assert ExecuteRecoveryTransfer(e, w1, t, 2) == Retry(e, w2, t, 1) == ExecuteRecoveryTransfer(e, w2, t, 1);
    assert RunTransfer(e, w, t, 3) == ExecuteTransfer(e, w, t, 3) == Retry(e, w1, t, 2);
    assert Retry(e, w1, t, 2) == ExecuteRecoveryTransfer(e, w1, t, 2);
  }

  function DebitedAlice(w: World): World
    requires BalanceOf(w.balances, ALICE) >= 500
  {
    w.(counter := w.counter + 1, balances := w.balances[ALICE := BalanceOf(w.balances, ALICE) - 500])
  }

  lemma HiddenWithdrawal(e: Env, w: World, t: Transfer)
    requires Overtaking(e) && w.calls <= 3 && Configured(w) && t == WithdrawTransfer(w, ALICE, 500)
    requires RequestOf(ME, t) !in w.ledger.blocks && Funds(w.ledger, Main(ME)) >= 500
    requires BalanceOf(w.balances, ALICE) >= 500
    ensures Hidden(DebitedAlice(w), t, Withdraw(e, w, ALICE, 500).0)
  {
    WithdrawalIs(w);
    assert Validate(ME, t).Ok? && FinalAmount(t).Ok?;
    HiddenTransfer(e, DebitedAlice(w), t);
  }

  const TWO_WITHDRAWALS: seq<Op> := [DoWithdraw(ALICE, 500), Idle(1), DoWithdraw(ALICE, 500), Idle(2 * DAY), DoRecover]

  /** Both first steps are executed and listed; two days later both interim accounts still hold the tokens. */
  ghost predicate BothListed(w: World, t: Transfer, u: Transfer) {
    && Configured(w) && w.calls == 6 && w.clock == 2 * DAY + 1 && BalanceOf(w.balances, ALICE) == 0
    && IsWithdrawal(t, 0) && IsWithdrawal(u, 1) && t.memo != u.memo
    && w.recovery == map[IdOf(t) := t, IdOf(u) := u]
    && Funds(w.ledger, InterimAt(0)) == 490 && Funds(w.ledger, InterimAt(1)) == 490
  }

  function Funded(): World {
    Start(1000, map[ALICE := 1000])
  }

  ghost predicate OneListed(w: World, t: Transfer) {
    && Configured(w) && w.calls == 3 && w.clock == 1 && w.counter == 1 && BalanceOf(w.balances, ALICE) == 500
    && IsWithdrawal(t, 0) && t.memo == Some(0)
    && w.ledger.blocks == [RequestOf(ME, t)] && w.recovery == map[IdOf(t) := t]
    && Funds(w.ledger, Main(ME)) == 500 && Funds(w.ledger, InterimAt(0)) == 490 && Funds(w.ledger, InterimAt(1)) == 0
  }

  lemma FirstListed(e: Env) returns (t: Transfer)
    requires Overtaking(e)
    ensures var w1 := Withdraw(e, Funded(), ALICE, 500).0;
            && OneListed(w1.(clock := w1.clock + 1), t) && Undisturbed(Funded(), w1)
            && FreshWithdrawal(Funded(), ALICE, 500)
  {
    var w0 := Funded();
    t := WithdrawTransfer(w0, ALICE, 500);
    WithdrawalIs(w0);
    HiddenWithdrawal(e, w0, t);
  }

  lemma SecondListed(e: Env, w: World, t: Transfer) returns (u: Transfer)
    requires Overtaking(e) && OneListed(w, t)
    ensures var w1 := Withdraw(e, w, ALICE, 500).0;
            BothListed(w1.(clock := w1.clock + 2 * DAY), t, u) && Undisturbed(w, w1) && FreshWithdrawal(w, ALICE, 500)
  {
    u := WithdrawTransfer(w, ALICE, 500);
    WithdrawalIs(w);
    assert RequestOf(ME, u).createdAt != RequestOf(ME, t).createdAt;
    HiddenWithdrawal(e, w, u);
    SecondFresh(w, t);
    assert InterimAt(0) != InterimAt(1);
  }

  lemma TwoListedWithdrawals(e: Env) returns (w: World, t: Transfer, u: Transfer)
    requires Overtaking(e)
    ensures BothListed(w, t, u) && Run(e, Funded(), TWO_WITHDRAWALS) == Apply(e, w, DoRecover)
    ensures UndisturbedItems(e, w.(recovery := map[]), TakeAll(e, w)) ==> LegalRun(e, Funded(), TWO_WITHDRAWALS)
  {
    var w0 := Funded();
    t := FirstListed(e);
    var w1 := Apply(e, w0, TWO_WITHDRAWALS[0]);
    var w2 := Apply(e, w1, TWO_WITHDRAWALS[1]);
    u := SecondListed(e, w2, t);
    var w3 := Apply(e, w2, TWO_WITHDRAWALS[2]);
    w := Apply(e, w3, TWO_WITHDRAWALS[3]);
    UnfoldFive(e, w0, w1, w2, w3, w);
  }

  lemma SecondFresh(w: World, t: Transfer)
    requires Configured(w) && w.clock == 1 && IsWithdrawal(t, 0)
    requires w.ledger.blocks == [RequestOf(ME, t)] && w.recovery == map[IdOf(t) := t]
    ensures FreshWithdrawal(w, ALICE, 500)
  {
    WithdrawalIs(w);
    assert RequestOf(ME, t).from == Main(ME) && RequestOf(ME, t).to == InterimAt(0) && InterimAt(0) != InterimAt(1);
  }

  lemma UnfoldFive(e: Env, w0: World, w1: World, w2: World, w3: World, w4: World)
    requires var ops := TWO_WITHDRAWALS;
             && w1 == Apply(e, w0, ops[0]) && w2 == Apply(e, w1, ops[1])
             && w3 == Apply(e, w2, ops[2]) && w4 == Apply(e, w3, ops[3])
    ensures Run(e, w0, TWO_WITHDRAWALS) == Apply(e, w4, DoRecover)
    ensures Legal(e, w0, TWO_WITHDRAWALS[0]) && Legal(e, w2, TWO_WITHDRAWALS[2]) && Legal(e, w4, DoRecover) ==>
              LegalRun(e, w0, TWO_WITHDRAWALS)
  {
    var ops := TWO_WITHDRAWALS;
    assert ops[1..][1..] == ops[2..] && ops[2..][1..] == ops[3..] && ops[3..][1..] == ops[4..] && ops[4..][1..] == [];
    assert Run(e, w4, ops[4..]) == Apply(e, w4, ops[4]);
    assert Run(e, w3, ops[3..]) == Run(e, w4, ops[4..]) && Run(e, w2, ops[2..]) == Run(e, w3, ops[3..]);
    assert Run(e, w0, ops) == Run(e, w1, ops[1..]) == Run(e, w2, ops[2..]);
    if Legal(e, w0, ops[0]) && Legal(e, w2, ops[2]) && Legal(e, w4, DoRecover) {
      assert LegalRun(e, w4, ops[4..]);
      assert LegalRun(e, w3, ops[3..]);
      assert LegalRun(e, w2, ops[2..]);
      assert LegalRun(e, w1, ops[1..]);
    }
  }

  /** A listing of two different transfers is one of two sequences. */
  lemma EitherOrder(s: seq<Transfer>, t: Transfer, u: Transfer)
    requires NoRepeat(s) && t != u && forall x :: x in s <==> x == t || x == u
    ensures s == [t, u] || s == [u, t]
  {
    assert t in s && u in s;
    assert |s| >= 2;
    assert s[0] in s && s[1] in s;
    var other := if |s| > 2 then s[2] else t;
    assert other in s;
  }

  /** The tokens are still in the interim account of the withdrawal of time `c`, and nothing on the list would
      move them. */
  ghost predicate Overtaken(w: World, c: nat) {
    && |w.recovery| == 1 && Funds(w.ledger, InterimAt(c)) >= 490
    && forall s :: s in w.recovery.Values ==> s.kind != DoubleStep(Second, InterimAt(c))
  }

  /** Old and executed, listed first or second, each goes on at the same time under the same identifier. */
  lemma RecoversBoth(e: Env, w: World, t: Transfer, u: Transfer, c: nat, d: nat)
    requires Overtaking(e) && Configured(w) && w.calls == 6 && w.clock == 2 * DAY + 1
    requires IsWithdrawal(t, c) && IsWithdrawal(u, d) && c <= 1 && d <= 1 && c != d && t.memo != u.memo
    requires Funds(w.ledger, InterimAt(c)) == 490 && Funds(w.ledger, InterimAt(d)) == 490
    requires w.recovery == map[]
    ensures UndisturbedItems(e, w, [t, u])
    ensures var w' := RecoverItems(e, w, [t, u]).0;
            && w'.balances == w.balances && Overtaken(w', c)
            && RecoverItem(e, w, t).1 == Some(Err(Recoverable(IcError)))
  {
    assert Validate(ME, t).Ok? && Validate(ME, u).Ok?;
    StillFunded(e, w, t);
    OldGoesOn(e, w, t);
    var w1 := RecoverItem(e, w, t).0;
    KeepsFunds(e, w, t, InterimAt(d));
    StillFunded(e, w1, u);
    OldGoesOn(e, w1, u);
    var w2 := RecoverItem(e, w1, u).0;
    assert [t, u][1..] == [u] && [u][1..] == [];
    assert RecoverItems(e, w, [t, u]).0 == RecoverItems(e, w1, [u]).0 == w2;
    assert IdOf(StepAt(t, w.clock)) == IdOf(StepAt(u, w.clock));
    KeepsFunds(e, w, t, InterimAt(c));
    KeepsFunds(e, w1, u, InterimAt(c));
    OnlyTheLater(w2, StepAt(t, w.clock), StepAt(u, w.clock), c, d);
    assert UndisturbedItems(e, w1, [u]);
  }

  lemma OnlyTheLater(w: World, s: Transfer, v: Transfer, c: nat, d: nat)
    requires w.recovery == Push(Push(map[], s), v) && IdOf(s) == IdOf(v) && v.kind == DoubleStep(Second, InterimAt(d))
    requires c != d && Funds(w.ledger, InterimAt(c)) >= 490
    ensures Overtaken(w, c)
  {
    assert w.recovery == map[IdOf(v) := v];
    assert w.recovery.Keys == {IdOf(v)};
    assert InterimAt(c) != InterimAt(d);
  }

  lemma StillFunded(e: Env, w: World, t: Transfer)
    requires Overtaking(e) && t.kind.DoubleStep? && Funds(w.ledger, t.kind.interim) > 0
    ensures Funds(Asked(e, w, t).ledger, t.kind.interim) > 0
  {
  }

  /** With no further block, no tokens leave an account. */
  lemma KeepsFunds(e: Env, w: World, t: Transfer, a: Account)
    requires RecoverTx(e, w, t).0.ledger.blocks == w.ledger.blocks
    ensures Funds(RecoverTx(e, w, t).0.ledger, a) >= Funds(w.ledger, a)
  {
    RecoverTxBudget(e, w, t);
    assert Slack(w.ledger, a) <= Slack(RecoverTx(e, w, t).0.ledger, a);
  }

  /** In a legal run with one fee throughout, two withdrawals of one caller and amount, both executed in their
      first step, are recovered at one clock reading.  Their second steps share an identifier: one is lost,
      listed nowhere, neither paid nor refunded, and its tokens stay in its interim account. */
  lemma EqualWithdrawalsOvertake(e: Env)
    requires Overtaking(e)
    ensures LegalRun(e, Funded(), TWO_WITHDRAWALS)
    ensures var w' := Run(e, Funded(), TWO_WITHDRAWALS);
            BalanceOf(w'.balances, ALICE) == 0 && (Overtaken(w', 0) || Overtaken(w', 1))
  {
    var w, t, u := TwoListedWithdrawals(e);
    RecoverOvertakes(e, w, t, u);
  }

  lemma ListsBoth(e: Env, w: World, t: Transfer, u: Transfer)
    requires ValidOrder(e) && w.recovery == map[IdOf(t) := t, IdOf(u) := u] && IdOf(t) != IdOf(u)
    ensures TakeAll(e, w) == [t, u] || TakeAll(e, w) == [u, t]
  {
    TakesAll(e, w);
    assert w.recovery[IdOf(t)] == t && w.recovery[IdOf(u)] == u;
    EitherOrder(TakeAll(e, w), t, u);
  }

  lemma RecoverOvertakes(e: Env, w: World, t: Transfer, u: Transfer)
    requires Overtaking(e) && BothListed(w, t, u)
    ensures UndisturbedItems(e, w.(recovery := map[]), TakeAll(e, w))
    ensures var w' := RecoverAll(e, w).0; w'.balances == w.balances && (Overtaken(w', 0) || Overtaken(w', 1))
  {
    ListsBoth(e, w, t, u);
    if TakeAll(e, w) == [t, u] {
      RecoversBoth(e, w.(recovery := map[]), t, u, 0, 1);
    } else {
      RecoversBoth(e, w.(recovery := map[]), u, t, 1, 0);
    }
  }

  /** Why slips must differ: two equal withdrawals at one clock reading share their interim account and their
      identifier.  Both are executed in their first step, but the list holds one. */
  lemma SameInstantWithdrawals(e: Env)
    requires Overtaking(e)
    ensures var w1 := Withdraw(e, Funded(), ALICE, 500).0;
            var w2 := Withdraw(e, w1, ALICE, 500).0;
            && Undisturbed(Funded(), w1) && Undisturbed(w1, w2) && !FreshWithdrawal(w1, ALICE, 500)
            && |w2.recovery| == 1 && BalanceOf(w2.balances, ALICE) == 0
            && |w2.ledger.blocks| == 2 && Funds(w2.ledger, InterimAt(0)) == 980
  {
    var t := FirstListed(e);
    SecondAtOnce(e, Withdraw(e, Funded(), ALICE, 500).0, t);
  }

  lemma SecondAtOnce(e: Env, w: World, t: Transfer)
    requires Overtaking(e) && OneListed(w.(clock := w.clock + 1), t)
    ensures var w' := Withdraw(e, w, ALICE, 500).0;
            && Undisturbed(w, w') && !FreshWithdrawal(w, ALICE, 500)
            && |w'.recovery| == 1 && BalanceOf(w'.balances, ALICE) == 0
            && |w'.ledger.blocks| == 2 && Funds(w'.ledger, InterimAt(0)) == 980
  {
    var u := WithdrawTransfer(w, ALICE, 500);
    WithdrawalIs(w);
    assert RequestOf(ME, t).memo != RequestOf(ME, u).memo;
    HiddenWithdrawal(e, w, u);
    assert RequestOf(ME, t) in w.ledger.blocks && RequestOf(ME, t).to == InterimAt(0);
    assert Push(w.recovery, u).Keys == {IdOf(u)};
  }
}
