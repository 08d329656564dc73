/** What recovery keeps and what it can lose, for every reply sequence. */
module TerminalRecovery {
  import opened Wrappers
  import opened PaymentErrors
  import opened Transfers
  import opened Ledgers
  import opened Terminal
  import opened TerminalBudget
  import opened TerminalOutcome
  import opened TerminalSolvency
  import opened TerminalRuns

  /** `s` is `t`, possibly renewed or re-priced, or its second step. */
  ghost predicate Continues(t: Transfer, s: Transfer) {
    && s.token == t.token && s.caller == t.caller && s.from == t.from && s.to == t.to
    && s.operation == t.operation && s.memo == t.memo
    && (|| (s.kind == t.kind && s.amount == t.amount)
        || (IsFirstStep(t) && s.kind == DoubleStep(Second, t.kind.interim) && s.amount <= t.amount))
  }

  ghost predicate OnList(list: RecoveryList, s: Transfer) {
    IdOf(s) in list && list[IdOf(s)] == s
  }

  ghost predicate FixedFee(e: Env, fee: nat) {
    forall k :: e.answers(k).fee == fee
  }

  function AtFee(t: Transfer, fee: nat): Transfer {
    t.(fee := fee)
  }

  /** `u` is `t`, possibly at another fee. */
  predicate Repriced(t: Transfer, u: Transfer) {
    u == AtFee(t, u.fee)
  }

  function Last(w: World): Moment
    requires w.log != []
  {
    w.log[|w.log| - 1]
  }

  // ---------------------------------------------------------------- the list, at any fee

  /** What an attempt leaves behind: at most one transfer for the list, and the configurations for which
      the list was re-priced on the way, in order. */
  datatype Rest = Rest(left: Option<Transfer>, configs: seq<TokenConfiguration>)

  const NOTHING: Rest := Rest(None, [])

  /** `update_recovery_fees` after the configuration has become `config`. */
  function RepriceList(e: Env, me: Principal, list: RecoveryList, config: TokenConfiguration): RecoveryList {
    PushAll(map[], RefeeAll(me, config, Listing(list, e.order(list.Keys))))
  }

  function RepriceLists(e: Env, me: Principal, list: RecoveryList, configs: seq<TokenConfiguration>): RecoveryList
    decreases |configs|
  {
    if configs == [] then list else RepriceLists(e, me, RepriceList(e, me, list, configs[0]), configs[1..])
  }

  function Latest(config: TokenConfiguration, configs: seq<TokenConfiguration>): TokenConfiguration {
    if configs == [] then config else configs[|configs| - 1]
  }

  function PutBack(list: RecoveryList, left: Option<Transfer>): RecoveryList {
    match left case None => list case Some(s) => Push(list, s)
  }

  /** The list after an attempt: re-priced as often as the configuration changed, then what is left. */
  function AfterAttempt(e: Env, me: Principal, list: RecoveryList, rest: Rest): RecoveryList {
    PutBack(RepriceLists(e, me, list, rest.configs), rest.left)
  }

  // ---------------------------------------------------------------- the endings, at any fee

  /** A request that was not executed before has been charged the ledger's fee. */
  ghost predicate Charged(e: Env, w: World, r: Request) {
    forall f :: FixedFee(e, f) && r !in w.ledger.blocks ==> r.fee == f
  }

  function AfterCredit(balances: map<Principal, nat>, t: Transfer, amount: nat): map<Principal, nat> {
    if t.operation == CreditOnSuccess then Credit(balances, t.caller, amount) else balances
  }

  /** A last step of `t` is executed under the reported id, and credited if that was agreed. */
  ghost predicate SettledAs(e: Env, w: World, t: Transfer, w': World, tx: nat, s: Transfer) {
    && Continues(t, s) && !IsFirstStep(s) && Charged(e, w, RequestOf(w.me, s))
    && tx < |w'.ledger.blocks| && w'.ledger.blocks[tx] == RequestOf(w.me, s)
    && w'.balances == AfterCredit(w.balances, t, AmountMinusFee(s))
  }

  predicate RefusedCall(t: Transfer, call: Call) {
    call.Requested? && Repriced(t, call.t) && call.reply.Err? && call.reply.error.TransferFailed?
  }

  /** The reply says nothing about the execution of the request. */
  predicate LostReply(m: Moment) {
    m.call.Requested? && m.call.reply == Err(MaybeFailed)
  }

  /** A request for `u` was sent on the way from `w` to `w'` and its reply was lost. */
  ghost predicate MaybeExecuted(w: World, w': World, u: Transfer) {
    exists i :: |w.log| <= i < |w'.log| && LostReply(w'.log[i]) && w'.log[i].call.t == u
  }

  /** The request refused at fee `f` is not executed; a request for `t` at another fee can only be executed
      if it was so before or its reply was lost; and a lost reply that no `BadFee` reply follows was to a
      request at fee `f`. */
  ghost predicate Explained(w: World, t: Transfer, w': World, f: nat) {
    && RequestOf(w.me, AtFee(t, f)) !in w'.ledger.blocks
    && (forall g: nat :: RequestOf(w.me, AtFee(t, g)) in w'.ledger.blocks ==>
          RequestOf(w.me, AtFee(t, g)) in w.ledger.blocks || MaybeExecuted(w, w', AtFee(t, g)))
    && (forall i :: |w.log| <= i < |w'.log| && LostReply(w'.log[i]) && NoBadFeeAfter(w', i) ==>
          w'.log[i].call.t.fee == f)
    && (Steady(w, w') ==> f == t.fee)
  }

  ghost predicate NoBadFeeAfter(w: World, i: nat) {
    forall j :: i < j < |w.log| ==> !BadFeeReply(w.log[j])
  }

  /** The last call is a request for `t`, at its fee of that time, which the ledger definitely refused.
      The caller is refunded if that was agreed. */
  ghost predicate GivenUp(w: World, t: Transfer, w': World) {
    && |w.log| < |w'.log| && RefusedCall(t, Last(w').call)
    && (InWindow(t, w'.clock) ==> Explained(w, t, w', Last(w').call.t.fee))
    && w'.balances == AfterFailure(w.balances, t)
  }

  /** The last call asked for the minting account and failed. */
  ghost predicate MinterUnknown(w: World, w': World) {
    && |w.log| < |w'.log| && Last(w').call.AskedMinting? && Last(w').call.minting.Err?
    && w'.balances == w.balances
  }

  /** The first step was executed, or its interim account holds tokens, at a fee its amount does not cover
      twice. */
  ghost predicate Stranded(w: World, t: Transfer, w': World, fee: nat)
    requires IsFirstStep(t)
  {
    && !Valid(w.me, AtFee(t, fee)) && w'.balances == w.balances
    && (RequestOf(w.me, AtFee(t, fee)) in w'.ledger.blocks || Funds(w'.ledger, t.kind.interim) > 0)
  }

  /** Every way an attempt at `t` can end, from any world, at any fees and at any time. */
  ghost predicate Accounted(e: Env, w: World, t: Transfer, w': World, r: Outcome, rest: Rest) {
    && w.log <= w'.log
    && w'.recovery == AfterAttempt(e, w.me, w.recovery, rest) && w'.config == Latest(w.config, rest.configs)
    && match rest.left {
         case Some(s) =>
           && Continues(t, s) && OnList(w'.recovery, s) && r.Err? && r.error.Recoverable?
           && w'.balances == w.balances
         case None =>
           match r
           case Ok(tx) => exists s :: SettledAs(e, w, t, w', tx, s)
           case Err(PaymentFailed(_)) => !IsSecondStep(t) && GivenUp(w, t, w')
           case Err(FeeMismatch(_)) => !Steady(w, w') && MinterUnknown(w, w')
           case Err(ParametersRejected(_)) => IsFirstStep(t) && exists fee :: Stranded(w, t, w', fee)
           case Err(_) => false
       }
    && (Steady(w, w') ==> rest.configs == [] && (rest.left.Some? ==> rest.left.value.fee == t.fee))
    && (FixedFee(e, t.fee) ==> Steady(w, w'))
  }

  /** What is left is the transfer itself or its second step, created between the two times. */
  predicate LeftSince(t: Transfer, left: Option<Transfer>, since: nat, until: nat) {
    left.Some? && left.value != t ==>
      && IsFirstStep(t) && left.value == StepAt(t, left.value.createdAt)
      && since <= left.value.createdAt <= until
  }

  predicate IsGivenUp(r: Outcome) {
    r.Err? && r.error.PaymentFailed?
  }

  /** `w1` is `w0` after calls that changed no books. */
  ghost predicate Called(w0: World, w1: World) {
    && w1.me == w0.me && w1.config == w0.config && w1.recovery == w0.recovery && w1.balances == w0.balances
    && w0.log <= w1.log
  }

  /** What a verdict means right after its call. */
  ghost predicate Legit(e: Env, w: World, t: Transfer, v: Verdict) {
    && w.log != [] && Last(w).call.Requested? && Last(w).call.t == t
    && match v
       case Done(tx) => tx < |w.ledger.blocks| && w.ledger.blocks[tx] == RequestOf(w.me, t)
       case Again => !BadFeeReply(Last(w))
       case Reprice(_) => BadFeeReply(Last(w)) && !FixedFee(e, t.fee)
       case Fail(err) =>
         && err.TransferFailed? && Last(w).call.reply == Err(err)
         && (!IsSecondStep(t) && InWindow(t, w.clock) ==> RequestOf(w.me, t) !in w.ledger.blocks)
  }

  /** What one request for `t` does to the ledger: an indeterminate reply may hide an execution, any other
      failure does not. */
  ghost predicate OneRequest(e: Env, w: World, t: Transfer, w1: World) {
    && Called(w, w1) && |w1.log| == |w.log| + 1 && Last(w1).call.Requested? && Last(w1).call.t == t
    && (Last(w1).call.reply.Err? && !LostReply(Last(w1)) ==> w1.ledger.blocks == w.ledger.blocks)
    && (w1.ledger.blocks == w.ledger.blocks || w1.ledger.blocks == w.ledger.blocks + [RequestOf(w.me, t)])
    && (forall r :: r in w1.ledger.blocks ==> r in w.ledger.blocks || Charged(e, w, r))
    && w.clock <= w1.clock
  }

  lemma VerdictsLegit(e: Env, w: World, t: Transfer)
    ensures var (w1, reply) := Execute(e, w, t);
            && OneRequest(e, w, t, w1)
            && Legit(e, w1, t, RecoveryVerdict(reply))
            && (IsSecondStep(t) || RequestOf(w.me, t) !in w.ledger.blocks ==> Legit(e, w1, t, FirstVerdict(reply)))
            && (!RecoveryVerdict(reply).Reprice? ==> !BadFeeReply(Last(w1)))
  {
    var a, w1 := e.answers(w.calls), Await(e, w);
    SubmitContract(w1.ledger, RequestOf(w.me, t), w1.clock, a);
    if FixedFee(e, t.fee) {
      assert a.fee == t.fee;
    }
    forall r | r in Execute(e, w, t).0.ledger.blocks ensures r in w.ledger.blocks || Charged(e, w, r) {
      if r !in w.ledger.blocks {
        assert r == RequestOf(w.me, t) && a.fee == r.fee;
      }
    }
  }

  /** An ending reached after calls that changed no books is an ending from before them. */
  lemma AfterCalls(e: Env, w0: World, w1: World, t: Transfer, w': World, r: Outcome, rest: Rest)
    requires Called(w0, w1) && Accounted(e, w1, t, w', r, rest) && (IsGivenUp(r) ==> GivenUp(w0, t, w'))
    requires forall r :: r in w1.ledger.blocks ==> r in w0.ledger.blocks || Charged(e, w0, r)
    requires forall i :: |w0.log| <= i < |w1.log| ==> !BadFeeReply(w1.log[i])
    ensures Accounted(e, w0, t, w', r, rest)
  {
    assert Steady(w0, w') <==> Steady(w1, w') by {
      forall i | |w0.log| <= i < |w1.log| ensures w'.log[i] == w1.log[i] {
      }
    }
    match r {
      case Ok(tx) =>
        var s :| SettledAs(e, w1, t, w', tx, s);
        assert SettledAs(e, w0, t, w', tx, s);
      case Err(ParametersRejected(_)) =>
        var fee :| Stranded(w1, t, w', fee);
        assert Stranded(w0, t, w', fee);
      case Err(_) =>
    }
  }

  lemma {:induction false} RecoveryAccounted(e: Env, w: World, t: Transfer, n: nat) returns (rest: Rest)
    ensures var (w', r) := ExecuteRecoveryTransfer(e, w, t, n);
            && Accounted(e, w, t, w', r, rest)
            && (Steady(w, w') ==> LeftSince(t, rest.left, Execute(e, w, t).0.clock, w'.clock))
    decreases StageRank(t), n, 4
  {
    VerdictsLegit(e, w, t);
    var (w1, reply) := Execute(e, w, t);
    rest := ContinueAccounted(e, w, w1, t, n, RecoveryVerdict(reply));
  }

  lemma {:induction false} TransferAccounted(e: Env, w: World, t: Transfer, n: nat) returns (rest: Rest)
    requires Valid(w.me, t) && (IsSecondStep(t) || RequestOf(w.me, t) !in w.ledger.blocks)
    ensures var (w', r) := RunTransfer(e, w, t, n);
            && Accounted(e, w, t, w', r, rest)
            && (Steady(w, w') ==> LeftSince(t, rest.left, Execute(e, w, t).0.clock, w'.clock))
    decreases StageRank(t), n, 8
  {
    VerdictsLegit(e, w, t);
    var (w1, reply) := Execute(e, w, t);
    assert RunTransfer(e, w, t, n) == ExecuteTransfer(e, w, t, n);
    rest := ContinueAccounted(e, w, w1, t, n, FirstVerdict(reply));
  }

  lemma {:induction false} ContinueAccounted(e: Env, w: World, w1: World, t: Transfer, n: nat, v: Verdict)
    returns (rest: Rest)
    requires OneRequest(e, w, t, w1) && Legit(e, w1, t, v)
    requires !v.Reprice? ==> !BadFeeReply(Last(w1))
    requires v.Again? ==> Last(w1).call.reply.Err?
    ensures var (w', r) := Continue(e, w1, t, n, v);
            && Accounted(e, w, t, w', r, rest)
            && (Steady(w, w') ==> LeftSince(t, rest.left, w1.clock, w'.clock))
    decreases StageRank(t), n, 3
  {
    var (w', r) := Continue(e, w1, t, n, v);
    match v {
      case Done(tx) =>
        rest := CompleteAccounted(e, w1, t, tx, n);
        AfterCalls(e, w, w1, t, w', r, rest);
      case Again =>
        rest := RetryAccounted(e, w1, t, Minus1(n));
        if IsGivenUp(r) {
          GivenUpAfterLoss(e, w, w1, t, w');
        }
        AfterCalls(e, w, w1, t, w', r, rest);
      case Reprice(expected) => rest := RepriceAccounted(e, w, w1, expected, t, Minus1(n));
      case Fail(_) =>
        rest := Rest(if IsSecondStep(t) then Some(t) else None, []);
        assert AtFee(t, t.fee) == t;
    }
  }

  /** A refusal after one more request for the same transfer at the same fee. */
  lemma GivenUpAfterLoss(e: Env, w: World, w1: World, t: Transfer, w': World)
    requires OneRequest(e, w, t, w1) && !BadFeeReply(Last(w1)) && Last(w1).call.reply.Err?
    requires w1.log <= w'.log && GivenUp(w1, t, w')
    ensures GivenUp(w, t, w')
  {
    if InWindow(t, w'.clock) {
      var f := Last(w').call.t.fee;
      assert w'.log[|w.log|] == Last(w1);
      forall g: nat | RequestOf(w.me, AtFee(t, g)) in w'.ledger.blocks
        ensures RequestOf(w.me, AtFee(t, g)) in w.ledger.blocks || MaybeExecuted(w, w', AtFee(t, g))
      {
        if RequestOf(w.me, AtFee(t, g)) in w1.ledger.blocks && RequestOf(w.me, AtFee(t, g)) !in w.ledger.blocks {
          assert RequestOf(w.me, AtFee(t, g)).fee == RequestOf(w.me, t).fee;
          assert AtFee(t, g) == t && LostReply(w'.log[|w.log|]);
        }
      }
      forall i | |w.log| <= i < |w'.log| && LostReply(w'.log[i]) && NoBadFeeAfter(w', i)
        ensures w'.log[i].call.t.fee == f
      {
        if i == |w.log| {
          assert Steady(w1, w');
        }
      }
    }
  }

  lemma {:induction false} RetryAccounted(e: Env, w: World, t: Transfer, n: nat) returns (rest: Rest)
    ensures var (w', r) := Retry(e, w, t, n);
            && Accounted(e, w, t, w', r, rest)
            && (Steady(w, w') ==> LeftSince(t, rest.left, w.clock, w'.clock))
    decreases StageRank(t), n, if n == 0 then 1 else 5
  {
    if n == 0 {
      rest := Rest(Some(t), []);
    } else {
      rest := RecoveryAccounted(e, w, t, n);
    }
  }

  /** A second step's ending is its transfer's ending. */
  lemma SecondEnds(e: Env, w: World, t: Transfer, c: nat, w': World, r: Outcome, rest: Rest)
    requires IsFirstStep(t) && Accounted(e, w, StepAt(t, c), w', r, rest)
    ensures Accounted(e, w, t, w', r, rest) && !IsGivenUp(r)
  {
    if r.Ok? {
      var s :| SettledAs(e, w, StepAt(t, c), w', r.value, s);
      assert SettledAs(e, w, t, w', r.value, s);
    }
  }

  lemma {:induction false} CompleteAccounted(e: Env, w: World, t: Transfer, tx: nat, n: nat)
    returns (rest: Rest)
    requires (tx < |w.ledger.blocks| && w.ledger.blocks[tx] == RequestOf(w.me, t))
             || (IsFirstStep(t) && Funds(w.ledger, t.kind.interim) > 0)
    ensures var (w', r) := Complete(e, w, t, tx, n);
            && Accounted(e, w, t, w', r, rest) && !IsGivenUp(r)
            && (Steady(w, w') ==> LeftSince(t, rest.left, w.clock, w'.clock))
    decreases StageRank(t), n, 0
  {
    rest := NOTHING;
    var (w', r) := Complete(e, w, t, tx, n);
    if IsFirstStep(t) {
      var s := StepAt(t, w.clock);
      SecondStepAcceptedIff(w.me, t, w.clock);
      if Valid(w.me, s) {
        rest := TransferAccounted(e, w, s, n);
        TransferBudget(e, w, s, n);
        SecondEnds(e, w, t, w.clock, w', r, rest);
      } else {
        assert AtFee(t, t.fee) == t;
        assert Stranded(w, t, w', t.fee);
      }
    } else {
      assert SettledAs(e, w, t, w', tx, t);
    }
  }

  /** The configuration has been updated, after asking for the minting account or not. */
  ghost predicate UpdatedConfig(e: Env, w1: World, w2: World) {
    && w2.recovery == RepriceList(e, w1.me, w1.recovery, w2.config)
    && w2.me == w1.me && w2.balances == w1.balances && w2.ledger.blocks == w1.ledger.blocks
    && w1.log <= w2.log && forall i :: |w1.log| <= i < |w2.log| ==> !LostReply(w2.log[i])
  }

  /** A refusal after a `BadFee` reply and a re-pricing. */
  lemma GivenUpRepriced(e: Env, w: World, w1: World, w2: World, t: Transfer, u: Transfer, w': World)
    requires OneRequest(e, w, t, w1) && BadFeeReply(Last(w1)) && UpdatedConfig(e, w1, w2)
    requires Repriced(t, u) && w2.log <= w'.log && GivenUp(w2, u, w')
    ensures GivenUp(w, t, w')
  {
    assert w'.log[|w.log|] == Last(w1);
    if InWindow(t, w'.clock) {
      var f := Last(w').call.t.fee;
      forall g: nat ensures AtFee(u, g) == AtFee(t, g) {
      }
      forall g: nat | RequestOf(w.me, AtFee(t, g)) in w'.ledger.blocks
        ensures RequestOf(w.me, AtFee(t, g)) in w.ledger.blocks || MaybeExecuted(w, w', AtFee(t, g))
      {
        assert RequestOf(w2.me, AtFee(u, g)) in w'.ledger.blocks;
      }
      forall i | |w.log| <= i < |w'.log| && LostReply(w'.log[i]) && NoBadFeeAfter(w', i)
        ensures w'.log[i].call.t.fee == f
      {
      }
    }
  }

  /** The ending of a re-priced transfer is the ending of the transfer, after a `BadFee` reply. */
  lemma RepricedEnds(e: Env, w: World, w1: World, w2: World, t: Transfer, u: Transfer, w': World, r: Outcome,
                     rest: Rest)
    requires OneRequest(e, w, t, w1) && BadFeeReply(Last(w1)) && !FixedFee(e, t.fee)
    requires UpdatedConfig(e, w1, w2)
    requires Repriced(t, u) && Accounted(e, w2, u, w', r, rest)
    ensures Accounted(e, w, t, w', r, Rest(rest.left, [w2.config] + rest.configs)) && !Steady(w, w')
  {
    assert w'.log[|w.log|] == w1.log[|w.log|];
    assert !Steady(w, w');
    assert ([w2.config] + rest.configs)[1..] == rest.configs;
    if IsGivenUp(r) && rest.left.None? {
      GivenUpRepriced(e, w, w1, w2, t, u, w');
    }
    match r {
      case Ok(tx) =>
        var s :| SettledAs(e, w2, u, w', tx, s);
        assert SettledAs(e, w, t, w', tx, s);
      case Err(ParametersRejected(_)) =>
        var fee :| Stranded(w2, u, w', fee);
        assert AtFee(u, fee) == AtFee(t, fee);
        assert Stranded(w, t, w', fee);
      case Err(_) =>
    }
  }

  lemma {:induction false} RepriceAccounted(e: Env, w: World, w1: World, expectedFee: nat, t: Transfer, n: nat)
    returns (rest: Rest)
    requires OneRequest(e, w, t, w1) && BadFeeReply(Last(w1)) && !FixedFee(e, t.fee)
    ensures var (w', r) := UpdateConfigAndRetry(e, w1, expectedFee, t, n);
            Accounted(e, w, t, w', r, rest) && !Steady(w, w')
    decreases StageRank(t), n, if n == 0 then 2 else 6
  {
    var (w', r) := UpdateConfigAndRetry(e, w1, expectedFee, t, n);
    if MinterFails(e, w1, expectedFee) {
      assert w'.log[|w.log|] == w1.log[|w.log|];
      rest := NOTHING;
    } else {
      var w2 := ConfigUpdates(e, w1, expectedFee, t, n);
      var u := AtFee(t, GetFee(w2.config, StepTo(t), StepFrom(w2.me, t)));
      rest := RetryAccounted(e, w2, u, n);
      RepricedEnds(e, w, w1, w2, t, u, w', r, rest);
      rest := Rest(rest.left, [w2.config] + rest.configs);
    }
  }

  /** The minting account has to be asked for, and the query fails. */
  predicate MinterFails(e: Env, w: World, expectedFee: nat) {
    (expectedFee == 0 || expectedFee == w.config.fee) && QueryFailure(e.answers(w.calls)).Some?
  }

  lemma ConfigUpdates(e: Env, w1: World, expectedFee: nat, t: Transfer, n: nat) returns (w2: World)
    requires !MinterFails(e, w1, expectedFee)
    ensures UpdatedConfig(e, w1, w2)
    ensures UpdateConfigAndRetry(e, w1, expectedFee, t, n) ==
            Retry(e, w2, AtFee(t, GetFee(w2.config, StepTo(t), StepFrom(w2.me, t))), n)
  {
    if expectedFee == 0 || expectedFee == w1.config.fee {
      var (w3, reply) := QueryMintingAccount(e, w1, expectedFee);
      w2 := SetMintingAccount(e, w3, reply.value);
    } else {
      w2 := SetFee(e, w1, expectedFee);
    }
  }

  // ---------------------------------------------------------------- recover_tx

  predicate Asks(call: Call, t: Transfer) {
    call.Requested? && call.t == t
  }

  lemma StartsAsking(e: Env, w: World, t: Transfer, n: nat)
    ensures var w' := ExecuteRecoveryTransfer(e, w, t, n).0;
            w.log <= w'.log && |w.log| < |w'.log| && Asks(w'.log[|w.log|].call, t)
  {
    var (w1, reply) := Execute(e, w, t);
    ContinueBudget(e, w1, t, n, RecoveryVerdict(reply));
  }

  /** The two dropping exits of old transfers. */
  predicate DroppedOld(e: Env, w: World, t: Transfer) {
    !CanDeduplicate(w, t) && (t.kind.SingleStep? || QueryFailure(e.answers(w.calls)).Some?)
  }

  /** A dropped transfer is on no list; nothing but time (and other people's gifts) has changed. */
  ghost predicate Dropped(e: Env, w: World, t: Transfer, w': World, r: Outcome) {
    && w'.recovery == w.recovery && w'.balances == w.balances && w'.config == w.config
    && w'.ledger.blocks == w.ledger.blocks
    && r == Err(if t.kind.SingleStep? then PaymentFailed(TransferTooOld)
                else match QueryFailure(e.answers(w.calls))
                  case Some(code) => ToPaymentError(FromRejection(code))
                  case None => Fatal)
  }

  /** An old double-step transfer whose interim account is empty. */
  predicate FoundEmpty(e: Env, w: World, t: Transfer) {
    && !CanDeduplicate(w, t) && !DroppedOld(e, w, t)
    && t.kind.DoubleStep? && Funds(Asked(e, w, t).ledger, t.kind.interim) == 0
  }

  /** A first step is refunded, a second step completed, without a further call. */
  ghost predicate DecidedEmpty(e: Env, w: World, t: Transfer, w': World, r: Outcome)
    requires t.kind.DoubleStep?
  {
    var w1 := Asked(e, w, t);
    if IsFirstStep(t) then w' == w1.(balances := AfterFailure(w.balances, t)) && r == Err(PaymentFailed(Unknown))
    else
      && r == Ok(UNKNOWN_TX_ID)
      && w' == w1.(balances := AfterCredit(w.balances, t, AmountMinusFee(t)))
  }

  /** Time passes with every remote call. */
  ghost predicate Ticking(e: Env) {
    forall k :: e.answers(k).elapsed > 0
  }

  /** What a recovery leaves: the transfer itself, or, with a new creation time, its second step or the renewal
      of an old second step. */
  ghost predicate Renewal(e: Env, w: World, t: Transfer, left: Option<Transfer>, until: nat) {
    left.Some? && left.value != t ==>
      && w.clock <= left.value.createdAt <= until && (Ticking(e) ==> w.clock < left.value.createdAt)
      && (|| (IsFirstStep(t) && left.value == StepAt(t, left.value.createdAt))
          || (IsSecondStep(t) && !CanDeduplicate(w, t) && left.value == t.(createdAt := left.value.createdAt)))
  }

  /** `recover_tx` in every world and for every reply sequence, changing fees included. */
  lemma RecoverTxAccounted(e: Env, w: World, t: Transfer) returns (rest: Rest)
    ensures var (w', r) := RecoverTx(e, w, t);
            && (if DroppedOld(e, w, t) then rest == NOTHING && Dropped(e, w, t, w', r)
                else if FoundEmpty(e, w, t) then rest == NOTHING && DecidedEmpty(e, w, t, w', r)
                else Accounted(e, w, t, w', r, rest))
            && (Steady(w, w') ==> rest.configs == [] && Renewal(e, w, t, rest.left, w'.clock))
  {
    rest := NOTHING;
    var (w', r) := RecoverTx(e, w, t);
    if CanDeduplicate(w, t) {
      rest := RecoveryAccounted(e, w, t, N_RETRIES);
    } else if !DroppedOld(e, w, t) && !FoundEmpty(e, w, t) {
      if IsFirstStep(t) {
        rest := OldFirstAccounted(e, w, t);
      } else {
        rest := OldSecondAccounted(e, w, t);
      }
    }
  }

  lemma OldFirstAccounted(e: Env, w: World, t: Transfer) returns (rest: Rest)
    requires IsFirstStep(t) && !CanDeduplicate(w, t) && !DroppedOld(e, w, t) && !FoundEmpty(e, w, t)
    ensures var (w', r) := RecoverTx(e, w, t);
            && Accounted(e, w, t, w', r, rest)
            && (Steady(w, w') ==> rest.configs == [] && Renewal(e, w, t, rest.left, w'.clock))
  {
    var (w', r) := RecoverTx(e, w, t);
    var w1 := Asked(e, w, t);
    rest := CompleteAccounted(e, w1, t, UNKNOWN_TX_ID, N_RETRIES);
    AfterCalls(e, w, w1, t, w', r, rest);
  }

  lemma OldSecondAccounted(e: Env, w: World, t: Transfer) returns (rest: Rest)
    requires IsSecondStep(t) && !CanDeduplicate(w, t) && !DroppedOld(e, w, t) && !FoundEmpty(e, w, t)
    ensures var (w', r) := RecoverTx(e, w, t);
            && Accounted(e, w, t, w', r, rest)
            && (Steady(w, w') ==> rest.configs == [] && Renewal(e, w, t, rest.left, w'.clock))
  {
    var (w', r) := RecoverTx(e, w, t);
    var w1 := Asked(e, w, t);
    var u := t.(createdAt := w1.clock);
    rest := RecoveryAccounted(e, w1, u, N_RETRIES);
    RecoveryBudget(e, w1, u, N_RETRIES);
    RenewedEnds(e, w1, t, u, w', r, rest);
    AfterCalls(e, w, w1, t, w', r, rest);
  }

  lemma RenewedEnds(e: Env, w: World, t: Transfer, u: Transfer, w': World, r: Outcome, rest: Rest)
    requires IsSecondStep(t) && u == t.(createdAt := u.createdAt) && Accounted(e, w, u, w', r, rest)
    ensures Accounted(e, w, t, w', r, rest)
  {
    if r.Ok? {
      var s :| SettledAs(e, w, u, w', r.value, s);
      assert SettledAs(e, w, t, w', r.value, s);
    }
  }

  /** A failing balance query loses the transfer although the caller is told `Recoverable`: the report
      is right exactly when the transfer is not dropped. */
  lemma RecoverableButDropped(e: Env, w: World, t: Transfer)
    requires t.kind.DoubleStep? && !CanDeduplicate(w, t) && e.answers(w.calls).fate == Lost(SysTransient, false)
    requires forall s :: Continues(t, s) ==> !OnList(w.recovery, s)
    ensures var (w', r) := RecoverTx(e, w, t);
            r == Err(Recoverable(IcError)) && forall s :: Continues(t, s) ==> !OnList(w'.recovery, s)
  {
    var rest := RecoverTxAccounted(e, w, t);
  }

  lemma ReportedRecoverable(e: Env, w: World, t: Transfer)
    requires RecoverTx(e, w, t).1 == Err(Recoverable(IcError))
    requires forall s :: Continues(t, s) ==> !OnList(w.recovery, s)
    ensures (exists s :: Continues(t, s) && OnList(RecoverTx(e, w, t).0.recovery, s)) <==> !DroppedOld(e, w, t)
  {
    var rest := RecoverTxAccounted(e, w, t);
    if !DroppedOld(e, w, t) {
      assert Continues(t, rest.left.value) && OnList(RecoverTx(e, w, t).0.recovery, rest.left.value);
    }
  }

  /** The branch that strands tokens: completing a first step is reported invalid, with nothing listed and
      nobody refunded, exactly when the transfer is invalid at its current fee.  `TerminalFees` says when
      a caller's transfer can get there. */
  lemma StrandedIff(e: Env, w: World, t: Transfer, tx: nat, n: nat)
    requires IsFirstStep(t)
    ensures var (w', r) := Complete(e, w, t, tx, n);
            (w' == w && r.Err? && r.error.ParametersRejected?) <==> !Valid(w.me, t)
  {
    SecondStepAcceptedIff(w.me, t, w.clock);
    if Valid(w.me, t) {
      var rest := TransferAccounted(e, w, StepAt(t, w.clock), n);
    }
  }
}
