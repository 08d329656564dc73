/** What the replies of the ledger decide: for every world, every reply sequence and every configuration, which
    calls an attempt makes and how it ends, read off the log.  No hypotheses. */
module TerminalReplies {
  import opened Wrappers
  import opened PaymentErrors
  import opened Transfers
  import opened Ledgers
  import opened Terminal
  import opened TerminalOutcome
  import opened TerminalSolvency
  import opened TerminalRuns
  import opened TerminalRecovery
  import opened TerminalRepricing

  /** The reply leaves open whether the request was executed.  A first request was certainly not executed by a
      busy or panicking ledger. */
  predicate Unclear(initial: bool, reply: Result<nat, InternalPaymentError>) {
    || reply == Err(MaybeFailed)
    || (!initial && (reply == Err(TransferFailed(Rejected(TemporarilyUnavailable)))
                   || reply == Err(TransferFailed(TokenPanic))))
  }

  /** After the first request a reported duplicate is the transfer itself. */
  predicate Confirms(initial: bool, reply: Result<nat, InternalPaymentError>, tx: nat) {
    reply == Ok(tx) || (!initial && reply == Err(TransferFailed(Rejected(Duplicate(tx)))))
  }

  /** Nothing but the ledger, the clock and the log has changed. */
  ghost predicate OnlyAsked(w: World, w1: World) {
    && w1 == w.(ledger := w1.ledger, clock := w1.clock, calls := w1.calls, sent := w1.sent, log := w1.log)
    && w.log <= w1.log && w.clock <= w1.clock
  }

  /** `k` identical requests were made, all but the last answered unclearly; an unclear last answer exhausts the
      `n` attempts. */
  ghost predicate Tried(w: World, t: Transfer, n: nat, initial: bool, w1: World, k: nat) {
    && OnlyAsked(w, w1) && |w1.log| == |w.log| + k && 1 <= k && (k == 1 || k <= n)
    && (forall i :: |w.log| <= i < |w1.log| ==> Asks(w1.log[i].call, t))
    && (forall i :: |w.log| <= i < |w1.log| - 1 ==> Unclear(initial && i == |w.log|, w1.log[i].call.reply))
    && (Unclear(initial && k == 1, Last(w1).call.reply) ==> k >= n)
  }

  /** `p` has received `amount` more. */
  ghost predicate Received(w: World, w': World, p: Principal, amount: nat) {
    forall q ::
      (if q in w'.balances then w'.balances[q] else 0)
      == (if q in w.balances then w.balances[q] else 0) + (if q == p then amount else 0)
  }

  /** The transfer is listed and reported recoverable. */
  ghost predicate PutAside(w: World, t: Transfer, w': World, r: Outcome) {
    w' == w.(recovery := w.recovery[IdOf(t) := t]) && r == Err(Recoverable(IcError))
  }

  /** The second step of a first step, created when the first one was confirmed. */
  function NextOf(t: Transfer, now: nat): Transfer
    requires t.kind.DoubleStep?
  {
    t.(kind := DoubleStep(Second, t.kind.interim), amount := if t.amount > t.fee then t.amount - t.fee else 0,
       createdAt := now)
  }

  /** A confirmed first step is followed by its second step with the attempts that are left; any other
      transfer is done. */
  ghost predicate GoesOn(e: Env, w: World, t: Transfer, n: nat, tx: nat, w': World, r: Outcome) {
    if t.kind.DoubleStep? && t.kind.stage == First then (w', r) == RunTransfer(e, w, NextOf(t, w.clock), n)
    else
      && r == Ok(tx) && w' == w.(balances := w'.balances)
      && Received(w, w', t.caller,
                  if t.operation == CreditOnSuccess && t.amount > t.fee then t.amount - t.fee else 0)
  }

  /** A refused second step is listed; any other refused transfer is over, and given back if that was agreed. */
  ghost predicate TurnedDown(w: World, t: Transfer, reason: TransferFailReason, w': World, r: Outcome) {
    if t.kind.DoubleStep? && t.kind.stage == Second then PutAside(w, t, w', r)
    else
      && r == Err(PaymentFailed(reason)) && w' == w.(balances := w'.balances)
      && Received(w, w', t.caller, if t.operation == CreditOnError then t.amount else 0)
  }

  /** The account the current step moves tokens from, and the one it moves them to. */
  function Ends(me: Principal, t: Transfer): set<Account> {
    if t.kind.SingleStep? then {Account(me, t.from), t.to}
    else if t.kind.stage == First then {Account(me, t.from), t.kind.interim}
    else {t.kind.interim, t.to}
  }

  function RightFee(me: Principal, config: TokenConfiguration, t: Transfer): nat {
    if config.mintingAccount in Ends(me, t) then 0 else config.fee
  }

  /** The configuration has become `config`, the list is re-priced, and the transfer is tried again at the right
      fee with the attempts that are left. */
  ghost predicate Resumes(e: Env, w: World, config: TokenConfiguration, t: Transfer, n: nat, w2: World,
                          w': World, r: Outcome) {
    var u := t.(fee := RightFee(w.me, config, t));
    && w2 == w.(config := config, recovery := w2.recovery)
    && (ValidOrder(e) && Keyed(w.recovery) ==> ListRepriced(w.me, config, w.recovery, w2.recovery))
    && if n == 0 then PutAside(w2, u, w', r) else (w', r) == ExecuteRecoveryTransfer(e, w2, u, n)
  }

  ghost predicate MinterAsked(e: Env, w: World, fee: nat, w1: World, reply: Result<Account, PaymentError>) {
    && OnlyAsked(w, w1) && |w1.log| == |w.log| + 1 && Last(w1).call == AskedMinting(reply)
    && (reply.Ok? <==> e.answers(w.calls).fate == Served)
    && (reply.Ok? ==>
          reply.value == match e.answers(w.calls).minting case Some(a) => a case None => Account(0, Default))
    && (reply.Err? ==> reply.error == FeeMismatch(fee))
  }

  ghost predicate MinterKnown(e: Env, w: World, t: Transfer, n: nat, w1: World, reply: Result<Account, PaymentError>,
                              w': World, r: Outcome) {
    match reply
    case Err(err) => w' == w1 && r == Err(err)
    case Ok(account) => exists w2 :: Resumes(e, w1, w.config.(mintingAccount := account), t, n, w2, w', r)
  }

  /** An unknown fee is configured.  A fee of zero, or the configured one, means that the minting account has
      changed: it is asked for, and without an answer the transfer is over. */
  ghost predicate Reprices(e: Env, w: World, t: Transfer, n: nat, fee: nat, w': World, r: Outcome) {
    if fee != 0 && fee != w.config.fee then exists w2 :: Resumes(e, w, w.config.(fee := fee), t, n, w2, w', r)
    else exists w1, reply :: MinterAsked(e, w, fee, w1, reply) && MinterKnown(e, w, t, n, w1, reply, w', r)
  }

  /** How an attempt ends after the `k`-th request, in the world `w1` of its reply. */
  ghost predicate Concludes(e: Env, t: Transfer, n: nat, initial: bool, w1: World, k: nat, w': World, r: Outcome)
    requires w1.log != [] && Last(w1).call.Requested?
  {
    var again, reply := !(initial && k == 1), Last(w1).call.reply;
    if Unclear(!again, reply) then PutAside(w1, t, w', r)
    else
      match reply
      case Ok(tx) => GoesOn(e, w1, t, if n < k then n else n - k + 1, tx, w', r)
      case Err(WrongFee(fee)) => Reprices(e, w1, t, if n < k then 0 else n - k, fee, w', r)
      case Err(TransferFailed(reason)) =>
        if again && reason.Rejected? && reason.error.Duplicate? then
          GoesOn(e, w1, t, if n < k then n else n - k + 1, reason.error.duplicateOf, w', r)
        else TurnedDown(w1, t, reason, w', r)
      case Err(_) => false
  }

  /** One request and its reply. */
  lemma OneTry(e: Env, w: World, t: Transfer)
    ensures var (w1, reply) := Execute(e, w, t);
            && OnlyAsked(w, w1) && |w1.log| == |w.log| + 1 && Last(w1).call == Requested(t, reply)
            && (reply.Ok? || reply.error.TransferFailed? || reply.error.WrongFee? || reply.error == MaybeFailed)
  {
  }

  /** How each fate of a request is read: only a lost one is unclear on the first attempt; a request that is not
      executed is refused with the ledger's own reason. */
  lemma RepliesRead(e: Env, w: World, t: Transfer)
    ensures var reply := Execute(e, w, t).1;
            var executed := RequestOf(w.me, t) in w.ledger.blocks;
            match e.answers(w.calls).fate
            case Lost(_, _) => reply == Err(MaybeFailed)
            case Trapped => reply == Err(TransferFailed(TokenPanic))
            case Busy => reply == Err(TransferFailed(Rejected(TemporarilyUnavailable)))
            case Unreachable => reply == if executed then Err(MaybeFailed) else Err(TransferFailed(NotFound))
            case Refused(err) => !executed && IsRefusal(err) ==> reply == Err(TransferFailed(Rejected(err)))
            case Served =>
              if e.answers(w.calls).fee != t.fee then reply == Err(WrongFee(e.answers(w.calls).fee))
              else reply.Ok? || (reply.error.TransferFailed? && reply.error.reason.Rejected?)
  {
  }

  lemma ResumesRightly(e: Env, w: World, config: TokenConfiguration, t: Transfer, n: nat, w2: World)
    requires w2 == w.(config := config, recovery := w2.recovery)
    requires ValidOrder(e) && Keyed(w.recovery) ==> ListRepriced(w.me, config, w.recovery, w2.recovery)
    ensures var (w', r) := Retry(e, w2, t.(fee := GetFee(w2.config, StepTo(t), StepFrom(w2.me, t))), n);
            Resumes(e, w, config, t, n, w2, w', r)
  {
    assert GetFee(config, StepTo(t), StepFrom(w.me, t)) == RightFee(w.me, config, t);
  }

  lemma RepricesRightly(e: Env, w: World, t: Transfer, n: nat, fee: nat)
    ensures var (w', r) := UpdateConfigAndRetry(e, w, fee, t, n); Reprices(e, w, t, n, fee, w', r)
  {
    var (w', r) := UpdateConfigAndRetry(e, w, fee, t, n);
    if fee != 0 && fee != w.config.fee {
      var w2 := SetFee(e, w, fee);
      if ValidOrder(e) && Keyed(w.recovery) {
        ConfigurationSet(e, w, fee, w.config.mintingAccount);
      }
      ResumesRightly(e, w, w.config.(fee := fee), t, n, w2);
    } else {
      var (w1, reply) := QueryMintingAccount(e, w, fee);
      assert MinterAsked(e, w, fee, w1, reply);
      if reply.Ok? {
        var w2 := SetMintingAccount(e, w1, reply.value);
        if ValidOrder(e) && Keyed(w1.recovery) {
          ConfigurationSet(e, w1, fee, reply.value);
        }
        ResumesRightly(e, w1, w1.config.(mintingAccount := reply.value), t, n, w2);
      }
      assert MinterKnown(e, w, t, n, w1, reply, w', r);
    }
  }

  lemma CompletesRightly(e: Env, w: World, t: Transfer, n: nat, tx: nat)
    ensures var (w', r) := Complete(e, w, t, tx, n); GoesOn(e, w, t, n, tx, w', r)
  {
    var (w', r) := Complete(e, w, t, tx, n);
    if IsFirstStep(t) {
      assert NextStep(t, w.clock) == Some(NextOf(t, w.clock));
    }
  }

  /** Whatever the error: a refused second step is listed, and a wrong fee named; any other transfer is over. */
  lemma RejectSpec(w: World, t: Transfer, err: InternalPaymentError)
    ensures var (w', r) := Reject(w, t, err);
            if t.kind.DoubleStep? && t.kind.stage == Second then
              && w' == w.(recovery := w.recovery[IdOf(t) := t])
              && r == Err(Recoverable(if err.WrongFee? then RecoveryBadFee(err.expected) else IcError))
            else
              && r == Err(ToPaymentError(err)) && w' == w.(balances := w'.balances)
              && Received(w, w', t.caller, if t.operation == CreditOnError then t.amount else 0)
  {
  }

  lemma RejectsRightly(w: World, t: Transfer, reason: TransferFailReason)
    ensures var (w', r) := Reject(w, t, TransferFailed(reason)); TurnedDown(w, t, reason, w', r)
  {
  }

  /** The conclusion of the first request, unless the attempt goes on. */
  lemma FirstConcludes(e: Env, w1: World, t: Transfer, n: nat, initial: bool)
    requires w1.log != [] && Last(w1).call.Requested?
    requires var reply := Last(w1).call.reply;
             && (reply.Ok? || reply.error.TransferFailed? || reply.error.WrongFee? || reply.error == MaybeFailed)
             && (Unclear(initial, reply) ==> n <= 1)
    ensures var reply := Last(w1).call.reply;
            var (w', r) := Continue(e, w1, t, n, if initial then FirstVerdict(reply) else RecoveryVerdict(reply));
            Concludes(e, t, n, initial, w1, 1, w', r)
  {
    var reply := Last(w1).call.reply;
    match if initial then FirstVerdict(reply) else RecoveryVerdict(reply) {
      case Done(tx) => CompletesRightly(e, w1, t, n, tx);
      case Again =>
      case Reprice(fee) => RepricesRightly(e, w1, t, Minus1(n), fee);
      case Fail(err) => RejectsRightly(w1, t, err.reason);
    }
  }

  /** One more unclear reply before the others. */
  lemma TriedBefore(w: World, t: Transfer, n: nat, initial: bool, w0: World, w1: World, k: nat)
    requires n > 1 && Tried(w, t, 1, initial, w0, 1) && Unclear(initial, Last(w0).call.reply)
    requires Tried(w0, t, n - 1, false, w1, k)
    ensures Tried(w, t, n, initial, w1, k + 1)
  {
    forall i | |w.log| <= i < |w1.log|
      ensures Asks(w1.log[i].call, t)
      ensures i < |w1.log| - 1 ==> Unclear(initial && i == |w.log|, w1.log[i].call.reply)
    {
      if i == |w.log| {
        assert w1.log[i] == Last(w0);
      }
    }
  }

  /** A first or a later attempt at `t`. */
  function Attempt(e: Env, w: World, t: Transfer, n: nat, initial: bool): (World, Outcome) {
    if initial then ExecuteTransfer(e, w, t, n) else ExecuteRecoveryTransfer(e, w, t, n)
  }

  lemma TriesAgain(e: Env, w: World, t: Transfer, n: nat, initial: bool)
    requires Unclear(initial, Execute(e, w, t).1) && n > 1
    ensures Attempt(e, w, t, n, initial) == Attempt(e, Execute(e, w, t).0, t, n - 1, false)
  {
    var w0 := Execute(e, w, t).0;
    assert Continue(e, w0, t, n, Again) == Retry(e, w0, t, n - 1) == ExecuteRecoveryTransfer(e, w0, t, n - 1);
  }

  lemma ConcludesLater(e: Env, t: Transfer, n: nat, initial: bool, w1: World, k: nat, w': World, r: Outcome)
    requires w1.log != [] && Last(w1).call.Requested? && 1 <= k && (k == 1 || k <= n - 1) && n > 1
    requires Concludes(e, t, n - 1, false, w1, k, w', r)
    ensures Concludes(e, t, n, initial, w1, k + 1, w', r)
  {
  }

  /** An attempt repeats its request as long as the replies are unclear and attempts are left, and then does
      what the last reply demands. */
  lemma {:induction false} AttemptByReplies(e: Env, w: World, t: Transfer, n: nat, initial: bool)
    returns (w1: World, k: nat)
    ensures var (w', r) := Attempt(e, w, t, n, initial);
            Tried(w, t, n, initial, w1, k) && Concludes(e, t, n, initial, w1, k, w', r)
    decreases n
  {
    OneTry(e, w, t);
    var (w0, reply) := Execute(e, w, t);
    var (w', r) := Attempt(e, w, t, n, initial);
    assert Tried(w, t, 1, initial, w0, 1);
    if Unclear(initial, reply) && n > 1 {
      w1, k := AttemptByReplies(e, w0, t, n - 1, false);
      TriesAgain(e, w, t, n, initial);
      TriedBefore(w, t, n, initial, w0, w1, k);
      ConcludesLater(e, t, n, initial, w1, k, w', r);
      k := k + 1;
    } else {
      w1, k := w0, 1;
      FirstConcludes(e, w1, t, n, initial);
    }
  }
}
