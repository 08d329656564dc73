/** The payment protocol of `TokenTerminal` (ic-payments/src/token_terminal.rs) as functions on an
    explicit world.  `Env` supplies one answer per remote call and the order in which the stable map
    iterates its keys; nothing else is left open, so a statement for every `Env` is a
    statement for every reply sequence. */
module Terminal {
  import opened Wrappers
  import opened PaymentErrors
  import opened Transfers
  import opened Ledgers

  const UNKNOWN_TX_ID: nat := 0xFFFF_FFFF_FFFF_FFFF
  const N_RETRIES: nat := 3
  const TX_WINDOW: nat := 1_000_000_000 * 60 * 5

  datatype Env = Env(answers: nat -> Answer, order: set<TransferId> -> seq<TransferId>)

  type RecoveryList = map<TransferId, Transfer>

  /** One remote call and its reply, with the ledger and the balances at that moment. */
  datatype Call =
    | Requested(t: Transfer, reply: Result<nat, InternalPaymentError>)
    | AskedBalance(account: Account, balance: Result<nat, PaymentError>)
    | AskedMinting(minting: Result<Account, PaymentError>)

  datatype Moment = Moment(call: Call, ledger: Ledger, balances: map<Principal, nat>)

  /** `calls` counts every remote call, `sent` the `icrc1_transfer` calls among them, and `log` is their
      history; `counter` is TX_COUNTER and `clock` what `ic::time()` returns. */
  datatype World = World(
    me: Principal,
    ledger: Ledger,
    clock: nat,
    calls: nat,
    sent: nat,
    counter: nat,
    config: TokenConfiguration,
    balances: map<Principal, nat>,
    recovery: RecoveryList,
    log: seq<Moment>)

  type Outcome = Result<nat, PaymentError>

  function BalanceOf(balances: map<Principal, nat>, p: Principal): nat {
    if p in balances then balances[p] else 0
  }

  function Credit(balances: map<Principal, nat>, p: Principal, amount: nat): map<Principal, nat> {
    balances[p := BalanceOf(balances, p) + amount]
  }

  function Debit(balances: map<Principal, nat>, p: Principal, amount: nat): Option<map<Principal, nat>> {
    if BalanceOf(balances, p) < amount then None else Some(balances[p := BalanceOf(balances, p) - amount])
  }

  function Push(list: RecoveryList, t: Transfer): RecoveryList {
    list[IdOf(t) := t]
  }

  function Listing(list: RecoveryList, keys: seq<TransferId>): seq<Transfer> {
    if keys == [] then []
    else (if keys[0] in list then [list[keys[0]]] else []) + Listing(list, keys[1..])
  }

  function PushAll(list: RecoveryList, ts: seq<Transfer>): RecoveryList
    decreases |ts|
  {
    if ts == [] then list else PushAll(Push(list, ts[0]), ts[1..])
  }

  function TakeAll(e: Env, w: World): seq<Transfer> {
    Listing(w.recovery, e.order(w.recovery.Keys))
  }

  /** The world once the environment's next answer is in: time has passed, gifts have arrived. */
  function Await(e: Env, w: World): World {
    var a := e.answers(w.calls);
    w.(clock := w.clock + a.elapsed, ledger := Deposit(w.ledger, a.giftTo, a.gift))
  }

  function Record(w: World, call: Call): World {
    w.(calls := w.calls + 1, log := w.log + [Moment(call, w.ledger, w.balances)])
  }

  /** `Transfer::execute`: one `icrc1_transfer` call. */
  function Execute(e: Env, w: World, t: Transfer): (World, Result<nat, InternalPaymentError>) {
    var w1 := Await(e, w);
    var (ledger, reply) := Submit(w1.ledger, RequestOf(w.me, t), w1.clock, e.answers(w.calls));
    (Record(w1.(ledger := ledger, sent := w.sent + 1), Requested(t, FromReply(reply))), FromReply(reply))
  }

  function QueryBalance(e: Env, w: World, account: Account): (World, Result<nat, PaymentError>) {
    var w1 := Await(e, w);
    var reply := match QueryFailure(e.answers(w.calls))
      case None => Ok(Funds(w1.ledger, account))
      case Some(code) => Err(ToPaymentError(FromRejection(code)));
    (Record(w1, AskedBalance(account, reply)), reply)
  }

  /** The world after asking for the interim balance of a double-step transfer. */
  function Asked(e: Env, w: World, t: Transfer): World
    requires t.kind.DoubleStep?
  {
    QueryBalance(e, w, t.kind.interim).0
  }

  function QueryMintingAccount(e: Env, w: World, expectedFee: nat): (World, Result<Account, PaymentError>) {
    var a := e.answers(w.calls);
    var reply := match QueryFailure(a)
      case Some(_) => Err(FeeMismatch(expectedFee))
      case None => Ok(match a.minting case Some(acc) => acc case None => Account(MANAGEMENT_CANISTER, Default));
    (Record(Await(e, w), AskedMinting(reply)), reply)
  }

  function Refee(me: Principal, config: TokenConfiguration, t: Transfer): Transfer {
    t.(fee := GetFee(config, FromAcc(me, t), t.to), createdAt := 0)
  }

  function RefeeAll(me: Principal, config: TokenConfiguration, ts: seq<Transfer>): seq<Transfer> {
    if ts == [] then [] else [Refee(me, config, ts[0])] + RefeeAll(me, config, ts[1..])
  }

  function UpdateRecoveryFees(e: Env, w: World): World {
    w.(recovery := PushAll(map[], RefeeAll(w.me, w.config, TakeAll(e, w))))
  }

  function SetFee(e: Env, w: World, fee: nat): World {
    UpdateRecoveryFees(e, w.(config := w.config.(fee := fee)))
  }

  function SetMintingAccount(e: Env, w: World, account: Account): World {
    UpdateRecoveryFees(e, w.(config := w.config.(mintingAccount := account)))
  }

  function StageRank(t: Transfer): nat {
    if IsFirstStep(t) then 1 else 0
  }

  function Minus1(n: nat): nat {
    if n == 0 then 0 else n - 1
  }

  /** How a reply is acted upon. */
  datatype Verdict = Done(tx: nat) | Again | Reprice(expectedFee: nat) | Fail(error: InternalPaymentError)

  /** `execute_transfer`: on the first attempt only an indeterminate failure is retried. */
  function FirstVerdict(reply: Result<nat, InternalPaymentError>): Verdict {
    match reply
    case Ok(tx) => Done(tx)
    case Err(MaybeFailed) => Again
    case Err(WrongFee(expected)) => Reprice(expected)
    case Err(err) => Fail(err)
  }

  /** `execute_recovery_transfer`: a duplicate is success; a busy or panicking ledger is retried. */
  function RecoveryVerdict(reply: Result<nat, InternalPaymentError>): Verdict {
    match reply
    case Ok(tx) => Done(tx)
    case Err(WrongFee(expected)) => Reprice(expected)
    case Err(TransferFailed(Rejected(Duplicate(duplicateOf)))) => Done(duplicateOf)
    case Err(MaybeFailed) => Again
    case Err(TransferFailed(Rejected(TemporarilyUnavailable))) => Again
    case Err(TransferFailed(TokenPanic)) => Again
    case Err(err) => Fail(err)
  }

  function RunTransfer(e: Env, w: World, t: Transfer, n: nat): (World, Outcome)
    decreases StageRank(t), n, 8
  {
    match Validate(w.me, t)
    case Err(err) => (w, Err(ToPaymentError(err)))
    case Ok(_) => ExecuteTransfer(e, w, t, n)
  }

  function ExecuteTransfer(e: Env, w: World, t: Transfer, n: nat): (World, Outcome)
    decreases StageRank(t), n, 7
  {
    var (w1, reply) := Execute(e, w, t);
    Continue(e, w1, t, n, FirstVerdict(reply))
  }

  function ExecuteRecoveryTransfer(e: Env, w: World, t: Transfer, n: nat): (World, Outcome)
    decreases StageRank(t), n, 4
  {
    var (w1, reply) := Execute(e, w, t);
    Continue(e, w1, t, n, RecoveryVerdict(reply))
  }

  function Continue(e: Env, w: World, t: Transfer, n: nat, v: Verdict): (World, Outcome)
    decreases StageRank(t), n, 3
  {
    match v
    case Done(tx) => Complete(e, w, t, tx, n)
    case Again => Retry(e, w, t, Minus1(n))
    case Reprice(expected) => UpdateConfigAndRetry(e, w, expected, t, Minus1(n))
    case Fail(err) => Reject(w, t, err)
  }

  function Complete(e: Env, w: World, t: Transfer, tx: nat, n: nat): (World, Outcome)
    decreases StageRank(t), n, 0
  {
    match NextStep(t, w.clock)
    case Some(s) => RunTransfer(e, w, s, n)
    case None =>
      (if t.operation == CreditOnSuccess then w.(balances := Credit(w.balances, t.caller, AmountMinusFee(t))) else w,
       Ok(tx))
  }

  function Reject(w: World, t: Transfer, err: InternalPaymentError): (World, Outcome) {
    if IsSecondStep(t) then
      (w.(recovery := Push(w.recovery, t)),
       Err(Recoverable(if err.WrongFee? then RecoveryBadFee(err.expected) else IcError)))
    else
      (if t.operation == CreditOnError then w.(balances := Credit(w.balances, t.caller, t.amount)) else w,
       Err(ToPaymentError(err)))
  }

  function Retry(e: Env, w: World, t: Transfer, n: nat): (World, Outcome)
    decreases StageRank(t), n, if n == 0 then 1 else 5
  {
    if n == 0 then (w.(recovery := Push(w.recovery, t)), Err(Recoverable(IcError)))
    else ExecuteRecoveryTransfer(e, w, t, n)
  }

  /** The fee is looked up with the accounts of the current step, and the list is re-priced, before
      the transfer is retried without being validated again. */
  function UpdateConfigAndRetry(e: Env, w: World, expectedFee: nat, t: Transfer, n: nat): (World, Outcome)
    decreases StageRank(t), n, if n == 0 then 2 else 6
  {
    if expectedFee == 0 || expectedFee == w.config.fee then
      var (w1, reply) := QueryMintingAccount(e, w, expectedFee);
      match reply
      case Err(err) => (w1, Err(err))
      case Ok(account) =>
        var w2 := SetMintingAccount(e, w1, account);
        Retry(e, w2, t.(fee := GetFee(w2.config, StepTo(t), StepFrom(w2.me, t))), n)
    else
      var w2 := SetFee(e, w, expectedFee);
      Retry(e, w2, t.(fee := GetFee(w2.config, StepTo(t), StepFrom(w2.me, t))), n)
  }

  function DepositTransfer(w: World, caller: Principal, amount: nat): Transfer {
    NewTransfer(w.config, w.me, caller, Account(w.me, Default), PrincipalSubaccount(caller), amount, w.clock)
      .(operation := CreditOnSuccess, memo := Some(w.counter))
  }

  function DepositTokens(e: Env, w: World, caller: Principal, amount: nat): (World, Result<(nat, nat), PaymentError>) {
    var t := DepositTransfer(w, caller, amount);
    var w1 := w.(counter := w.counter + 1);
    match FinalAmount(t)
    case Err(err) => (w1, Err(ToPaymentError(err)))
    case Ok(received) =>
      var (w2, r) := RunTransfer(e, w1, t, N_RETRIES);
      (w2, match r case Ok(tx) => Ok((tx, received)) case Err(err) => Err(err))
  }

  function WithdrawTransfer(w: World, caller: Principal, amount: nat): Transfer {
    MakeDoubleStep(w.me, NewTransfer(w.config, w.me, caller, Account(caller, Default), Default, amount, w.clock))
      .(operation := CreditOnError, memo := Some(w.counter))
  }

  function Withdraw(e: Env, w: World, caller: Principal, amount: nat): (World, Result<(nat, nat), PaymentError>) {
    var t := WithdrawTransfer(w, caller, amount);
    var w1 := w.(counter := w.counter + 1);
    match Validate(w.me, t)
    case Err(err) => (w1, Err(ToPaymentError(err)))
    case Ok(_) =>
      match FinalAmount(t)
      case Err(err) => (w1, Err(ToPaymentError(err)))
      case Ok(sent) =>
        match Debit(w1.balances, caller, t.amount)
        case None => (w1, Err(NotEnoughFunds))
        case Some(balances) =>
          var (w2, r) := RunTransfer(e, w1.(balances := balances), t, N_RETRIES);
          (w2, match r case Ok(tx) => Ok((tx, sent)) case Err(err) => Err(err))
  }

  predicate CanDeduplicate(w: World, t: Transfer) {
    (if w.clock < t.createdAt then 0 else w.clock - t.createdAt) < DEDUP_PERIOD - TX_WINDOW
  }

  function RecoverOldTx(e: Env, w: World, t: Transfer): (World, Outcome) {
    match t.kind
    case SingleStep => (w, Err(PaymentFailed(TransferTooOld)))
    case DoubleStep(stage, interim) =>
      var (w1, reply) := QueryBalance(e, w, interim);
      match reply
      case Err(err) => (w1, Err(err))
      case Ok(balance) =>
        if stage == First && balance == 0 then Reject(w1, t, TransferFailed(Unknown))
        else if stage == First || balance == 0 then Complete(e, w1, t, UNKNOWN_TX_ID, N_RETRIES)
        else ExecuteRecoveryTransfer(e, w1, t.(createdAt := w1.clock), N_RETRIES)
  }

  function RecoverTx(e: Env, w: World, t: Transfer): (World, Outcome) {
    if CanDeduplicate(w, t) then ExecuteRecoveryTransfer(e, w, t, N_RETRIES) else RecoverOldTx(e, w, t)
  }

  /** One iteration of the loop of `recover_all`; foreign transfers go straight back. */
  function RecoverItem(e: Env, w: World, t: Transfer): (World, Option<Outcome>) {
    if t.token == w.config.principal then
      var (w1, r) := RecoverTx(e, w, t);
      (w1, Some(r))
    else (w.(recovery := Push(w.recovery, t)), None)
  }

  type RecoveryResult = Result<(nat, Transfer), PaymentError>

  function RecoverItems(e: Env, w: World, items: seq<Transfer>): (World, seq<RecoveryResult>)
    decreases |items|
  {
    if items == [] then (w, [])
    else
      var (w1, r) := RecoverItem(e, w, items[0]);
      var (w2, rest) := RecoverItems(e, w1, items[1..]);
      (w2, Reported(items[0], r) + rest)
  }

  function Reported(t: Transfer, r: Option<Outcome>): seq<RecoveryResult> {
    match r
    case None => []
    case Some(Ok(tx)) => [Ok((tx, t))]
    case Some(Err(err)) => [Err(err)]
  }

  function RecoverAll(e: Env, w: World): (World, seq<RecoveryResult>) {
    RecoverItems(e, w.(recovery := map[]), TakeAll(e, w))
  }
}
