/** Transfers and token configuration (ic-payments/src/transfer.rs, ic-payments/src/lib.rs).

    Principals are numbers; 0 is the management canister, whose byte string is empty.  Accounts are
    kept with their effective subaccount, which is how ICRC-1 compares them.  The hash `id()` is an
    injective constructor over exactly the hashed fields: caller, memo, fee, operation and type are
    not among them. */
module Transfers {
  import opened Wrappers
  import opened PaymentErrors

  type Principal = nat

  const MANAGEMENT_CANISTER: Principal := 0

  datatype Subaccount =
    | Default
    | OfPrincipal(owner: Principal)
    | Interim(id: TransferId)
    | Custom(n: nat)

  datatype Account = Account(owner: Principal, sub: Subaccount)

  datatype TransferId = TransferId(from: Subaccount, to: Account, amount: nat, token: Principal, createdAt: nat)

  datatype Operation = NoOperation | CreditOnSuccess | CreditOnError

  datatype Stage = First | Second

  datatype TransferType = SingleStep | DoubleStep(stage: Stage, interim: Account)

  datatype TokenConfiguration = TokenConfiguration(principal: Principal, fee: nat, mintingAccount: Account)

  datatype Transfer = Transfer(
    token: Principal,
    caller: Principal,
    from: Subaccount,
    to: Account,
    amount: nat,
    fee: nat,
    operation: Operation,
    kind: TransferType,
    createdAt: nat,
    memo: Option<nat>)

  /** The arguments of one `icrc1_transfer` call; `from` is the full source account. */
  datatype Request = Request(from: Account, to: Account, amount: nat, fee: nat, createdAt: nat, memo: Option<nat>)

  function GetFee(config: TokenConfiguration, from: Account, to: Account): nat {
    if from == config.mintingAccount || to == config.mintingAccount then 0 else config.fee
  }

  /** `get_principal_subaccount`: length byte, principal bytes, zero padding.  The empty principal
      yields the all-zero (default) subaccount. */
  function PrincipalSubaccount(p: Principal): Subaccount {
    if p == MANAGEMENT_CANISTER then Default else OfPrincipal(p)
  }

  /** Different principals have different deposit subaccounts; only the management canister has the default one. */
  lemma PrincipalSubaccountsDistinct(p: Principal, q: Principal)
    ensures PrincipalSubaccount(p) == PrincipalSubaccount(q) <==> p == q
    ensures PrincipalSubaccount(p) == Default <==> p == MANAGEMENT_CANISTER
  {
  }

  function NewTransfer(
    config: TokenConfiguration, me: Principal, caller: Principal, to: Account, from: Subaccount, amount: nat, now: nat
  ): Transfer {
    Transfer(config.principal, caller, from, to, amount, GetFee(config, Account(me, from), to),
             NoOperation, SingleStep, now, None)
  }

  function IdOf(t: Transfer): TransferId {
    TransferId(t.from, t.to, t.amount, t.token, t.createdAt)
  }

  function FromAcc(me: Principal, t: Transfer): Account {
    Account(me, t.from)
  }

  /** Account debited by the current step. */
  function StepFrom(me: Principal, t: Transfer): Account {
    match t.kind
    case DoubleStep(Second, interim) => interim
    case _ => FromAcc(me, t)
  }

  /** Account credited by the current step. */
  function StepTo(t: Transfer): Account {
    match t.kind
    case DoubleStep(First, interim) => interim
    case _ => t.to
  }

  function MakeDoubleStep(me: Principal, t: Transfer): Transfer {
    match t.kind
    case SingleStep => t.(kind := DoubleStep(First, Account(me, Interim(IdOf(t)))))
    case DoubleStep(_, interim) => t.(kind := DoubleStep(First, interim))
  }

  function EffectiveFee(t: Transfer): nat {
    match t.kind
    case DoubleStep(First, _) => t.fee * 2
    case _ => t.fee
  }

  function AmountMinusFee(t: Transfer): nat {
    if t.amount > t.fee then t.amount - t.fee else 0
  }

  function FinalAmount(t: Transfer): Result<nat, InternalPaymentError> {
    if t.amount > EffectiveFee(t)
    then Ok(t.amount - EffectiveFee(t))
    else Err(InvalidParameters(AmountTooSmall(EffectiveFee(t) + 1, t.amount)))
  }

  function Validate(me: Principal, t: Transfer): Result<(), InternalPaymentError> {
    if FromAcc(me, t) == t.to then Err(InvalidParameters(TargetAccountInvalid))
    else match FinalAmount(t)
      case Err(e) => Err(e)
      case Ok(a) =>
        if a == 0 then Err(InvalidParameters(AmountTooSmall(EffectiveFee(t) + 1, t.amount))) else Ok(())
  }

  function NextStep(t: Transfer, now: nat): Option<Transfer> {
    match t.kind
    case DoubleStep(First, interim) => Some(SecondStep(t, interim, now))
    case _ => None
  }

  function SecondStep(t: Transfer, interim: Account, now: nat): Transfer {
    t.(kind := DoubleStep(Second, interim), amount := AmountMinusFee(t), createdAt := now)
  }

  function RequestOf(me: Principal, t: Transfer): Request {
    Request(StepFrom(me, t), StepTo(t), AmountMinusFee(t), t.fee, t.createdAt, t.memo)
  }

  predicate IsFirstStep(t: Transfer) {
    t.kind.DoubleStep? && t.kind.stage == First
  }

  predicate IsSecondStep(t: Transfer) {
    t.kind.DoubleStep? && t.kind.stage == Second
  }

  predicate Valid(me: Principal, t: Transfer) {
    Validate(me, t).Ok?
  }

  /** A transfer is accepted exactly when it goes somewhere else and covers every fee it will pay;
      the `final_amount == 0` branch of `validate` is unreachable. */
  lemma AcceptedIffPayable(me: Principal, t: Transfer)
    ensures Valid(me, t) <==>
            Account(me, t.from) != t.to && t.amount > (if IsFirstStep(t) then t.fee + t.fee else t.fee)
    ensures Valid(me, t) ==> FinalAmount(t).Ok? && FinalAmount(t).value > 0
  {
  }

  /** A transfer to its own source account is refused as such; any other refusal names the smallest amount that
      would be accepted, and the actual one. */
  lemma RefusalTold(me: Principal, t: Transfer, amount: nat)
    requires !Valid(me, t)
    ensures Account(me, t.from) == t.to ==> Validate(me, t) == Err(InvalidParameters(TargetAccountInvalid))
    ensures Account(me, t.from) != t.to ==>
              && Validate(me, t).error.InvalidParameters? && Validate(me, t).error.parameters.AmountTooSmall?
              && Validate(me, t).error.parameters.actual == t.amount
              && (Valid(me, t.(amount := amount)) <==> amount >= Validate(me, t).error.parameters.minimumRequired)
  {
    AcceptedIffPayable(me, t);
    AcceptedIffPayable(me, t.(amount := amount));
  }

  /** The second step of an accepted double-step transfer is accepted whenever it is created, delivers
      the final amount promised for the whole transfer, and takes from the interim account exactly
      what the first step put there. */
  lemma SecondStepAgrees(me: Principal, t: Transfer, now: nat)
    requires Valid(me, t) && IsFirstStep(t)
    ensures NextStep(t, now).Some?
    ensures var s := NextStep(t, now).value;
            && Valid(me, s)
            && FinalAmount(s) == FinalAmount(t)
            && RequestOf(me, s).amount == FinalAmount(t).value
            && RequestOf(me, s).amount + RequestOf(me, s).fee == RequestOf(me, t).amount
            && RequestOf(me, s).from == RequestOf(me, t).to
            && NextStep(s, now).None?
  {
    AcceptedIffPayable(me, t);
  }

  /** The second step is accepted exactly when the first step, at its current fee, is. */
  lemma SecondStepAcceptedIff(me: Principal, t: Transfer, now: nat)
    requires IsFirstStep(t)
    ensures Valid(me, NextStep(t, now).value) <==> Valid(me, t)
  {
    AcceptedIffPayable(me, t);
    AcceptedIffPayable(me, NextStep(t, now).value);
  }

  /** What an accepted single- or second-step transfer delivers is its final amount, and the source
      account is charged exactly `amount`, whichever step is running. */
  lemma ChargedExactly(me: Principal, t: Transfer)
    requires Valid(me, t)
    ensures RequestOf(me, t).amount + RequestOf(me, t).fee == t.amount
    ensures !IsFirstStep(t) ==> FinalAmount(t) == Ok(AmountMinusFee(t))
  {
    AcceptedIffPayable(me, t);
  }

  /** A generated interim account is neither the source nor the target of its transfer, and two
      transfers share one only if all hashed fields agree. */
  lemma InterimAccountsDistinct(me: Principal, t: Transfer, u: Transfer)
    requires t.kind.SingleStep? && u.kind.SingleStep?
    ensures MakeDoubleStep(me, t).kind.interim != FromAcc(me, t)
    ensures MakeDoubleStep(me, t).kind.interim != t.to
    ensures MakeDoubleStep(me, t).kind.interim == MakeDoubleStep(me, u).kind.interim <==>
            t.from == u.from && t.to == u.to && t.amount == u.amount && t.token == u.token && t.createdAt == u.createdAt
  {
    var id := IdOf(t);
    assert Interim(id).id == id && id.from == t.from && id.to == t.to;
    SubaccountNotInside(t.from, id);
    SubaccountNotInside(t.to.sub, id);
  }

  /** Making a transfer double-step, again or not, changes only its type: it starts with the first step, through
      the interim account that it has or, if it has none, its own. */
  lemma DoubleStepAgain(me: Principal, t: Transfer)
    ensures var u := MakeDoubleStep(me, t);
            && u == t.(kind := DoubleStep(First, u.kind.interim)) && MakeDoubleStep(me, u) == u
            && (t.kind.DoubleStep? ==> u.kind.interim == t.kind.interim)
            && (t.kind.SingleStep? ==>
                  u.kind.interim ==
                  Account(me, Interim(TransferId(t.from, t.to, t.amount, t.token, t.createdAt))))
  {
  }

  function DepthSub(s: Subaccount): nat {
    match s
    case Interim(id) => 1 + DepthId(id)
    case _ => 0
  }

  function DepthId(id: TransferId): nat {
    DepthSub(id.from) + DepthSub(id.to.sub)
  }

  lemma SubaccountNotInside(s: Subaccount, id: TransferId)
    requires id.from == s || id.to.sub == s
    ensures s != Interim(id)
  {
    assert DepthSub(Interim(id)) == 1 + DepthSub(id.from) + DepthSub(id.to.sub);
  }
}
