/** Error types and their conversions (ic-payments/src/error.rs).  Free-text messages are dropped. */
module PaymentErrors {
  import opened Wrappers

  /** IC reject codes of an inter-canister call. */
  datatype RejectionCode =
    NoError | SysFatal | SysTransient | DestinationInvalid | CanisterReject | CanisterError | UnknownCode

  /** Errors an ICRC-1 ledger answers with. */
  datatype TransferError =
    | BadFee(expectedFee: nat)
    | BadBurn(minBurnAmount: nat)
    | InsufficientFunds(balance: nat)
    | TooOld
    | CreatedInFuture(ledgerTime: nat)
    | TemporarilyUnavailable
    | Duplicate(duplicateOf: nat)
    | GenericError(code: nat)

  /** What the network delivers for one `icrc1_transfer` call. */
  datatype Reply = CallRejected(code: RejectionCode) | Answered(answer: Result<nat, TransferError>)

  datatype TransferFailReason = NotFound | TokenPanic | Rejected(error: TransferError) | TransferTooOld | Unknown

  datatype ParametersError = AmountTooSmall(minimumRequired: nat, actual: nat) | TargetAccountInvalid

  datatype InternalPaymentError =
    | TransferFailed(reason: TransferFailReason)
    | WrongFee(expected: nat)
    | MaybeFailed
    | InvalidParameters(parameters: ParametersError)
    | Overflow

  datatype RecoveryDetails = IcError | RecoveryBadFee(fee: nat)

  datatype PaymentError =
    | ParametersRejected(parameters: ParametersError)
    | PaymentFailed(reason: TransferFailReason)
    | FeeMismatch(expected: nat)
    | Recoverable(details: RecoveryDetails)
    | NotEnoughFunds
    | Fatal

  function FromRejection(code: RejectionCode): InternalPaymentError {
    match code
    case DestinationInvalid => TransferFailed(NotFound)
    case CanisterError => TransferFailed(TokenPanic)
    case _ => MaybeFailed
  }

  function FromTransferError(e: TransferError): InternalPaymentError {
    match e
    case BadFee(expected) => WrongFee(expected)
    case _ => TransferFailed(Rejected(e))
  }

  function FromReply(r: Reply): Result<nat, InternalPaymentError> {
    match r
    case CallRejected(code) => Err(FromRejection(code))
    case Answered(Ok(tx)) => Ok(tx)
    case Answered(Err(e)) => Err(FromTransferError(e))
  }

  function ToPaymentError(e: InternalPaymentError): PaymentError {
    match e
    case TransferFailed(reason) => PaymentFailed(reason)
    case MaybeFailed => Recoverable(IcError)
    case WrongFee(expected) => FeeMismatch(expected)
    case Overflow => Fatal
    case InvalidParameters(p) => ParametersRejected(p)
  }

  /** The error reported to callers tells the internal ones apart, and none of them looks like a missing balance. */
  lemma ErrorsTold(a: InternalPaymentError, b: InternalPaymentError)
    ensures ToPaymentError(a) == ToPaymentError(b) <==> a == b
    ensures ToPaymentError(a) != NotEnoughFunds
    ensures a.WrongFee? <==> ToPaymentError(a).FeeMismatch?
    ensures a.WrongFee? ==> ToPaymentError(a).expected == a.expected
    ensures a.MaybeFailed? <==> ToPaymentError(a).Recoverable?
  {
  }

  /** Reject codes that say nothing about whether the call was executed. */
  predicate Indeterminate(code: RejectionCode) {
    code != DestinationInvalid && code != CanisterError
  }
}
