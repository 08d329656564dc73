/** The remote ICRC-1 ledger and the network between it and the canister.

    The environment picks one `Answer` per call.  Whatever it picks, the ledger keeps the contract of
    the "Transaction deduplication" section of the ICRC-1 standard: a request that has been executed
    is answered, inside the window, by `Duplicate` or by an indeterminate or temporary failure, and a
    definite rejection means that the request is not among the executed ones; only `BadFee`, which the
    ledger answers before it looks for duplicates, and `TooOld` say no more than that this call executed
    nothing.  A lost reply may or may not hide an execution.  `blocks` lists the executed requests of the
    canister in order; the transaction id of a request is its position there. */
module Ledgers {
  import opened Wrappers
  import opened PaymentErrors
  import opened Transfers

  /** Deduplication window of the ledger and of the terminal, in nanoseconds. */
  const DEDUP_PERIOD: nat := 1_000_000_000 * 60 * 60 * 24

  datatype Ledger = Ledger(funds: map<Account, nat>, blocks: seq<Request>)

  datatype Fate =
    | Served                                        // processed, reply delivered
    | Lost(code: RejectionCode, reached: bool)      // indeterminate reject; processed if `reached`
    | Unreachable                                   // destination invalid
    | Trapped                                       // the ledger panicked
    | Busy                                          // temporarily unavailable
    | Refused(error: TransferError)                 // any other definite refusal

  /** One environment choice: time spent, the fee the ledger then asks for, what happens to the call,
      tokens somebody sends to some account meanwhile, and the minting account reported if asked. */
  datatype Answer = Answer(
    elapsed: nat, fee: nat, fate: Fate, giftTo: Account, gift: nat, minting: Option<Account>)

  function Funds(l: Ledger, a: Account): nat {
    if a in l.funds then l.funds[a] else 0
  }

  function Deposit(l: Ledger, a: Account, amount: nat): Ledger {
    l.(funds := l.funds[a := Funds(l, a) + amount])
  }

  function IndexOf(blocks: seq<Request>, r: Request): (i: nat)
    requires r in blocks
    ensures i < |blocks| && blocks[i] == r
  {
    if blocks[0] == r then 0 else 1 + IndexOf(blocks[1..], r)
  }

  predicate CanPay(l: Ledger, r: Request) {
    Funds(l, r.from) >= r.amount + r.fee
  }

  /** Executes a request: the fee leaves the source account with the amount. */
  function ExecuteBlock(l: Ledger, r: Request): Ledger
    requires CanPay(l, r)
  {
    var paid := l.(funds := l.funds[r.from := Funds(l, r.from) - r.amount - r.fee]);
    Deposit(paid, r.to, r.amount).(blocks := l.blocks + [r])
  }

  function Serve(l: Ledger, r: Request, now: nat, fee: nat): (Ledger, Result<nat, TransferError>) {
    if r.fee != fee then (l, Err(BadFee(fee)))
    else if r.createdAt + DEDUP_PERIOD <= now then (l, Err(TooOld))
    else if r in l.blocks then (l, Err(Duplicate(IndexOf(l.blocks, r))))
    else if !CanPay(l, r) then (l, Err(InsufficientFunds(Funds(l, r.from))))
    else (ExecuteBlock(l, r), Ok(|l.blocks|))
  }

  /** Refusals that are not temporary, not about the fee and not about duplication. */
  predicate IsRefusal(e: TransferError) {
    !e.BadFee? && !e.Duplicate? && !e.TemporarilyUnavailable?
  }

  function Submit(l: Ledger, r: Request, now: nat, a: Answer): (Ledger, Reply) {
    match a.fate
    case Served =>
      var (l', answer) := Serve(l, r, now, a.fee);
      (l', Answered(answer))
    case Lost(code, reached) =>
      (if reached then Serve(l, r, now, a.fee).0 else l,
       CallRejected(if Indeterminate(code) then code else UnknownCode))
    case Unreachable =>
      (l, CallRejected(if r in l.blocks then SysTransient else DestinationInvalid))
    case Trapped => (l, CallRejected(CanisterError))
    case Busy => (l, Answered(Err(TemporarilyUnavailable)))
    case Refused(e) =>
      (l, Answered(Err(if r in l.blocks then Duplicate(IndexOf(l.blocks, r))
                       else if IsRefusal(e) then e else GenericError(0))))
  }

  /** Reject code of a query call; `None` when the query is answered. */
  function QueryFailure(a: Answer): Option<RejectionCode> {
    match a.fate
    case Served => None
    case Lost(code, _) => Some(if Indeterminate(code) then code else UnknownCode)
    case Unreachable => Some(DestinationInvalid)
    case Trapped => Some(CanisterError)
    case _ => Some(SysTransient)
  }

  /** Change of an account's funds caused by one executed request. */
  function Delta(r: Request, a: Account): int {
    (if r.to == a then r.amount else 0) - (if r.from == a then r.amount + r.fee else 0)
  }

  function Net(blocks: seq<Request>, a: Account): int {
    if blocks == [] then 0 else Net(blocks[..|blocks| - 1], a) + Delta(blocks[|blocks| - 1], a)
  }

  lemma NetAppend(blocks: seq<Request>, r: Request, a: Account)
    ensures Net(blocks + [r], a) == Net(blocks, a) + Delta(r, a)
  {
    assert (blocks + [r])[..|blocks|] == blocks;
  }

  /** Funds not explained by the canister's own requests: tokens other people sent. */
  function Slack(l: Ledger, a: Account): int {
    Funds(l, a) - Net(l.blocks, a)
  }

  /** Requests are only appended, and every account holds at least what the appended requests leave. */
  ghost predicate Grew(l: Ledger, l': Ledger) {
    && l.blocks <= l'.blocks
    && forall a :: Slack(l, a) <= Slack(l', a)
  }

  lemma GrewTransitive(l0: Ledger, l1: Ledger, l2: Ledger)
    requires Grew(l0, l1) && Grew(l1, l2)
    ensures Grew(l0, l2)
  {
    forall a ensures Slack(l0, a) <= Slack(l2, a) {
      assert Slack(l0, a) <= Slack(l1, a) <= Slack(l2, a);
    }
  }

  /** Executing a request conserves tokens up to the fee: the net effect on every account is exactly
      the request's delta. */
  lemma ExecuteConserves(l: Ledger, r: Request)
    requires CanPay(l, r)
    ensures forall a :: Slack(ExecuteBlock(l, r), a) == Slack(l, a)
  {
    forall a ensures Slack(ExecuteBlock(l, r), a) == Slack(l, a) {
      NetAppend(l.blocks, r, a);
    }
  }

  /** Every answer keeps the ledger contract: it grows the ledger by at most the submitted request,
      never executes one twice, and classifies as the standard demands inside the window.  `BadFee`
      excludes an execution by this call, not an earlier one at the old fee. */
  lemma SubmitContract(l: Ledger, r: Request, now: nat, a: Answer)
    ensures var (l', reply) := Submit(l, r, now, a);
            && Grew(l, l')
            && (l'.blocks == l.blocks || (r !in l.blocks && l'.blocks == l.blocks + [r]))
            && match FromReply(reply)
               case Ok(tx) => r !in l.blocks && l'.blocks == l.blocks + [r] && tx == |l.blocks|
               case Err(WrongFee(fee)) => l' == l && a.fate == Served && fee == a.fee != r.fee
               case Err(MaybeFailed) => true
               case Err(TransferFailed(Rejected(Duplicate(i)))) => l' == l && i < |l.blocks| && l.blocks[i] == r
               case Err(TransferFailed(Rejected(TemporarilyUnavailable))) => l' == l
               case Err(TransferFailed(TokenPanic)) => l' == l
               case Err(e) => l' == l && e.TransferFailed? && (now < r.createdAt + DEDUP_PERIOD ==> r !in l.blocks)
  {
    if CanPay(l, r) {
      ExecuteConserves(l, r);
    }
  }

  lemma SubmitGrows(l: Ledger, r: Request, now: nat, a: Answer)
    ensures Grew(l, Submit(l, r, now, a).0)
  {
    if CanPay(l, r) {
      ExecuteConserves(l, r);
    }
  }

  lemma DepositGrows(l: Ledger, a: Account, amount: nat)
    ensures Grew(l, Deposit(l, a, amount))
  {
  }
}
