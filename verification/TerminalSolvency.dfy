/** Solvency: over every run of deposits, withdrawals and recoveries the canister's main ledger
    account covers the user balances. */
module TerminalSolvency {
  import opened Wrappers
  import opened PaymentErrors
  import opened Transfers
  import opened Ledgers
  import opened Terminal
  import opened TerminalBudget
  import opened TerminalOutcome

  function Main(me: Principal): Account {
    Account(me, Default)
  }

  // ---------------------------------------------------------------- sums

  ghost function BalanceTotal(b: map<Principal, nat>): nat
    decreases |b|
  {
    if b == map[] then 0 else
      var p :| p in b;
      b[p] + BalanceTotal(b - {p})
  }

  lemma {:induction false} BalanceSplit(b: map<Principal, nat>, p: Principal)
    requires p in b
    ensures BalanceTotal(b) == b[p] + BalanceTotal(b - {p})
    decreases |b|
  {
    var q :| q in b && BalanceTotal(b) == b[q] + BalanceTotal(b - {q});
    if p != q {
      BalanceSplit(b - {q}, p);
      BalanceSplit(b - {p}, q);
      assert b - {q} - {p} == b - {p} - {q};
    }
  }

  lemma BalanceUpdate(b: map<Principal, nat>, p: Principal, v: nat)
    ensures BalanceTotal(b[p := v]) + BalanceOf(b, p) == BalanceTotal(b) + v
  {
    BalanceSplit(b[p := v], p);
    assert b[p := v] - {p} == b - {p};
    if p in b {
      BalanceSplit(b, p);
    } else {
      assert b - {p} == b;
    }
  }

  /** Tokens of the main account that are spoken for by a listed transfer: an executed deposit
      whose credit is pending, or a withdrawal that may still be refunded. */
  function Reserve(me: Principal, t: Transfer, blocks: seq<Request>): nat {
    match t.operation
    case CreditOnSuccess => if RequestOf(me, t) in blocks then AmountMinusFee(t) else 0
    case CreditOnError => if IsSecondStep(t) || RequestOf(me, t) in blocks then 0 else t.amount
    case NoOperation => 0
  }

  ghost function Total(me: Principal, live: set<Transfer>, blocks: seq<Request>): nat
    decreases |live|
  {
    if live == {} then 0 else
      var t :| t in live;
      Reserve(me, t, blocks) + Total(me, live - {t}, blocks)
  }

  lemma {:induction false} TotalSplit(me: Principal, live: set<Transfer>, blocks: seq<Request>, t: Transfer)
    requires t in live
    ensures Total(me, live, blocks) == Reserve(me, t, blocks) + Total(me, live - {t}, blocks)
    decreases |live|
  {
    var u :| u in live && Total(me, live, blocks) == Reserve(me, u, blocks) + Total(me, live - {u}, blocks);
    if t != u {
      TotalSplit(me, live - {u}, blocks, t);
      TotalSplit(me, live - {t}, blocks, u);
      assert live - {u} - {t} == live - {t} - {u};
    }
  }

  lemma TotalAdd(me: Principal, live: set<Transfer>, blocks: seq<Request>, t: Transfer)
    requires t !in live
    ensures Total(me, live + {t}, blocks) == Reserve(me, t, blocks) + Total(me, live, blocks)
  {
    TotalSplit(me, live + {t}, blocks, t);
    assert live + {t} - {t} == live;
  }

  lemma {:induction false} TotalSame(me: Principal, live: set<Transfer>, blocks: seq<Request>, blocks': seq<Request>)
    requires forall t :: t in live ==> (RequestOf(me, t) in blocks <==> RequestOf(me, t) in blocks')
    ensures Total(me, live, blocks) == Total(me, live, blocks')
    decreases |live|
  {
    if live != {} {
      var t :| t in live;
      TotalSplit(me, live, blocks, t);
      TotalSplit(me, live, blocks', t);
      TotalSame(me, live - {t}, blocks, blocks');
    }
  }

  lemma {:induction false} TotalSubset(me: Principal, small: set<Transfer>, live: set<Transfer>, blocks: seq<Request>)
    requires small <= live
    ensures Total(me, small, blocks) <= Total(me, live, blocks)
    decreases |live|
  {
    if small == live {
    } else {
      var t :| t in live && t !in small;
      TotalSplit(me, live, blocks, t);
      TotalSubset(me, small, live - {t}, blocks);
    }
  }

  // ---------------------------------------------------------------- invariant

  predicate InterimOf(me: Principal, a: Account) {
    a.owner == me && a.sub.Interim?
  }

  /** A transfer created by `deposit` or `withdraw`, or the second step of one. */
  predicate Shape(me: Principal, t: Transfer) {
    match t.kind
    case SingleStep =>
      t.operation == CreditOnSuccess && t.to == Main(me) && t.from == PrincipalSubaccount(t.caller)
    case DoubleStep(_, interim) =>
      t.operation == CreditOnError && t.from == Default && t.to.sub == Default && InterimOf(me, interim)
  }

  ghost predicate Good(w: World, fee: nat, t: Transfer) {
    && t.token == w.config.principal && t.fee == fee && Valid(w.me, t) && Shape(w.me, t)
    && t.createdAt <= w.clock
    && t.memo.Some? && t.memo.value < w.counter
  }

  predicate SharesInterim(t: Transfer, u: Transfer) {
    t.kind.DoubleStep? && u.kind.DoubleStep? && t.kind.interim == u.kind.interim
  }

  /** What the interim account holds if only this transfer ever moved its tokens. */
  function Expected(me: Principal, t: Transfer, blocks: seq<Request>): nat
    requires t.kind.DoubleStep?
  {
    match t.kind.stage
    case First => if RequestOf(me, t) in blocks then AmountMinusFee(t) else 0
    case Second => if RequestOf(me, t) in blocks then 0 else t.amount
  }

  /** Unless somebody else sent tokens there, the interim account holds what is expected, and only
      this transfer's request has been paid from it. */
  ghost predicate InterimExact(w: World, t: Transfer)
    requires t.kind.DoubleStep?
  {
    var a := t.kind.interim;
    && Slack(w.ledger, a) >= 0
    && (Slack(w.ledger, a) == 0 ==>
          && Funds(w.ledger, a) == Expected(w.me, t, w.ledger.blocks)
          && forall r :: r in w.ledger.blocks && r.from == a ==> r == RequestOf(w.me, t))
  }

  /** A first step's interim account has paid nothing yet, and holds tokens if the step was executed; a
      second step's holds tokens unless the step was executed. */
  ghost predicate InterimSafe(w: World, t: Transfer) {
    && InterimUnused(w.me, t, w.ledger.blocks)
    && (t.kind.DoubleStep? ==> InterimExact(w, t))
    && (IsFirstStep(t) && RequestOf(w.me, t) in w.ledger.blocks ==> Funds(w.ledger, t.kind.interim) > 0)
    && (IsSecondStep(t) && RequestOf(w.me, t) !in w.ledger.blocks ==> Funds(w.ledger, t.kind.interim) > 0)
  }

  ghost predicate BlocksOk(w: World) {
    forall r :: r in w.ledger.blocks ==> r.memo.Some? && r.memo.value < w.counter
  }

  ghost predicate ConfigOk(w: World, fee: nat) {
    w.config.fee == fee && w.config.mintingAccount.owner != w.me
  }

  ghost predicate LiveOk(w: World, fee: nat, live: set<Transfer>) {
    && (forall t :: t in live ==> Good(w, fee, t) && InterimSafe(w, t))
    && (forall t, u :: t in live && u in live && (t.memo == u.memo || SharesInterim(t, u)) ==> t == u)
  }

  ghost predicate Covered(w: World, live: set<Transfer>) {
    Funds(w.ledger, Main(w.me)) >= BalanceTotal(w.balances) + Total(w.me, live, w.ledger.blocks)
  }

  ghost predicate Safe(w: World, fee: nat, live: set<Transfer>) {
    BlocksOk(w) && ConfigOk(w, fee) && LiveOk(w, fee, live) && Covered(w, live)
  }

  /** The world only moved on: blocks unchanged or extended, funds never lower than they explain. */
  ghost predicate SameAccounts(w: World, w': World) {
    && w'.me == w.me && w'.counter == w.counter && w'.config == w.config && w'.balances == w.balances
    && w'.clock >= w.clock && w'.ledger.blocks == w.ledger.blocks && Grew(w.ledger, w'.ledger)
  }

  lemma MoveOn(w: World, w': World, fee: nat, live: set<Transfer>)
    requires Safe(w, fee, live) && SameAccounts(w, w')
    ensures Safe(w', fee, live)
  {
    assert forall a :: Slack(w.ledger, a) <= Slack(w'.ledger, a);
    assert Slack(w.ledger, Main(w.me)) <= Slack(w'.ledger, Main(w.me));
    forall t | t in live ensures Good(w', fee, t) && InterimSafe(w', t) {
      assert Good(w, fee, t) && InterimSafe(w, t);
      if t.kind.DoubleStep? {
        assert Slack(w.ledger, t.kind.interim) <= Slack(w'.ledger, t.kind.interim);
      }
    }
  }

  lemma Drop(w: World, fee: nat, live: set<Transfer>, fewer: set<Transfer>)
    requires Safe(w, fee, live) && fewer <= live
    ensures Safe(w, fee, fewer)
  {
    TotalSubset(w.me, fewer, live, w.ledger.blocks);
  }

  /** A second step or a renewed second step takes the place of the transfer it continues. */
  lemma Replace(w: World, fee: nat, live: set<Transfer>, t: Transfer, s: Transfer)
    requires Safe(w, fee, live) && t in live && t.kind.DoubleStep?
    requires Good(w, fee, s) && InterimSafe(w, s) && IsSecondStep(s) && s.memo == t.memo && SharesInterim(s, t)
    ensures s !in live - {t}
    ensures Safe(w, fee, live - {t} + {s})
  {
    var rest := live - {t};
    Drop(w, fee, live, rest);
    forall u | u in rest ensures u.memo != s.memo && !SharesInterim(u, s) {
      assert u in live && t in live && u != t;
    }
    TotalAdd(w.me, rest, w.ledger.blocks, s);
    assert Reserve(w.me, s, w.ledger.blocks) == 0;
    AddLive(w, fee, rest, s);
  }

  lemma AddLive(w: World, fee: nat, live: set<Transfer>, s: Transfer)
    requires LiveOk(w, fee, live) && Good(w, fee, s) && InterimSafe(w, s)
    requires forall u :: u in live ==> u.memo != s.memo && !SharesInterim(u, s)
    ensures LiveOk(w, fee, live + {s})
  {
  }

  // ---------------------------------------------------------------- one attempt

  /** The transfer an attempt leaves on the list, if any. */
  ghost predicate Leaves(w: World, t: Transfer, w': World, left: Option<Transfer>) {
    match left
    case None => w'.recovery == w.recovery
    case Some(s) => w'.recovery == Push(w.recovery, s)
  }

  /** Blocks appended for `t` touch no other live transfer and no other interim account. */
  ghost predicate OwnBlock(me: Principal, t: Transfer, r: Request) {
    && r.memo == t.memo
    && (r.from == FromAcc(me, t) || (t.kind.DoubleStep? && r.from == t.kind.interim))
    && (r.to == t.to || (t.kind.DoubleStep? && r.to == t.kind.interim))
  }

  ghost predicate OwnBlocks(me: Principal, t: Transfer, old_: seq<Request>, new_: seq<Request>) {
    && |old_| <= |new_| <= |old_| + 2
    && new_[..|old_|] == old_
    && (forall i :: |old_| <= i < |new_| ==> OwnBlock(me, t, new_[i]))
  }

  lemma {:induction false} NetSame(me: Principal, t: Transfer, old_: seq<Request>, new_: seq<Request>, a: Account)
    requires OwnBlocks(me, t, old_, new_)
    requires a != FromAcc(me, t) && a != t.to && (t.kind.DoubleStep? ==> a != t.kind.interim)
    ensures Net(old_, a) == Net(new_, a)
    decreases |new_|
  {
    if |old_| < |new_| {
      var init := new_[..|new_| - 1];
      assert init[..|old_|] == old_;
      NetSame(me, t, old_, init, a);
    } else {
      assert new_[..|old_|] == new_;
    }
  }

  lemma OldOrOwn(me: Principal, t: Transfer, b: seq<Request>, b': seq<Request>)
    requires OwnBlocks(me, t, b, b')
    ensures forall r :: r in b ==> r in b'
    ensures forall r :: r in b' ==> r in b || OwnBlock(me, t, r)
  {
    assert b' == b + b'[|b|..];
  }

  lemma OtherSafe(w: World, w': World, fee: nat, t: Transfer, u: Transfer)
    requires Good(w, fee, t) && Good(w, fee, u) && InterimSafe(w, u) && u.memo != t.memo && !SharesInterim(u, t)
    requires OwnBlocks(w.me, t, w.ledger.blocks, w'.ledger.blocks) && Grew(w.ledger, w'.ledger) && w'.me == w.me
    requires forall r :: r in w'.ledger.blocks ==> r in w.ledger.blocks || OwnBlock(w.me, t, r)
    requires RequestOf(w.me, u) in w.ledger.blocks <==> RequestOf(w.me, u) in w'.ledger.blocks
    ensures InterimSafe(w', u)
  {
    if u.kind.DoubleStep? {
      var a := u.kind.interim;
      NetSame(w.me, t, w.ledger.blocks, w'.ledger.blocks, a);
      assert Slack(w.ledger, a) <= Slack(w'.ledger, a);
    }
  }

  /** What becomes of another live transfer when blocks are appended for `t`. */
  lemma OtherStays(w: World, w': World, fee: nat, live: set<Transfer>, t: Transfer, u: Transfer)
    requires LiveOk(w, fee, live) && t in live && u in live && u != t
    requires OwnBlocks(w.me, t, w.ledger.blocks, w'.ledger.blocks) && Grew(w.ledger, w'.ledger)
    requires w'.me == w.me && w'.counter == w.counter && w'.config == w.config && w'.clock >= w.clock
    ensures RequestOf(w.me, u) in w.ledger.blocks <==> RequestOf(w.me, u) in w'.ledger.blocks
    ensures Good(w', fee, u) && InterimSafe(w', u)
  {
    assert Good(w, fee, t);
    assert u.memo != t.memo && Good(w, fee, u) && InterimSafe(w, u) && !SharesInterim(u, t);
    OldOrOwn(w.me, t, w.ledger.blocks, w'.ledger.blocks);
    OtherSafe(w, w', fee, t, u);
  }

  lemma RestLive(w: World, w': World, fee: nat, live: set<Transfer>, t: Transfer)
    requires LiveOk(w, fee, live) && t in live
    requires OwnBlocks(w.me, t, w.ledger.blocks, w'.ledger.blocks) && Grew(w.ledger, w'.ledger)
    requires w'.me == w.me && w'.counter == w.counter && w'.config == w.config && w'.clock >= w.clock
    ensures LiveOk(w', fee, live - {t})
  {
    forall u | u in live - {t} ensures Good(w', fee, u) && InterimSafe(w', u) {
      OtherStays(w, w', fee, live, t, u);
    }
  }

  lemma RestTotal(w: World, w': World, fee: nat, live: set<Transfer>, t: Transfer)
    requires LiveOk(w, fee, live) && t in live
    requires OwnBlocks(w.me, t, w.ledger.blocks, w'.ledger.blocks)
    ensures Total(w.me, live - {t}, w'.ledger.blocks) == Total(w.me, live - {t}, w.ledger.blocks)
  {
    OldOrOwn(w.me, t, w.ledger.blocks, w'.ledger.blocks);
    forall u | u in live - {t}
      ensures RequestOf(w.me, u) in w.ledger.blocks <==> RequestOf(w.me, u) in w'.ledger.blocks
    {
      assert u.memo != t.memo;
    }
    TotalSame(w.me, live - {t}, w.ledger.blocks, w'.ledger.blocks);
  }

  /** Everybody else's bookkeeping survives an attempt at `t`. */
  lemma RestSafe(w: World, w': World, fee: nat, live: set<Transfer>, t: Transfer)
    requires LiveOk(w, fee, live) && t in live && BlocksOk(w)
    requires OwnBlocks(w.me, t, w.ledger.blocks, w'.ledger.blocks) && Grew(w.ledger, w'.ledger)
    requires w'.me == w.me && w'.counter == w.counter && w'.config == w.config && w'.clock >= w.clock
    ensures LiveOk(w', fee, live - {t}) && BlocksOk(w')
    ensures Total(w.me, live - {t}, w'.ledger.blocks) == Total(w.me, live - {t}, w.ledger.blocks)
  {
    RestLive(w, w', fee, live, t);
    RestTotal(w, w', fee, live, t);
    assert Good(w, fee, t);
    OldOrOwn(w.me, t, w.ledger.blocks, w'.ledger.blocks);
  }

  /** What an attempt at `t` leaves behind: at most one listed transfer, and only own blocks. */
  ghost predicate Ended(w: World, t: Transfer, w': World, fee: nat, left: Option<Transfer>) {
    && Leaves(w, t, w', left)
    && OwnBlocks(w.me, t, w.ledger.blocks, w'.ledger.blocks)
    && (left.Some? ==>
          && Good(w', fee, left.value) && left.value.memo == t.memo
          && (left.value == t || (IsSecondStep(left.value) && SharesInterim(left.value, t)))
          && InterimSafe(w', left.value))
  }

  /** The main account's own movements pay for what is owed afterwards. */
  ghost predicate Affords(w: World, t: Transfer, w': World, left: Option<Transfer>) {
    Net(w'.ledger.blocks, Main(w.me)) - Net(w.ledger.blocks, Main(w.me)) + Reserve(w.me, t, w.ledger.blocks)
    >= (if left.None? then 0 else Reserve(w.me, left.value, w'.ledger.blocks))
       + BalanceTotal(w'.balances) - BalanceTotal(w.balances)
  }

  ghost predicate Attempted(w: World, t: Transfer, w': World, r: Outcome, fee: nat) {
    && Good(w, fee, t) && InterimSafe(w, t)
    && ThreeWays(w, t, w', r) && Within(w, w', N_RETRIES + 1)
  }

  /** Effect of one step's request on the main account. */
  lemma MainDelta(me: Principal, t: Transfer)
    requires Valid(me, t) && Shape(me, t)
    ensures IsFirstStep(t) ==> Delta(RequestOf(me, t), Main(me)) + t.amount == 0
    ensures IsSecondStep(t) ==> Delta(RequestOf(me, t), Main(me)) == 0
    ensures t.kind.SingleStep? ==> Delta(RequestOf(me, t), Main(me)) == AmountMinusFee(t)
  {
    ChargedExactly(me, t);
  }

  lemma OwedNet(me: Principal, t: Transfer, blocks: seq<Request>, a: Account)
    ensures Net(blocks + Owed(me, t, blocks), a) ==
            Net(blocks, a) + if RequestOf(me, t) in blocks then 0 else Delta(RequestOf(me, t), a)
  {
    NetAppend(blocks, RequestOf(me, t), a);
    assert blocks + [] == blocks;
  }

  lemma CreditTotal(balances: map<Principal, nat>, p: Principal, amount: nat)
    ensures BalanceTotal(Credit(balances, p, amount)) == BalanceTotal(balances) + amount
  {
    BalanceUpdate(balances, p, BalanceOf(balances, p) + amount);
  }

  /** Single steps and second steps. */
  lemma LastStepEnds(w: World, t: Transfer, w': World, r: Outcome, fee: nat) returns (left: Option<Transfer>)
    requires Attempted(w, t, w', r, fee) && !IsFirstStep(t)
    ensures left == if r.Err? && r.error.Recoverable? then Some(t) else None
    ensures Ended(w, t, w', fee, left)
  {
    left := if r.Err? && r.error.Recoverable? then Some(t) else None;
    if left.Some? && IsSecondStep(t) {
      SecondStepSafe(w, t, w', fee);
    }
  }

  lemma SecondStepSafe(w: World, t: Transfer, w': World, fee: nat)
    requires Good(w, fee, t) && InterimSafe(w, t) && IsSecondStep(t) && Within(w, w', N_RETRIES + 1)
    requires w'.ledger.blocks == w.ledger.blocks || w'.ledger.blocks == w.ledger.blocks + Owed(w.me, t, w.ledger.blocks)
    ensures InterimSafe(w', t)
  {
    var a := t.kind.interim;
    ChargedExactly(w.me, t);
    OwedNet(w.me, t, w.ledger.blocks, a);
    assert Slack(w.ledger, a) <= Slack(w'.ledger, a);
  }

  lemma LastStepAffords(w: World, t: Transfer, w': World, r: Outcome, fee: nat)
    requires Attempted(w, t, w', r, fee) && !IsFirstStep(t)
    ensures Affords(w, t, w', if r.Err? && r.error.Recoverable? then Some(t) else None)
  {
    LastStepNet(w.me, t, w.ledger.blocks, w'.ledger.blocks);
    LastStepReserve(w, t, w', r, fee);
  }

  lemma LastStepNet(me: Principal, t: Transfer, b: seq<Request>, b': seq<Request>)
    requires Valid(me, t) && Shape(me, t) && !IsFirstStep(t)
    requires b' == b || b' == b + Owed(me, t, b)
    ensures Net(b', Main(me)) + Reserve(me, t, b) == Net(b, Main(me)) + Reserve(me, t, b')
  {
    if b' != b {
      assert b' == b + [RequestOf(me, t)] && RequestOf(me, t) !in b;
      MainDelta(me, t);
      NetAppend(b, RequestOf(me, t), Main(me));
      assert RequestOf(me, t) in b';
    }
  }

  lemma LastStepReserve(w: World, t: Transfer, w': World, r: Outcome, fee: nat)
    requires Attempted(w, t, w', r, fee) && !IsFirstStep(t)
    ensures r.Err? && r.error.Recoverable? ==> BalanceTotal(w'.balances) == BalanceTotal(w.balances)
    ensures !(r.Err? && r.error.Recoverable?) ==>
              Reserve(w.me, t, w'.ledger.blocks) + BalanceTotal(w.balances) >= BalanceTotal(w'.balances)
  {
    ChargedExactly(w.me, t);
    CreditTotal(w.balances, t.caller, AmountMinusFee(t));
    if r.Ok? {
      assert RequestOf(w.me, t) in w.ledger.blocks + Owed(w.me, t, w.ledger.blocks);
    }
  }

  /** Interim account of a first step that stays or is executed. */
  lemma FirstStepInterim(me: Principal, t: Transfer, b: seq<Request>, b': seq<Request>)
    requires Valid(me, t) && IsFirstStep(t) && InterimUnused(me, t, b)
    requires b' == b || b' == b + Owed(me, t, b)
    ensures Net(b', t.kind.interim) - Net(b, t.kind.interim) == Expected(me, t, b') - Expected(me, t, b)
    ensures InterimUnused(me, t, b') && Expected(me, t, b') >= 0
    ensures RequestOf(me, t) in b' ==> Expected(me, t, b') > 0
  {
    AcceptedIffPayable(me, t);
    if b' != b {
      assert b' == b + [RequestOf(me, t)];
      NetAppend(b, RequestOf(me, t), t.kind.interim);
      assert RequestOf(me, t) in b' && RequestOf(me, t) !in b;
    }
  }

  lemma FirstStepSafe(w: World, t: Transfer, w': World, fee: nat)
    requires Good(w, fee, t) && InterimSafe(w, t) && IsFirstStep(t) && Within(w, w', N_RETRIES + 1)
    requires w'.ledger.blocks == w.ledger.blocks || w'.ledger.blocks == w.ledger.blocks + Owed(w.me, t, w.ledger.blocks)
    ensures InterimSafe(w', t)
  {
    var a := t.kind.interim;
    FirstStepInterim(w.me, t, w.ledger.blocks, w'.ledger.blocks);
    assert Slack(w.ledger, a) <= Slack(w'.ledger, a);
  }

  /** Main account after `t` and possibly its second step have been executed. */
  lemma FirstStepNet(me: Principal, t: Transfer, b: seq<Request>, c: nat)
    requires Valid(me, t) && Shape(me, t) && IsFirstStep(t)
    ensures var done := b + Owed(me, t, b);
            && Net(done, Main(me)) == Net(b, Main(me)) - Reserve(me, t, b)
            && Net(done + [RequestOf(me, StepAt(t, c))], Main(me)) == Net(done, Main(me))
            && Reserve(me, StepAt(t, c), b) == 0
  {
    MainDelta(me, t);
    OwedNet(me, t, b, Main(me));
    SecondStepAgrees(me, t, c);
    MainDelta(me, StepAt(t, c));
    NetAppend(b + Owed(me, t, b), RequestOf(me, StepAt(t, c)), Main(me));
  }

  lemma FirstStepStays(w: World, t: Transfer, w': World, fee: nat)
    requires Good(w, fee, t) && InterimSafe(w, t) && IsFirstStep(t) && Within(w, w', N_RETRIES + 1)
    requires w'.config == w.config && w'.balances == w.balances && w'.recovery == Push(w.recovery, t)
    requires w'.ledger.blocks == w.ledger.blocks || w'.ledger.blocks == w.ledger.blocks + Owed(w.me, t, w.ledger.blocks)
    ensures Ended(w, t, w', fee, Some(t)) && Affords(w, t, w', Some(t))
  {
    FirstStepSafe(w, t, w', fee);
    FirstStepReserve(w.me, t, w.ledger.blocks, w'.ledger.blocks);
    FirstStepOwn(w.me, t, w.ledger.blocks, w'.ledger.blocks);
  }

  lemma FirstStepReserve(me: Principal, t: Transfer, b: seq<Request>, b': seq<Request>)
    requires Valid(me, t) && Shape(me, t) && IsFirstStep(t)
    requires b' == b || b' == b + Owed(me, t, b)
    ensures Net(b', Main(me)) + Reserve(me, t, b) == Net(b, Main(me)) + Reserve(me, t, b')
  {
    if b' != b {
      assert b' == b + [RequestOf(me, t)] && RequestOf(me, t) !in b;
      MainDelta(me, t);
      NetAppend(b, RequestOf(me, t), Main(me));
      assert RequestOf(me, t) in b';
    }
  }

  lemma FirstStepOwn(me: Principal, t: Transfer, b: seq<Request>, b': seq<Request>)
    requires b' == b || b' == b + Owed(me, t, b)
    ensures OwnBlocks(me, t, b, b')
  {
    assert OwnBlock(me, t, RequestOf(me, t));
  }

  lemma FirstStepMovesOn(w: World, t: Transfer, w': World, fee: nat, c: nat)
    requires Good(w, fee, t) && InterimSafe(w, t) && IsFirstStep(t) && Within(w, w', N_RETRIES + 1)
    requires w'.config == w.config && w'.balances == w.balances && ListedSecond(w, t, w', c)
    ensures Ended(w, t, w', fee, Some(StepAt(t, c))) && Affords(w, t, w', Some(StepAt(t, c)))
  {
    SecondStepAgrees(w.me, t, c);
    NextStepSafe(w, t, w', fee, c);
    NextStepReserve(w.me, t, w.ledger.blocks, w'.ledger.blocks, c);
    NextStepOwn(w.me, t, w.ledger.blocks, w'.ledger.blocks, c);
  }

  lemma NextStepReserve(me: Principal, t: Transfer, b: seq<Request>, b': seq<Request>, c: nat)
    requires Valid(me, t) && Shape(me, t) && IsFirstStep(t)
    requires var done := b + Owed(me, t, b); b' == done || b' == done + [RequestOf(me, StepAt(t, c))]
    ensures Net(b', Main(me)) + Reserve(me, t, b) == Net(b, Main(me)) && Reserve(me, StepAt(t, c), b') == 0
  {
    FirstStepNet(me, t, b, c);
  }

  lemma NextStepOwn(me: Principal, t: Transfer, b: seq<Request>, b': seq<Request>, c: nat)
    requires IsFirstStep(t)
    requires var done := b + Owed(me, t, b); b' == done || b' == done + [RequestOf(me, StepAt(t, c))]
    ensures OwnBlocks(me, t, b, b')
  {
    assert OwnBlock(me, t, RequestOf(me, t)) && OwnBlock(me, t, RequestOf(me, StepAt(t, c)));
  }

  /** The second step inherits an interim account that holds exactly its amount, or nothing once paid. */
  lemma NextStepSafe(w: World, t: Transfer, w': World, fee: nat, c: nat)
    requires Good(w, fee, t) && InterimSafe(w, t) && IsFirstStep(t) && Within(w, w', N_RETRIES + 1)
    requires ListedSecond(w, t, w', c)
    ensures InterimSafe(w', StepAt(t, c))
  {
    var a := t.kind.interim;
    NextStepNet(w.me, t, w.ledger.blocks, w'.ledger.blocks, c);
    assert Slack(w.ledger, a) <= Slack(w'.ledger, a);
  }

  lemma NextStepNet(me: Principal, t: Transfer, b: seq<Request>, b': seq<Request>, c: nat)
    requires Valid(me, t) && IsFirstStep(t) && InterimUnused(me, t, b) && t.to != t.kind.interim
    requires var done := b + Owed(me, t, b); b' == done || b' == done + [RequestOf(me, StepAt(t, c))]
    ensures Net(b', t.kind.interim) - Net(b, t.kind.interim) == Expected(me, StepAt(t, c), b') - Expected(me, t, b)
    ensures forall r :: r in b' && r.from == t.kind.interim ==> r == RequestOf(me, StepAt(t, c))
  {
    var a, done, r2 := t.kind.interim, b + Owed(me, t, b), RequestOf(me, StepAt(t, c));
    SecondStepAgrees(me, t, c);
    OwedNet(me, t, b, a);
    NetAppend(done, r2, a);
    assert forall r :: r in done ==> r in b || r == RequestOf(me, t);
    assert r2 !in done && r2 in done + [r2];
    assert forall r :: r in b' ==> r in done || r == r2;
  }

  lemma FirstStepSettles(w: World, t: Transfer, w': World, fee: nat, tx: nat, c: nat)
    requires Good(w, fee, t) && IsFirstStep(t) && Within(w, w', N_RETRIES + 1)
    requires w'.recovery == w.recovery && w'.balances == w.balances && SettledTwice(w, t, w', tx, c)
    ensures Ended(w, t, w', fee, None) && Affords(w, t, w', None)
  {
    NextStepReserve(w.me, t, w.ledger.blocks, w'.ledger.blocks, c);
    NextStepOwn(w.me, t, w.ledger.blocks, w'.ledger.blocks, c);
  }

  lemma FirstStepEnds(w: World, t: Transfer, w': World, r: Outcome, fee: nat) returns (left: Option<Transfer>)
    requires Attempted(w, t, w', r, fee) && IsFirstStep(t)
    ensures Ended(w, t, w', fee, left) && Affords(w, t, w', left)
  {
    var b := w.ledger.blocks;
    left := None;
    match r {
      case Ok(tx) =>
        var c :| SettledTwice(w, t, w', tx, c);
        FirstStepSettles(w, t, w', fee, tx, c);
      case Err(Recoverable(_)) =>
        if w'.recovery == Push(w.recovery, t) && (w'.ledger.blocks == b || w'.ledger.blocks == b + Owed(w.me, t, b)) {
          left := Some(t);
          FirstStepStays(w, t, w', fee);
        } else {
          var c :| ListedSecond(w, t, w', c);
          left := Some(StepAt(t, c));
          FirstStepMovesOn(w, t, w', fee, c);
        }
      case Err(PaymentFailed(_)) =>
        CreditTotal(w.balances, t.caller, t.amount);
    }
  }

  function Optional(left: Option<Transfer>): set<Transfer> {
    match left case None => {} case Some(s) => {s}
  }

  /** What was left behind joins the untouched rest. */
  lemma LeftSafe(w: World, t: Transfer, w': World, fee: nat, live: set<Transfer>, left: Option<Transfer>)
    requires LiveOk(w, fee, live) && t in live && Ended(w, t, w', fee, left)
    requires LiveOk(w', fee, live - {t}) && w'.me == w.me
    ensures LiveOk(w', fee, live - {t} + Optional(left)) && Optional(left) !! live - {t}
    ensures Total(w.me, live - {t} + Optional(left), w'.ledger.blocks) ==
            Total(w.me, live - {t}, w'.ledger.blocks)
            + (if left.None? then 0 else Reserve(w.me, left.value, w'.ledger.blocks))
  {
    var rest := live - {t};
    match left {
      case None => assert rest + {} == rest;
      case Some(s) =>
        LeftIsNew(w, t, w', fee, live, s);
        AddLive(w', fee, rest, s);
        TotalAdd(w.me, rest, w'.ledger.blocks, s);
    }
  }

  lemma LeftIsNew(w: World, t: Transfer, w': World, fee: nat, live: set<Transfer>, s: Transfer)
    requires LiveOk(w, fee, live) && t in live && Ended(w, t, w', fee, Some(s))
    ensures forall u :: u in live - {t} ==> u.memo != s.memo && !SharesInterim(u, s)
  {
    forall u | u in live - {t} ensures u.memo != s.memo && !SharesInterim(u, s) {
      assert u in live && u != t && u.memo != t.memo && !SharesInterim(u, t);
    }
  }

  /** One attempt keeps the world safe, with what it leaves in place of what it took. */
  lemma AttemptSafe(w: World, t: Transfer, w': World, r: Outcome, fee: nat, live: set<Transfer>)
    returns (left: Option<Transfer>)
    requires Safe(w, fee, live) && t in live
    requires ThreeWays(w, t, w', r) && Within(w, w', N_RETRIES + 1)
    ensures Leaves(w, t, w', left) && (left.Some? ==> left.value !in live - {t})
    ensures Safe(w', fee, live - {t} + Optional(left))
  {
    assert Attempted(w, t, w', r, fee);
    if IsFirstStep(t) {
      left := FirstStepEnds(w, t, w', r, fee);
    } else {
      left := LastStepEnds(w, t, w', r, fee);
      LastStepAffords(w, t, w', r, fee);
    }
    RestSafe(w, w', fee, live, t);
    LeftSafe(w, t, w', fee, live, left);
    TotalSplit(w.me, live, w.ledger.blocks, t);
    assert Slack(w.ledger, Main(w.me)) <= Slack(w'.ledger, Main(w.me));
  }
}
