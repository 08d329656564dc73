/** The terminal and its recovery list as objects, in the form of ic-payments/src/token_terminal.rs and
    ic-payments/src/recovery_list.rs.  Each method is tied to the function of `Terminal` on the view
    of the object, so the results about those functions hold of the object. */
module TokenTerminals {
  import opened Wrappers
  import opened PaymentErrors
  import opened Transfers
  import opened Ledgers
  import T = Terminal

  class StableRecoveryList {
    var items: T.RecoveryList

    constructor ()
      ensures items == map[]
    {
      items := map[];
    }

    method Push(t: Transfer)
      modifies this
      ensures items == T.Push(old(items), t)
    {
      items := items[IdOf(t) := t];
    }

    method List(order: set<TransferId> -> seq<TransferId>) returns (ts: seq<Transfer>)
      ensures ts == T.Listing(items, order(items.Keys))
    {
      ts := [];
      var keys := order(items.Keys);
      for i := 0 to |keys|
        invariant ts + T.Listing(items, keys[i..]) == T.Listing(items, keys)
      {
        ListingStep(items, keys, i, ts);
        if keys[i] in items {
          ts := ts + [items[keys[i]]];
        }
      }
    }

    method TakeAll(order: set<TransferId> -> seq<TransferId>) returns (ts: seq<Transfer>)
      modifies this
      ensures ts == T.Listing(old(items), order(old(items).Keys))
      ensures items == map[]
    {
      ts := List(order);
      items := map[];
    }
  }

  class TokenTerminal {
    const me: Principal
    const env: T.Env
    const recoveryList: StableRecoveryList
    var config: TokenConfiguration
    var balances: map<Principal, nat>

    // The remote ledger and the clock, seen through the replies that have arrived.
    var ledger: Ledger
    var clock: nat
    var calls: nat
    var sent: nat
    var counter: nat
    var log: seq<T.Moment>

    constructor (me: Principal, env: T.Env, config: TokenConfiguration, balances: map<Principal, nat>,
                 list: StableRecoveryList, ledger: Ledger, clock: nat)
      ensures View() == T.World(me, ledger, clock, 0, 0, 0, config, balances, list.items, [])
      ensures this.env == env && recoveryList == list
    {
      this.me, this.env, this.recoveryList, this.config, this.balances := me, env, list, config, balances;
      this.ledger, this.clock, calls, sent, counter, log := ledger, clock, 0, 0, 0, [];
    }

    function View(): T.World
      reads this, recoveryList
    {
      T.World(me, ledger, clock, calls, sent, counter, config, balances, recoveryList.items, log)
    }

    method AwaitReply() returns (a: Answer)
      modifies this
      ensures a == env.answers(calls) && calls == old(calls) && View() == T.Await(env, old(View()))
    {
      a := env.answers(calls);
      clock, ledger := clock + a.elapsed, Deposit(ledger, a.giftTo, a.gift);
    }

    /** Notes the call just answered. */
    method Note(call: T.Call)
      modifies this`log, this`calls
      ensures View() == T.Record(old(View()), call)
    {
      calls, log := calls + 1, log + [T.Moment(call, ledger, balances)];
    }

    method Execute(t: Transfer) returns (reply: Result<nat, InternalPaymentError>)
      modifies this
      ensures (View(), reply) == T.Execute(env, old(View()), t)
    {
      var a := AwaitReply();
      var (l, answer) := Submit(ledger, RequestOf(me, t), clock, a);
      ledger, sent, reply := l, sent + 1, FromReply(answer);
      Note(T.Requested(t, reply));
    }

    method QueryBalance(account: Account) returns (reply: Result<nat, PaymentError>)
      modifies this
      ensures (View(), reply) == T.QueryBalance(env, old(View()), account)
    {
      var a := AwaitReply();
      match QueryFailure(a) {
        case None => reply := Ok(Funds(ledger, account));
        case Some(code) => reply := Err(ToPaymentError(FromRejection(code)));
      }
      Note(T.AskedBalance(account, reply));
    }

    method GetMintingAccount(expectedFee: nat) returns (reply: Result<Account, PaymentError>)
      modifies this
      ensures (View(), reply) == T.QueryMintingAccount(env, old(View()), expectedFee)
    {
      var a := AwaitReply();
      match QueryFailure(a) {
        case Some(_) => reply := Err(FeeMismatch(expectedFee));
        case None =>
          reply := Ok(match a.minting case Some(acc) => acc case None => Account(MANAGEMENT_CANISTER, Default));
      }
      Note(T.AskedMinting(reply));
    }

    method UpdateRecoveryFees()
      modifies recoveryList
      ensures View() == T.UpdateRecoveryFees(env, old(View()))
    {
      var txs := recoveryList.TakeAll(env.order);
      for i := 0 to |txs|
        invariant T.PushAll(recoveryList.items, T.RefeeAll(me, config, txs[i..])) ==
                  T.PushAll(map[], T.RefeeAll(me, config, txs))
      {
        var fee := GetFee(config, FromAcc(me, txs[i]), txs[i].to);
        assert txs[i..][1..] == txs[i + 1..];
        assert T.RefeeAll(me, config, txs[i..])[1..] == T.RefeeAll(me, config, txs[i + 1..]);
        recoveryList.Push(txs[i].(fee := fee, createdAt := 0));
      }
    }

    method SetFee(fee: nat)
      modifies this, recoveryList
      ensures View() == T.SetFee(env, old(View()), fee)
    {
      config := config.(fee := fee);
      UpdateRecoveryFees();
    }

    method SetMintingAccount(account: Account)
      modifies this, recoveryList
      ensures View() == T.SetMintingAccount(env, old(View()), account)
    {
      config := config.(mintingAccount := account);
      UpdateRecoveryFees();
    }

    method Transfer(t: Transfer, n: nat) returns (r: T.Outcome)
      modifies this, recoveryList
      ensures (View(), r) == T.RunTransfer(env, old(View()), t, n)
      decreases T.StageRank(t), n, 8
    {
      match Validate(me, t) {
        case Err(err) => r := Err(ToPaymentError(err));
        case Ok(_) => r := ExecuteTransfer(t, n);
      }
    }

    method ExecuteTransfer(t: Transfer, n: nat) returns (r: T.Outcome)
      modifies this, recoveryList
      ensures (View(), r) == T.ExecuteTransfer(env, old(View()), t, n)
      decreases T.StageRank(t), n, 7
    {
      var reply := Execute(t);
      match T.FirstVerdict(reply) {
        case Done(tx) => r := Complete(t, tx, n);
        case Again => r := Retry(t, T.Minus1(n));
        case Reprice(expected) => r := UpdateConfigAndRetry(expected, t, T.Minus1(n));
        case Fail(err) => r := Reject(t, err);
      }
    }

    method ExecuteRecoveryTransfer(t: Transfer, n: nat) returns (r: T.Outcome)
      modifies this, recoveryList
      ensures (View(), r) == T.ExecuteRecoveryTransfer(env, old(View()), t, n)
      decreases T.StageRank(t), n, 4
    {
      var reply := Execute(t);
      match T.RecoveryVerdict(reply) {
        case Done(tx) => r := Complete(t, tx, n);
        case Again => r := Retry(t, T.Minus1(n));
        case Reprice(expected) => r := UpdateConfigAndRetry(expected, t, T.Minus1(n));
        case Fail(err) => r := Reject(t, err);
      }
    }

    method Complete(t: Transfer, tx: nat, n: nat) returns (r: T.Outcome)
      modifies this, recoveryList
      ensures (View(), r) == T.Complete(env, old(View()), t, tx, n)
      decreases T.StageRank(t), n, 0
    {
      match NextStep(t, clock) {
        case Some(s) => r := Transfer(s, n);
        case None =>
          if t.operation == CreditOnSuccess {
            balances := T.Credit(balances, t.caller, AmountMinusFee(t));
          }
          r := Ok(tx);
      }
    }

    method Reject(t: Transfer, err: InternalPaymentError) returns (r: T.Outcome)
      modifies this, recoveryList
      ensures (View(), r) == T.Reject(old(View()), t, err)
    {
      if IsSecondStep(t) {
        recoveryList.Push(t);
        r := Err(Recoverable(if err.WrongFee? then RecoveryBadFee(err.expected) else IcError));
      } else {
        if t.operation == CreditOnError {
          balances := T.Credit(balances, t.caller, t.amount);
        }
        r := Err(ToPaymentError(err));
      }
    }

    method Retry(t: Transfer, n: nat) returns (r: T.Outcome)
      modifies this, recoveryList
      ensures (View(), r) == T.Retry(env, old(View()), t, n)
      decreases T.StageRank(t), n, if n == 0 then 1 else 5
    {
      if n == 0 {
        recoveryList.Push(t);
        return Err(Recoverable(IcError));
      }
      r := ExecuteRecoveryTransfer(t, n);
    }

    method UpdateConfigAndRetry(expectedFee: nat, t: Transfer, n: nat) returns (r: T.Outcome)
      modifies this, recoveryList
      ensures (View(), r) == T.UpdateConfigAndRetry(env, old(View()), expectedFee, t, n)
      decreases T.StageRank(t), n, if n == 0 then 2 else 6
    {
      if expectedFee == 0 || expectedFee == config.fee {
        var reply := GetMintingAccount(expectedFee);
        if reply.Err? {
          return Err(reply.error);
        }
        SetMintingAccount(reply.value);
      } else {
        SetFee(expectedFee);
      }
      r := Retry(t.(fee := GetFee(config, StepTo(t), StepFrom(me, t))), n);
    }

    method DepositTokens(caller: Principal, amount: nat) returns (r: Result<(nat, nat), PaymentError>)
      modifies this, recoveryList
      ensures (View(), r) == T.DepositTokens(env, old(View()), caller, amount)
    {
      var t := T.DepositTransfer(View(), caller, amount);
      counter := counter + 1;
      match FinalAmount(t) {
        case Err(err) => r := Err(ToPaymentError(err));
        case Ok(received) =>
          var tx := Transfer(t, T.N_RETRIES);
          r := match tx case Ok(id) => Ok((id, received)) case Err(err) => Err(err);
      }
    }

    method Withdraw(caller: Principal, amount: nat) returns (r: Result<(nat, nat), PaymentError>)
      modifies this, recoveryList
      ensures (View(), r) == T.Withdraw(env, old(View()), caller, amount)
    {
      var t := T.WithdrawTransfer(View(), caller, amount);
      counter := counter + 1;
      var valid := Validate(me, t);
      if valid.Err? {
        return Err(ToPaymentError(valid.error));
      }
      var final := FinalAmount(t);
      if final.Err? {
        return Err(ToPaymentError(final.error));
      }
      var debited := T.Debit(balances, caller, t.amount);
      if debited.None? {
        return Err(NotEnoughFunds);
      }
      balances := debited.value;
      var tx := Transfer(t, T.N_RETRIES);
      r := match tx case Ok(id) => Ok((id, final.value)) case Err(err) => Err(err);
    }

    method RecoverOldTx(t: Transfer) returns (r: T.Outcome)
      modifies this, recoveryList
      ensures (View(), r) == T.RecoverOldTx(env, old(View()), t)
    {
      if t.kind.SingleStep? {
        return Err(PaymentFailed(TransferTooOld));
      }
      var reply := QueryBalance(t.kind.interim);
      if reply.Err? {
        return Err(reply.error);
      }
      if t.kind.stage == First && reply.value == 0 {
        r := Reject(t, TransferFailed(Unknown));
      } else if t.kind.stage == First || reply.value == 0 {
        r := Complete(t, T.UNKNOWN_TX_ID, T.N_RETRIES);
      } else {
        r := ExecuteRecoveryTransfer(t.(createdAt := clock), T.N_RETRIES);
      }
    }

    method RecoverTx(t: Transfer) returns (r: T.Outcome)
      modifies this, recoveryList
      ensures (View(), r) == T.RecoverTx(env, old(View()), t)
    {
      if T.CanDeduplicate(View(), t) {
        r := ExecuteRecoveryTransfer(t, T.N_RETRIES);
      } else {
        r := RecoverOldTx(t);
      }
    }

    /** One round of the loop of `RecoverAll`. */
    method RecoverItem(t: Transfer) returns (reported: seq<T.RecoveryResult>)
      modifies this, recoveryList
      ensures View() == T.RecoverItem(env, old(View()), t).0
      ensures reported == T.Reported(t, T.RecoverItem(env, old(View()), t).1)
    {
      reported := [];
      if t.token == config.principal {
        var outcome := RecoverTx(t);
        reported := [match outcome case Ok(tx) => Ok((tx, t)) case Err(err) => Err(err)];
      } else {
        recoveryList.Push(t);
      }
    }

    method RecoverAll() returns (results: seq<T.RecoveryResult>)
      modifies this, recoveryList
      ensures (View(), results) == T.RecoverAll(env, old(View()))
    {
      results := [];
      ghost var (end, all) := T.RecoverAll(env, View());
      var txs := recoveryList.TakeAll(env.order);
      assert txs[0..] == txs;
      for i := 0 to |txs|
        invariant Remains(env, View(), txs[i..], results, end, all)
      {
        RemainsStep(env, View(), txs, i, results, end, all);
        var reported := RecoverItem(txs[i]);
        results := results + reported;
      }
      assert txs[|txs|..] == [] && T.RecoverItems(env, View(), []) == (View(), []);
      assert results + [] == results;
    }
  }

  /** After the remaining items the world is `end` and all results are `all`. */
  ghost predicate Remains(e: T.Env, w: T.World, items: seq<Transfer>, results: seq<T.RecoveryResult>,
                          end: T.World, all: seq<T.RecoveryResult>) {
    end == T.RecoverItems(e, w, items).0 && all == results + T.RecoverItems(e, w, items).1
  }

  lemma RemainsStep(e: T.Env, w: T.World, items: seq<Transfer>, i: nat, results: seq<T.RecoveryResult>,
                    end: T.World, all: seq<T.RecoveryResult>)
    requires i < |items| && Remains(e, w, items[i..], results, end, all)
    ensures var (w1, r) := T.RecoverItem(e, w, items[i]);
            Remains(e, w1, items[i + 1..], results + T.Reported(items[i], r), end, all)
  {
    var (w1, r) := T.RecoverItem(e, w, items[i]);
    var rest := T.RecoverItems(e, w1, items[i + 1..]).1;
    UnfoldItems(e, w, items, i);
    assert results + (T.Reported(items[i], r) + rest) == results + T.Reported(items[i], r) + rest;
  }

  lemma ListingStep(list: T.RecoveryList, keys: seq<TransferId>, i: nat, ts: seq<Transfer>)
    requires i < |keys|
    ensures ts + T.Listing(list, keys[i..]) ==
            (if keys[i] in list then ts + [list[keys[i]]] else ts) + T.Listing(list, keys[i + 1..])
  {
    assert keys[i..][1..] == keys[i + 1..];
  }

  lemma UnfoldItems(e: T.Env, w: T.World, items: seq<Transfer>, i: nat)
    requires i < |items|
    ensures var (w1, r) := T.RecoverItem(e, w, items[i]);
            && T.RecoverItems(e, w, items[i..]).0 == T.RecoverItems(e, w1, items[i + 1..]).0
            && T.RecoverItems(e, w, items[i..]).1 == T.Reported(items[i], r) + T.RecoverItems(e, w1, items[i + 1..]).1
  {
    assert items[i..][1..] == items[i + 1..];
  }
}
