/** What `update_recovery_fees` leaves on the recovery list, whoever changes the configuration. */
module TerminalRepricing {
  import opened Wrappers
  import opened Transfers
  import opened Terminal
  import opened TerminalOutcome
  import opened TerminalSolvency
  import opened TerminalRuns
  import opened TerminalRecovery
  import opened TerminalCalls

  /** `s` is `t` at the fee that the configuration prescribes between its two end accounts, as if created at
      time zero; nothing else differs. */
  predicate RightlyPriced(me: Principal, config: TokenConfiguration, t: Transfer, s: Transfer) {
    && s.createdAt == 0
    && s.fee == (if config.mintingAccount in {Account(me, t.from), t.to} then 0 else config.fee)
    && s.token == t.token && s.caller == t.caller && s.from == t.from && s.to == t.to && s.amount == t.amount
    && s.operation == t.operation && s.kind == t.kind && s.memo == t.memo
  }

  /** Equal but for what the identifier does not hash and for the creation time. */
  predicate Alike(t: Transfer, u: Transfer) {
    t.from == u.from && t.to == u.to && t.amount == u.amount && t.token == u.token
  }

  /** The identifier of `t` as if it had been created at time zero. */
  function ZeroId(t: Transfer): TransferId {
    TransferId(t.from, t.to, t.amount, t.token, 0)
  }

  /** Every entry of the new list is an old one rightly priced; every old one has an entry under its identifier
      there, its own unless another one is alike. */
  ghost predicate ListRepriced(me: Principal, config: TokenConfiguration, list: RecoveryList, list': RecoveryList) {
    && (forall id :: id in list' ==>
          exists t :: t in list.Values && RightlyPriced(me, config, t, list'[id]) && id == ZeroId(t))
    && (forall t :: t in list.Values ==> ZeroId(t) in list')
    && (forall t :: t in list.Values && Unlike(list, t) ==> RightlyPriced(me, config, t, list'[ZeroId(t)]))
  }

  /** No other transfer on the list is alike. */
  ghost predicate Unlike(list: RecoveryList, t: Transfer) {
    forall u :: u in list.Values && Alike(t, u) ==> u == t
  }

  lemma {:induction false} PushAllMembers(list: RecoveryList, ts: seq<Transfer>)
    requires Keyed(list)
    ensures var list' := PushAll(list, ts);
            && Keyed(list')
            && (forall s :: s in list'.Values ==> s in list.Values || s in ts)
            && (forall id :: id in list' <==> id in list || exists t :: t in ts && IdOf(t) == id)
    decreases |ts|
  {
    if ts != [] {
      assert ts == [ts[0]] + ts[1..];
      PushAllMembers(Push(list, ts[0]), ts[1..]);
    }
  }

  /** Entries made from the re-priced transfers `all` are rightly priced. */
  lemma EntriesPriced(me: Principal, config: TokenConfiguration, list: RecoveryList, all: seq<Transfer>,
                      list': RecoveryList)
    requires forall s :: s in all ==> exists t :: t in list.Values && s == Refee(me, config, t)
    requires Keyed(list') && forall s :: s in list'.Values ==> s in all
    ensures forall id :: id in list' ==>
              exists t :: t in list.Values && RightlyPriced(me, config, t, list'[id]) && id == ZeroId(t)
  {
    forall id | id in list'
      ensures exists t :: t in list.Values && RightlyPriced(me, config, t, list'[id]) && id == ZeroId(t)
    {
      assert list'[id] in list'.Values;
      var t :| t in list.Values && list'[id] == Refee(me, config, t);
      assert RightlyPriced(me, config, t, list'[id]);
    }
  }

  lemma RepricesList(e: Env, w: World)
    requires ValidOrder(e) && Keyed(w.recovery)
    ensures ListRepriced(w.me, w.config, w.recovery, UpdateRecoveryFees(e, w).recovery)
  {
    var ts := TakeAll(e, w);
    var all := RefeeAll(w.me, w.config, ts);
    TakesAll(e, w);
    RefeeMembers(w.me, w.config, ts);
    PushAllMembers(map[], all);
    var list, list' := w.recovery, PushAll(map[], all);
    assert UpdateRecoveryFees(e, w).recovery == list';
    forall t | t in list.Values ensures ZeroId(t) in list' {
      assert Refee(w.me, w.config, t) in all;
    }
    forall s | s in all ensures exists t :: t in list.Values && s == Refee(w.me, w.config, t) {
      var t :| t in ts && s == Refee(w.me, w.config, t);
      assert t in list.Values;
    }
    EntriesPriced(w.me, w.config, list, all, list');
    forall t | t in list.Values && Unlike(list, t) ensures RightlyPriced(w.me, w.config, t, list'[ZeroId(t)]) {
      var u :| u in list.Values && RightlyPriced(w.me, w.config, u, list'[ZeroId(t)]) && ZeroId(t) == ZeroId(u);
      assert Alike(t, u);
    }
  }

  /** Setting the fee or the minting account changes that field of the configuration, re-prices the list for the
      new configuration, and does nothing else. */
  lemma ConfigurationSet(e: Env, w: World, fee: nat, account: Account)
    requires ValidOrder(e) && Keyed(w.recovery)
    ensures var w' := SetFee(e, w, fee);
            && w'.config == TokenConfiguration(w.config.principal, fee, w.config.mintingAccount)
            && w' == w.(config := w'.config, recovery := w'.recovery)
            && ListRepriced(w.me, w'.config, w.recovery, w'.recovery)
    ensures var w' := SetMintingAccount(e, w, account);
            && w'.config == TokenConfiguration(w.config.principal, w.config.fee, account)
            && w' == w.(config := w'.config, recovery := w'.recovery)
            && ListRepriced(w.me, w'.config, w.recovery, w'.recovery)
  {
    RepricesList(e, w.(config := w.config.(fee := fee)));
    RepricesList(e, w.(config := w.config.(mintingAccount := account)));
  }
}
