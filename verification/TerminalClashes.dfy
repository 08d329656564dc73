/** When recovery can lose a transfer: two listed ones whose continuations share an identifier.  The hash
    covers source, target, amount, token and creation time, but neither the memo nor the interim account, so
    the list keeps only the later of the two, although the ledger would execute both. */
module TerminalClashes {
  import opened Wrappers
  import opened PaymentErrors
  import opened Transfers
  import opened Ledgers
  import opened Terminal
  import opened TerminalBudget
  import opened TerminalOutcome
  import opened TerminalSolvency
  import opened TerminalRuns
  import opened TerminalRecovery
  import opened TerminalRecoverAll

  // ---------------------------------------------------------------- lost calls

  predicate LostAtOnce(a: Answer) {
    a.fate == Lost(SysTransient, false) && a.elapsed == 0
  }

  ghost predicate SilentFrom(e: Env, k: nat) {
    forall j :: j >= k ==> LostAtOnce(e.answers(j))
  }

  /** No time has passed and no `BadFee` reply has arrived. */
  ghost predicate Quiet(w: World, w1: World, calls: nat) {
    && w1.me == w.me && w1.config == w.config && w1.balances == w.balances && w1.clock == w.clock
    && w1.calls == w.calls + calls && w.log <= w1.log && Steady(w, w1)
  }

  lemma QuietChain(w: World, w1: World, w2: World, m: nat, n: nat)
    requires Quiet(w, w1, m) && Quiet(w1, w2, n)
    ensures Quiet(w, w2, m + n)
  {
    forall i | |w.log| <= i < |w2.log| ensures !BadFeeReply(w2.log[i]) {
      if i < |w1.log| {
        assert w2.log[i] == w1.log[i];
      }
    }
  }

  lemma LostCall(e: Env, w: World, t: Transfer)
    requires LostAtOnce(e.answers(w.calls))
    ensures var (w1, reply) := Execute(e, w, t);
            && reply == Err(MaybeFailed) && Quiet(w, w1, 1)
            && w1.ledger.blocks == w.ledger.blocks && w1.recovery == w.recovery
  {
  }

  /** An attempt nobody answers lists the transfer, and nothing else happens. */
  ghost predicate JustListed(w: World, t: Transfer, w': World, r: Outcome, calls: nat) {
    && Quiet(w, w', calls) && w'.ledger.blocks == w.ledger.blocks
    && w'.recovery == Push(w.recovery, t) && r == Err(Recoverable(IcError))
  }

  lemma {:induction false} LostRecovery(e: Env, w: World, t: Transfer, n: nat)
    requires n >= 1 && forall j :: w.calls <= j < w.calls + n ==> LostAtOnce(e.answers(j))
    ensures var (w', r) := ExecuteRecoveryTransfer(e, w, t, n); JustListed(w, t, w', r, n)
    decreases n
  {
    LostCall(e, w, t);
    var w1 := Execute(e, w, t).0;
    assert ExecuteRecoveryTransfer(e, w, t, n) == Retry(e, w1, t, n - 1);
    if n > 1 {
      LostRecovery(e, w1, t, n - 1);
      QuietChain(w, w1, ExecuteRecoveryTransfer(e, w1, t, n - 1).0, 1, n - 1);
    }
  }

  lemma LostTransfer(e: Env, w: World, t: Transfer, n: nat)
    requires n >= 2 && Valid(w.me, t) && forall j :: w.calls <= j < w.calls + n ==> LostAtOnce(e.answers(j))
    ensures var (w', r) := RunTransfer(e, w, t, n); JustListed(w, t, w', r, n)
  {
    LostCall(e, w, t);
    var w1 := Execute(e, w, t).0;
    assert RunTransfer(e, w, t, n) == ExecuteTransfer(e, w, t, n) == Retry(e, w1, t, n - 1);
    LostRecovery(e, w1, t, n - 1);
    QuietChain(w, w1, ExecuteRecoveryTransfer(e, w1, t, n - 1).0, 1, n - 1);
  }

  /** Without answers nothing disturbs the rest of the loop. */
  lemma SilentItem(e: Env, w: World, t: Transfer) returns (calls: nat)
    requires SilentFrom(e, w.calls)
    ensures Quiet(w, RecoverItem(e, w, t).0, calls)
  {
    calls := 0;
    if t.token == w.config.principal {
      if CanDeduplicate(w, t) {
        LostRecovery(e, w, t, N_RETRIES);
        calls := N_RETRIES;
      } else if t.kind.DoubleStep? {
        assert LostAtOnce(e.answers(w.calls));
        calls := 1;
      }
    }
  }

  lemma {:induction false} SilentItems(e: Env, w: World, items: seq<Transfer>)
    requires SilentFrom(e, w.calls)
    ensures UndisturbedItems(e, w, items)
    decreases |items|
  {
    if items != [] {
      var calls := SilentItem(e, w, items[0]);
      SilentItems(e, RecoverItem(e, w, items[0]).0, items[1..]);
    }
  }

  // ---------------------------------------------------------------- continued and lost

  /** What a transfer goes on as: its second step, or itself renewed. */
  function ContinuedAt(t: Transfer, c: nat): Transfer {
    if IsFirstStep(t) then StepAt(t, c) else t.(createdAt := c)
  }

  /** One call is served, three are lost. */
  ghost predicate ServedThenLost(e: Env, k: nat, t: Transfer) {
    var a := e.answers(k);
    && a.fate == Served && a.elapsed == 0 && a.fee == t.fee
    && forall j :: k < j <= k + 3 ==> LostAtOnce(e.answers(j))
  }

  /** The transfer is continued, and listed as what it goes on as. */
  ghost predicate GoesOn(w: World, t: Transfer, w': World, r: Outcome) {
    Quiet(w, w', 4) && w'.recovery == Push(w.recovery, ContinuedAt(t, w.clock)) && r == Err(Recoverable(IcError))
  }

  /** The first step is executed, or will be as soon as the ledger serves it. */
  predicate Executable(w: World, t: Transfer) {
    RequestOf(w.me, t) in w.ledger.blocks || CanPay(w.ledger, RequestOf(w.me, t))
  }

  lemma RecentGoesOn(e: Env, w: World, t: Transfer)
    requires IsFirstStep(t) && CanDeduplicate(w, t) && t.createdAt <= w.clock && Valid(w.me, t) && Executable(w, t)
    requires ServedThenLost(e, w.calls, t)
    ensures var (w', r) := RecoverTx(e, w, t); GoesOn(w, t, w', r)
  {
    var (w1, reply) := Execute(e, w, t);
    assert RecoveryVerdict(reply).Done? && Quiet(w, w1, 1) && w1.recovery == w.recovery;
    var s := StepAt(t, w1.clock);
    SecondStepAgrees(w.me, t, w1.clock);
    var v := RecoveryVerdict(reply);
    assert RecoverTx(e, w, t) == ExecuteRecoveryTransfer(e, w, t, 3) == Continue(e, w1, t, 3, v);
    assert Continue(e, w1, t, 3, v) == Complete(e, w1, t, v.tx, 3) == RunTransfer(e, w1, s, 3);
    LostTransfer(e, w1, s, 3);
    QuietChain(w, w1, RunTransfer(e, w1, s, 3).0, 1, 3);
  }

  lemma OldGoesOn(e: Env, w: World, t: Transfer)
    requires t.kind.DoubleStep? && !CanDeduplicate(w, t) && Valid(w.me, t) && ServedThenLost(e, w.calls, t)
    requires Funds(Asked(e, w, t).ledger, t.kind.interim) > 0
    ensures var (w', r) := RecoverTx(e, w, t); GoesOn(w, t, w', r)
    ensures RecoverTx(e, w, t).0.ledger.blocks == w.ledger.blocks
  {
    var w1 := Asked(e, w, t);
    assert Quiet(w, w1, 1) && w1.recovery == w.recovery;
    if IsFirstStep(t) {
      var s := StepAt(t, w1.clock);
      SecondStepAgrees(w.me, t, w1.clock);
      assert RecoverTx(e, w, t) == RunTransfer(e, w1, s, 3);
      LostTransfer(e, w1, s, 3);
      QuietChain(w, w1, RunTransfer(e, w1, s, 3).0, 1, 3);
    } else {
      var s := t.(createdAt := w1.clock);
      assert RecoverTx(e, w, t) == ExecuteRecoveryTransfer(e, w1, s, 3);
      LostRecovery(e, w1, s, 3);
      QuietChain(w, w1, ExecuteRecoveryTransfer(e, w1, s, 3).0, 1, 3);
    }
  }

  /** The main account can pay every listed first step that is not executed. */
  lemma ListedExecutable(w: World, fee: nat, live: set<Transfer>, t: Transfer)
    requires Safe(w, fee, live) && t in live && IsFirstStep(t)
    ensures Executable(w, t)
  {
    assert Good(w, fee, t);
    ChargedExactly(w.me, t);
    TotalSplit(w.me, live, w.ledger.blocks, t);
  }

  // ---------------------------------------------------------------- two that clash

  function Later(w: World, d: nat): World {
    w.(clock := w.clock + d)
  }

  ghost function OrderOf(ids: set<TransferId>): seq<TransferId>
    decreases |ids|
  {
    if ids == {} then [] else
      var id :| id in ids;
      [id] + OrderOf(ids - {id})
  }

  lemma {:induction false} OrderOfValid(ids: set<TransferId>)
    ensures NoRepeat(OrderOf(ids)) && forall id :: id in ids <==> id in OrderOf(ids)
    decreases |ids|
  {
    if ids != {} {
      var id :| id in ids && OrderOf(ids) == [id] + OrderOf(ids - {id});
      OrderOfValid(ids - {id});
    }
  }

  /** `a` and `b` come first. */
  ghost function OrderFrom(ids: set<TransferId>, a: TransferId, b: TransferId): seq<TransferId> {
    if a in ids && b in ids && a != b then [a, b] + OrderOf(ids - {a, b}) else OrderOf(ids)
  }

  lemma OrderFromValid(ids: set<TransferId>, a: TransferId, b: TransferId)
    ensures NoRepeat(OrderFrom(ids, a, b)) && forall id :: id in ids <==> id in OrderFrom(ids, a, b)
  {
    OrderOfValid(ids);
    OrderOfValid(ids - {a, b});
    if a in ids && b in ids && a != b {
      var rest := OrderOf(ids - {a, b});
      assert a !in rest && b !in rest;
      assert forall id :: id in ids <==> id == a || id == b || id in rest;
    }
  }

  /** A token for the interim account of `t` arrives with the call. */
  predicate Gift(e: Env, k: nat, t: Transfer)
    requires t.kind.DoubleStep?
  {
    e.answers(k).giftTo == t.kind.interim && e.answers(k).gift > 0
  }

  /** The listing starts with `t` and `u`; their continuations come to nothing and all other calls are lost.  If
      `both`, `u` is continued as well, and otherwise its requests are lost too. */
  ghost function Script(k: nat, t: Transfer, u: Transfer, both: bool): Env
    requires t.kind.DoubleStep? && u.kind.DoubleStep?
  {
    var silence := Answer(0, t.fee, Lost(SysTransient, false), t.kind.interim, 0, None);
    Env((j: nat) => if j == k then Answer(0, t.fee, Served, t.kind.interim, 1, None)
                    else if both && j == k + 4 then Answer(0, u.fee, Served, u.kind.interim, 1, None)
                    else silence,
        ids => OrderFrom(ids, IdOf(t), IdOf(u)))
  }

  lemma ScriptValid(k: nat, t: Transfer, u: Transfer, both: bool)
    requires t.kind.DoubleStep? && u.kind.DoubleStep?
    ensures ValidOrder(Script(k, t, u, both))
    ensures ServedThenLost(Script(k, t, u, both), k, t) && Gift(Script(k, t, u, both), k, t)
    ensures both ==> ServedThenLost(Script(k, t, u, both), k + 4, u) && Gift(Script(k, t, u, both), k + 4, u)
    ensures SilentFrom(Script(k, t, u, both), if both then k + 5 else k + 1)
  {
    forall ids ensures NoRepeat(Script(k, t, u, both).order(ids))
                       && forall id :: id in ids <==> id in Script(k, t, u, both).order(ids)
    {
      OrderFromValid(ids, IdOf(t), IdOf(u));
    }
  }

  lemma ScriptLists(w: World, t: Transfer, u: Transfer, both: bool)
    requires Keyed(w.recovery) && t in w.recovery.Values && u in w.recovery.Values && t != u
    requires t.kind.DoubleStep? && u.kind.DoubleStep?
    ensures var items := TakeAll(Script(w.calls, t, u, both), w); |items| >= 2 && items[0] == t && items[1] == u
  {
    DifferentIds(w.recovery, t, u);
    var keys := OrderFrom(w.recovery.Keys, IdOf(t), IdOf(u));
    var i :| i in w.recovery && w.recovery[i] == t;
    var j :| j in w.recovery && w.recovery[j] == u;
    assert keys == [i] + ([j] + OrderOf(w.recovery.Keys - {i, j}));
    assert keys[1..] == [j] + OrderOf(w.recovery.Keys - {i, j});
    assert Listing(w.recovery, keys) == [t] + Listing(w.recovery, keys[1..]);
    assert Listing(w.recovery, keys[1..]) == [u] + Listing(w.recovery, keys[1..][1..]);
  }

  /** What `u` goes on as when it meets the continuation of `t`. */
  function Rival(u: Transfer, c: nat, both: bool): Transfer {
    if both then ContinuedAt(u, c) else u
  }

  /** Two transfers that may clash are both continued, or one is and the other stays, under one identifier. */
  predicate Clash(w: World, t: Transfer, u: Transfer, both: bool) {
    && t.kind.DoubleStep? && u.kind.DoubleStep?
    && IdOf(ContinuedAt(t, w.clock)) == IdOf(Rival(u, w.clock, both))
    && (IsFirstStep(t) || !CanDeduplicate(w, t))
    && (if both then !CanDeduplicate(w, t) && !CanDeduplicate(w, u) else CanDeduplicate(w, u))
  }

  lemma FirstRound(e: Env, w: World, t: Transfer, fee: nat, live: set<Transfer>)
    requires Safe(w, fee, live) && t in live && t.kind.DoubleStep? && (IsFirstStep(t) || !CanDeduplicate(w, t))
    requires ServedThenLost(e, w.calls, t) && Gift(e, w.calls, t)
    ensures var (w', r) := RecoverTx(e, w, t); GoesOn(w, t, w', r)
  {
    assert Good(w, fee, t);
    if CanDeduplicate(w, t) {
      ListedExecutable(w, fee, live, t);
      RecentGoesOn(e, w, t);
    } else {
      OldGoesOn(e, w, t);
    }
  }

  lemma SecondRound(e: Env, w: World, t: Transfer, u: Transfer, w1: World, fee: nat, live: set<Transfer>, both: bool)
    requires Safe(w, fee, live) && u in live && Clash(w, t, u, both) && e == Script(w.calls, t, u, both)
    requires Quiet(w, w1, 4)
    ensures var (w', r) := RecoverTx(e, w1, u);
            && Quiet(w1, w', if both then 4 else 3) && w'.recovery == Push(w1.recovery, Rival(u, w.clock, both))
            && SilentFrom(e, w'.calls)
  {
    assert Good(w, fee, u);
    ScriptValid(w.calls, t, u, both);
    if both {
      OldGoesOn(e, w1, u);
    } else {
      LostRecovery(e, w1, u, N_RETRIES);
    }
  }

  /** Under the script, both rounds happen as planned and the loop is undisturbed. */
  lemma ScriptRuns(w: World, t: Transfer, u: Transfer, fee: nat, both: bool)
    requires Inv(w, fee) && t in OwnListed(w, w.recovery) && u in OwnListed(w, w.recovery) && t != u
    requires Clash(w, t, u, both)
    ensures var e, w0 := Script(w.calls, t, u, both), w.(recovery := map[]);
            var items := TakeAll(e, w);
            && |items| >= 2 && items[0] == t && items[1] == u && UndisturbedItems(e, w0, items)
            && var (w1, r) := RecoverTx(e, w0, t);
               && GoesOn(w0, t, w1, r)
               && RecoverTx(e, w1, u).0.recovery == Push(w1.recovery, Rival(u, w.clock, both))
  {
    var e, w0 := Script(w.calls, t, u, both), w.(recovery := map[]);
    var live := OwnListed(w, w.recovery);
    MoveOn(w, w0, fee, live);
    ScriptValid(w.calls, t, u, both);
    ScriptLists(w, t, u, both);
    var items := TakeAll(e, w);
    FirstRound(e, w0, t, fee, live);
    var w1 := RecoverTx(e, w0, t).0;
    SecondRound(e, w0, t, u, w1, fee, live, both);
    var w2 := RecoverTx(e, w1, u).0;
    SilentItems(e, w2, items[1..][1..]);
    assert items[1..][0] == u && UndisturbedItems(e, w1, items[1..]);
  }

  /** Everything on the final list was put back. */
  lemma {:induction false} FromLefts(list: RecoveryList, lefts: seq<Option<Transfer>>, s: Transfer)
    requires OnList(PushLefts(list, lefts), s)
    ensures OnList(list, s) || Some(s) in lefts
    decreases |lefts|
  {
    if Some(s) !in lefts {
      StaysIff(list, lefts, s);
    }
  }

  /** Then the first transfer is lost: it is reported recoverable, but nothing on the list continues it. */
  lemma ClashLoses(w: World, t: Transfer, u: Transfer, fee: nat, both: bool)
    requires Inv(w, fee) && t in OwnListed(w, w.recovery) && u in OwnListed(w, w.recovery) && t != u
    requires Clash(w, t, u, both)
    ensures var e := Script(w.calls, t, u, both);
            && ValidOrder(e) && UndisturbedItems(e, w.(recovery := map[]), TakeAll(e, w)) && !AllKept(e, w)
  {
    var e := Script(w.calls, t, u, both);
    ScriptValid(w.calls, t, u, both);
    ScriptRuns(w, t, u, fee, both);
    var lefts := RecoverAllRight(e, w, fee);
    FirstItems(e, w.(recovery := map[]), TakeAll(e, w), lefts);
    LiveMemos(w, fee, t, u);
    TwoLefts(e, w, t, u, lefts, both);
    assert Some(lefts[1].value) in lefts[1..];
    NotKept(e, w, t, fee, lefts);
  }

  lemma LiveMemos(w: World, fee: nat, t: Transfer, u: Transfer)
    requires Inv(w, fee) && t in OwnListed(w, w.recovery) && u in OwnListed(w, w.recovery) && t != u
    ensures t.memo != u.memo
  {
  }

  lemma NotKept(e: Env, w: World, t: Transfer, fee: nat, lefts: seq<Option<Transfer>>)
    requires Inv(w, fee) && t.token == w.config.principal
    requires var items, w0 := TakeAll(e, w), w.(recovery := map[]);
             && |items| > 0 && items[0] == t && NoRepeat(items) && (forall i :: i in items ==> i in w.recovery.Values)
             && |lefts| == |items| && Separate(w.config.principal, items, lefts, {})
             && (forall i :: 0 <= i < |items| ==> ItemRight(e, Trail(e, w0, items, i), items[i], lefts[i]))
             && var r := RecoverTx(e, w0, t).1; r.Err? && r.error.Recoverable? && !DroppedOld(e, w0, t)
    requires var list := RecoverAll(e, w).0.recovery;
             list == PushLefts(map[], lefts) && lefts[0].Some? && !OnList(list, lefts[0].value)
    ensures !AllKept(e, w)
  {
    var items, w0, list := TakeAll(e, w), w.(recovery := map[]), RecoverAll(e, w).0.recovery;
    LeftsContinue(e, w0, items, lefts);
    forall s | Continues(t, s) ensures !OnList(list, s) {
      Displaced(e, w, fee, t, items, lefts, s);
    }
    assert Trail(e, w0, items, 0) == w0;
    assert !ItemKept(e, w0, t, list);
    assert items[0] == t;
  }

  lemma FirstItems(e: Env, w: World, items: seq<Transfer>, lefts: seq<Option<Transfer>>)
    requires |lefts| == |items| >= 2
    requires forall i :: 0 <= i < |items| ==> ItemRight(e, Trail(e, w, items, i), items[i], lefts[i])
    ensures ItemRight(e, w, items[0], lefts[0]) && ItemRight(e, RecoverItem(e, w, items[0]).0, items[1], lefts[1])
  {
    assert ItemRight(e, Trail(e, w, items, 0), items[0], lefts[0]);
    assert ItemRight(e, Trail(e, w, items, 1), items[1], lefts[1]);
    assert Trail(e, w, items, 1) == Trail(e, RecoverItem(e, w, items[0]).0, items[1..], 0);
  }

  lemma {:induction false} TrailPrincipal(e: Env, w: World, items: seq<Transfer>, i: nat)
    requires i <= |items|
    ensures Trail(e, w, items, i).config.principal == w.config.principal
    decreases i
  {
    if i > 0 {
      RecoverTxBudget(e, w, items[0]);
      TrailPrincipal(e, RecoverItem(e, w, items[0]).0, items[1..], i - 1);
    }
  }

  lemma LeftsContinue(e: Env, w: World, items: seq<Transfer>, lefts: seq<Option<Transfer>>)
    requires |lefts| == |items|
    requires forall i :: 0 <= i < |items| ==> ItemRight(e, Trail(e, w, items, i), items[i], lefts[i])
    ensures forall i :: 0 <= i < |items| ==> LeftContinues(w.config.principal, items[i], lefts[i])
  {
    forall i | 0 <= i < |items| ensures LeftContinues(w.config.principal, items[i], lefts[i]) {
      TrailPrincipal(e, w, items, i);
      assert ItemRight(e, Trail(e, w, items, i), items[i], lefts[i]);
    }
  }

  /** If what the first item left is displaced, nothing on the list continues the first item. */
  lemma Displaced(e: Env, w: World, fee: nat, t: Transfer, items: seq<Transfer>, lefts: seq<Option<Transfer>>,
                  s: Transfer)
    requires Inv(w, fee) && |items| > 0 && |lefts| == |items| && NoRepeat(items) && items[0] == t
    requires t.token == w.config.principal && (forall i :: i in items ==> i in w.recovery.Values)
    requires Separate(w.config.principal, items, lefts, {})
    requires forall j :: 0 <= j < |items| ==> LeftContinues(w.config.principal, items[j], lefts[j])
    requires lefts[0].Some? && !OnList(PushLefts(map[], lefts), lefts[0].value) && Continues(t, s)
    ensures !OnList(PushLefts(map[], lefts), s)
  {
    if OnList(PushLefts(map[], lefts), s) {
      FromLefts(map[], lefts, s);
      var j :| 0 <= j < |lefts| && lefts[j] == Some(s);
      assert LeftContinues(w.config.principal, items[j], lefts[j]);
      OtherMemo(e, w, fee, t, items, lefts, j);
    }
  }

  ghost predicate LeftContinues(principal: Principal, t: Transfer, left: Option<Transfer>) {
    left.Some? && t.token == principal ==> Continues(t, left.value)
  }

  lemma TwoLefts(e: Env, w: World, t: Transfer, u: Transfer, lefts: seq<Option<Transfer>>, both: bool)
    requires t.token == w.config.principal && u.token == w.config.principal && Clash(w, t, u, both)
    requires e == Script(w.calls, t, u, both) && |lefts| >= 2 && Different(lefts)
    requires var w0 := w.(recovery := map[]);
             var (w1, r) := RecoverTx(e, w0, t);
             && GoesOn(w0, t, w1, r) && ItemRight(e, w0, t, lefts[0]) && ItemRight(e, w1, u, lefts[1])
             && RecoverTx(e, w1, u).0.recovery == Push(w1.recovery, Rival(u, w.clock, both))
             && t.memo != u.memo
    ensures lefts[0] == Some(ContinuedAt(t, w.clock)) && lefts[1] == Some(Rival(u, w.clock, both))
  {
    var a, b := ContinuedAt(t, w.clock), Rival(u, w.clock, both);
    PutBackUnique(map[], lefts[0], Some(a));
    var list := Push(map[], a);
    if lefts[1].Some? {
      OnlyListed(a, lefts[1].value);
    }
    OnlyListed(a, b);
    PutBackUnique(list, lefts[1], Some(b));
  }

  lemma OnlyListed(a: Transfer, x: Transfer)
    requires x != a
    ensures !OnList(Push(map[], a), x)
  {
  }

  /** What another item left does not continue `t`. */
  lemma OtherMemo(e: Env, w: World, fee: nat, t: Transfer, items: seq<Transfer>, lefts: seq<Option<Transfer>>, j: nat)
    requires Inv(w, fee) && 0 < j < |items| && |lefts| == |items| && NoRepeat(items) && items[0] == t
    requires t.token == w.config.principal && (forall i :: i in items ==> i in w.recovery.Values)
    requires lefts[j].Some? && Separate(w.config.principal, items, lefts, {})
    requires items[j].token == w.config.principal ==> Continues(items[j], lefts[j].value)
    ensures !Continues(t, lefts[j].value)
  {
    var u := items[j];
    assert u in items && t in items && u != t;
    if u.token == w.config.principal {
      assert t in OwnListed(w, w.recovery) && u in OwnListed(w, w.recovery);
    }
  }

  // ---------------------------------------------------------------- the exact condition

  lemma LaterInv(w: World, d: nat, fee: nat)
    requires Inv(w, fee)
    ensures Inv(Later(w, d), fee)
  {
    MoveOn(w, Later(w, d), fee, OwnListed(w, w.recovery));
  }

  /** Whatever `recover_all` is called for, whenever, and however it is answered: nothing can be lost exactly if
      no two listed transfers may clash. */
  lemma LosesNothingIff(w: World, fee: nat)
    requires Inv(w, fee)
    ensures (forall e: Env, d: nat ::
               ValidOrder(e) && UndisturbedItems(e, Later(w, d).(recovery := map[]), TakeAll(e, Later(w, d))) ==>
               AllKept(e, Later(w, d)))
            <==> ClashFree(w)
  {
    if ClashFree(w) {
      forall e: Env, d: nat
        | ValidOrder(e) && UndisturbedItems(e, Later(w, d).(recovery := map[]), TakeAll(e, Later(w, d)))
        ensures AllKept(e, Later(w, d))
      {
        LaterInv(w, d, fee);
        StaysClashFree(w, d, fee);
        var lefts := RecoverAllLosesNothing(e, Later(w, d), fee);
      }
    } else {
      var t, u :| t in OwnListed(w, w.recovery) && u in OwnListed(w, w.recovery) && t != u && MayClash(w, t, u);
      ClashHappens(w, fee, t, u);
    }
  }

  lemma StaysClashFree(w: World, d: nat, fee: nat)
    requires Inv(w, fee) && ClashFree(w)
    ensures ClashFree(Later(w, d))
  {
    var w1 := Later(w, d);
    forall t, u | t in OwnListed(w1, w1.recovery) && u in OwnListed(w1, w1.recovery) && t != u
      ensures !MayClash(w1, t, u)
    {
      assert t in OwnListed(w, w.recovery) && u in OwnListed(w, w.recovery);
      assert Good(w, fee, u) && !MayClash(w, t, u);
    }
  }

  lemma ClashHappens(w: World, fee: nat, t: Transfer, u: Transfer)
    requires Inv(w, fee) && t in OwnListed(w, w.recovery) && u in OwnListed(w, w.recovery)
    requires t != u && MayClash(w, t, u)
    ensures exists e: Env, d: nat ::
              && ValidOrder(e) && UndisturbedItems(e, Later(w, d).(recovery := map[]), TakeAll(e, Later(w, d)))
              && !AllKept(e, Later(w, d))
  {
    assert Good(w, fee, t) && Good(w, fee, u);
    var both := NextKey(t) == NextKey(u);
    var d := if both then DEDUP_PERIOD else 0;
    var w1 := Later(w, d);
    LaterInv(w, d, fee);
    assert t in OwnListed(w1, w1.recovery) && u in OwnListed(w1, w1.recovery);
    ClashLoses(w1, t, u, fee, both);
  }
}
