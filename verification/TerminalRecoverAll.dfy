/** Recovery loses nothing: in every reachable world, what `recover_all` makes of each listed transfer,
    in terms of the ledger, the balances and the list. */
module TerminalRecoverAll {
  import opened Wrappers
  import opened PaymentErrors
  import opened Transfers
  import opened Ledgers
  import opened Terminal
  import opened TerminalBudget
  import opened TerminalOutcome
  import opened TerminalSolvency
  import opened TerminalRuns
  import opened TerminalRecovery

  // ---------------------------------------------------------------- one transfer

  /** An old first step: refunded only if it was not executed; if it was, carried on; if tokens of others
      hide that it was not, its second step is paid from those. */
  ghost predicate OldFirstRight(e: Env, w: World, t: Transfer, w': World, r: Outcome)
    requires IsFirstStep(t)
  {
    var w1, a := Asked(e, w, t), t.kind.interim;
    if Funds(w1.ledger, a) == 0 then Failed(w, t, w') && r == Err(PaymentFailed(Unknown))
    else if RequestOf(w.me, t) in w.ledger.blocks then
      ThreeWays(w, t, w', r) && (r.Ok? || r.error.Recoverable?)
    else Slack(w1.ledger, a) > 0 && ThreeWays(w1, StepAt(t, w1.clock), w', r)
  }

  /** An old second step: completed only if it was executed, and otherwise renewed; if tokens of others
      hide that it was, the renewal is paid from those. */
  ghost predicate OldSecondRight(e: Env, w: World, t: Transfer, w': World, r: Outcome)
    requires IsSecondStep(t)
  {
    var w1, a := Asked(e, w, t), t.kind.interim;
    var executed := RequestOf(w.me, t) in w.ledger.blocks;
    if Funds(w1.ledger, a) == 0 then executed && w' == w1 && r == Ok(UNKNOWN_TX_ID)
    else (executed ==> Slack(w1.ledger, a) > 0) && ThreeWays(w1, t.(createdAt := w1.clock), w', r)
  }

  /** A day less five minutes, in nanoseconds. */
  const RECENT: nat := (24 * 60 * 60 - 5 * 60) * 1_000_000_000

  /** A recent transfer, single step or not, is sent again and ends in one of the three ways. */
  ghost predicate RecoveredRight(e: Env, w: World, t: Transfer, w': World, r: Outcome) {
    if w.clock < t.createdAt + RECENT then
      && |w.log| < |w'.log| && w.log <= w'.log && Asks(w'.log[|w.log|].call, t)
      && ThreeWays(w, t, w', r)
    else if DroppedOld(e, w, t) then Dropped(e, w, t, w', r)
    else if IsFirstStep(t) then OldFirstRight(e, w, t, w', r)
    else OldSecondRight(e, w, t, w', r)
  }

  lemma RecoverTxRight(e: Env, w: World, t: Transfer, fee: nat, live: set<Transfer>)
    requires Safe(w, fee, live) && t in live && Undisturbed(w, RecoverTx(e, w, t).0)
    ensures var (w', r) := RecoverTx(e, w, t); RecoveredRight(e, w, t, w', r)
  {
    LiveReady(w, fee, live, t);
    if CanDeduplicate(w, t) {
      RecoveryBudget(e, w, t, N_RETRIES);
      RecoveryOutcome(e, w, t, N_RETRIES);
      StartsAsking(e, w, t, N_RETRIES);
    } else if !DroppedOld(e, w, t) {
      if IsFirstStep(t) {
        OldFirstIsRight(e, w, t, fee, live);
      } else {
        OldSecondIsRight(e, w, t, fee, live);
      }
    }
  }

  lemma OldFirstIsRight(e: Env, w: World, t: Transfer, fee: nat, live: set<Transfer>)
    requires Safe(w, fee, live) && t in live && IsFirstStep(t) && Undisturbed(w, RecoverTx(e, w, t).0)
    requires !CanDeduplicate(w, t) && !DroppedOld(e, w, t)
    ensures var (w', r) := RecoverTx(e, w, t); OldFirstRight(e, w, t, w', r)
  {
    var w1 := Asked(e, w, t);
    var (w', r) := RecoverTx(e, w, t);
    AskedSafe(e, w, fee, live, t);
    LiveReady(w, fee, live, t);
    LiveReady(w1, fee, live, t);
    assert InterimSafe(w1, t);
    if Funds(w1.ledger, t.kind.interim) > 0 {
      assert (w', r) == Complete(e, w1, t, UNKNOWN_TX_ID, N_RETRIES);
      CompleteBudget(e, w1, t, UNKNOWN_TX_ID, N_RETRIES);
      SteadySplits(w, w1, w');
      if RequestOf(w.me, t) in w.ledger.blocks {
        SecondLeg(e, w1, t, N_RETRIES);
        AfterCall(w, t, w1, w', r);
      } else {
        NextOutcome(e, w1, t, fee, live);
      }
    }
  }

  lemma OldSecondIsRight(e: Env, w: World, t: Transfer, fee: nat, live: set<Transfer>)
    requires Safe(w, fee, live) && t in live && IsSecondStep(t) && Undisturbed(w, RecoverTx(e, w, t).0)
    requires !CanDeduplicate(w, t) && !DroppedOld(e, w, t)
    ensures var (w', r) := RecoverTx(e, w, t); OldSecondRight(e, w, t, w', r)
  {
    var w1 := Asked(e, w, t);
    AskedSafe(e, w, fee, live, t);
    LiveReady(w, fee, live, t);
    assert Good(w1, fee, t) && InterimSafe(w1, t);
    OldSecondStepOutcome(e, w, t);
  }

  // ---------------------------------------------------------------- the list afterwards

  function PushLefts(list: RecoveryList, lefts: seq<Option<Transfer>>): RecoveryList
    decreases |lefts|
  {
    if lefts == [] then list
    else PushLefts(match lefts[0] case None => list case Some(s) => Push(list, s), lefts[1..])
  }

  /** A listed transfer is displaced exactly by a later one with its id. */
  lemma {:induction false} StaysIff(list: RecoveryList, lefts: seq<Option<Transfer>>, s: Transfer)
    requires Some(s) !in lefts
    ensures OnList(PushLefts(list, lefts), s) <==>
            OnList(list, s) && forall u :: Some(u) in lefts ==> IdOf(u) != IdOf(s)
    decreases |lefts|
  {
    if lefts != [] {
      var list1 := match lefts[0] case None => list case Some(u) => Push(list, u);
      assert lefts == [lefts[0]] + lefts[1..];
      StaysIff(list1, lefts[1..], s);
      assert OnList(list1, s) <==> OnList(list, s) && (lefts[0].Some? ==> IdOf(lefts[0].value) != IdOf(s));
    }
  }

  /** What is put back is on the final list exactly if no later one has its id. */
  lemma {:induction false} PutBackIff(list: RecoveryList, lefts: seq<Option<Transfer>>, i: nat)
    requires i < |lefts| && lefts[i].Some? && lefts[i] !in lefts[i + 1..]
    ensures OnList(PushLefts(list, lefts), lefts[i].value) <==>
            forall u :: Some(u) in lefts[i + 1..] ==> IdOf(u) != IdOf(lefts[i].value)
    decreases |lefts|
  {
    var list1 := match lefts[0] case None => list case Some(s) => Push(list, s);
    if i > 0 {
      assert lefts[1..][i..] == lefts[i + 1..];
      PutBackIff(list1, lefts[1..], i - 1);
    } else {
      StaysIff(list1, lefts[1..], lefts[0].value);
    }
  }

  // ---------------------------------------------------------------- recover_all, from any world

  /** The world in which item `i` is handled. */
  function Trail(e: Env, w: World, items: seq<Transfer>, i: nat): World
    requires i <= |items|
    decreases i
  {
    if i == 0 then w else Trail(e, RecoverItem(e, w, items[0]).0, items[1..], i - 1)
  }

  /** How one listed transfer is accounted for; a foreign one goes back unchanged. */
  ghost predicate ItemAccounted(e: Env, w: World, t: Transfer, rest: Rest) {
    if t.token != w.config.principal then rest == Rest(Some(t), [])
    else
      var (w', r) := RecoverTx(e, w, t);
      if DroppedOld(e, w, t) then rest == NOTHING && Dropped(e, w, t, w', r)
      else if FoundEmpty(e, w, t) then rest == NOTHING && DecidedEmpty(e, w, t, w', r)
      else Accounted(e, w, t, w', r, rest)
  }

  /** The list after the whole loop: in each round re-priced, if a `BadFee` reply changed the configuration,
      with everything that had been put back before, and then what the round left. */
  function FinalList(e: Env, me: Principal, list: RecoveryList, rests: seq<Rest>): RecoveryList
    decreases |rests|
  {
    if rests == [] then list else FinalList(e, me, AfterAttempt(e, me, list, rests[0]), rests[1..])
  }

  lemma {:induction false} ItemsAccounted(e: Env, w: World, items: seq<Transfer>) returns (rests: seq<Rest>)
    ensures |rests| == |items| && RecoverItems(e, w, items).0.recovery == FinalList(e, w.me, w.recovery, rests)
    ensures forall i :: 0 <= i < |items| ==> ItemAccounted(e, Trail(e, w, items, i), items[i], rests[i])
    ensures SteadyItems(e, w, items) ==> forall rest :: rest in rests ==> rest.configs == []
    decreases |items|
  {
    if items == [] {
      return [];
    }
    var t, others := items[0], items[1..];
    var w1 := RecoverItem(e, w, t).0;
    var rest := Rest(Some(t), []);
    if t.token == w.config.principal {
      rest := RecoverTxAccounted(e, w, t);
      RecoverTxBudget(e, w, t);
    }
    assert w1.me == w.me && w1.recovery == AfterAttempt(e, w.me, w.recovery, rest);
    var tail := ItemsAccounted(e, w1, others);
    rests := [rest] + tail;
    assert rests[1..] == tail;
    forall i | 0 <= i < |items| ensures ItemAccounted(e, Trail(e, w, items, i), items[i], rests[i]) {
      if i > 0 {
        assert Trail(e, w, items, i) == Trail(e, w1, others, i - 1);
        assert ItemAccounted(e, Trail(e, w1, others, i - 1), others[i - 1], tail[i - 1]);
      }
    }
  }

  ghost predicate SteadyItems(e: Env, w: World, items: seq<Transfer>)
    decreases |items|
  {
    items != [] ==>
      && Steady(w, RecoverItem(e, w, items[0]).0)
      && SteadyItems(e, RecoverItem(e, w, items[0]).0, items[1..])
  }

  function Lefts(rests: seq<Rest>): (lefts: seq<Option<Transfer>>)
    ensures |lefts| == |rests| && forall i :: 0 <= i < |rests| ==> lefts[i] == rests[i].left
  {
    if rests == [] then [] else [rests[0].left] + Lefts(rests[1..])
  }

  /** Without re-pricing the final list is what was put back. */
  lemma {:induction false} FinalListSteady(e: Env, me: Principal, list: RecoveryList, rests: seq<Rest>)
    requires forall rest :: rest in rests ==> rest.configs == []
    ensures FinalList(e, me, list, rests) == PushLefts(list, Lefts(rests))
    decreases |rests|
  {
    if rests != [] {
      assert rests[0] in rests && Lefts(rests)[1..] == Lefts(rests[1..]);
      FinalListSteady(e, me, AfterAttempt(e, me, list, rests[0]), rests[1..]);
    }
  }

  /** `recover_all` from any world and for every reply sequence: each listed transfer is handled once and
      accounted for, and the final list is made of what was put back, re-priced with every later change of
      the configuration. */
  lemma RecoverAllAccounted(e: Env, w: World) returns (rests: seq<Rest>)
    requires ValidOrder(e) && Keyed(w.recovery)
    ensures var w0, items := w.(recovery := map[]), TakeAll(e, w);
            && NoRepeat(items) && (forall t :: t in items <==> t in w.recovery.Values)
            && |rests| == |items| && RecoverAll(e, w).0.recovery == FinalList(e, w.me, map[], rests)
            && (forall i :: 0 <= i < |items| ==> ItemAccounted(e, Trail(e, w0, items, i), items[i], rests[i]))
            && (SteadyItems(e, w0, items) ==> RecoverAll(e, w).0.recovery == PushLefts(map[], Lefts(rests)))
  {
    TakesAll(e, w);
    var w0, items := w.(recovery := map[]), TakeAll(e, w);
    rests := ItemsAccounted(e, w0, items);
    if SteadyItems(e, w0, items) {
      FinalListSteady(e, w.me, map[], rests);
    }
  }

  // ---------------------------------------------------------------- recover_all, in every reachable world

  /** The item is recovered rightly, or goes back unchanged if it is foreign; `left` is what is put back, a
      continuation of it whenever the outcome is recoverable and no old-transfer exit was taken. */
  ghost predicate ItemRight(e: Env, w: World, t: Transfer, left: Option<Transfer>) {
    var (w', r) := RecoverItem(e, w, t);
    && Leaves(w, t, w', left)
    && if t.token != w.config.principal then r.None? && left == Some(t) && w' == w.(recovery := Push(w.recovery, t))
       else
         && r.Some? && RecoveredRight(e, w, t, w', r.value) && Renewal(e, w, t, left, w'.clock)
         && (left.Some? ==> Continues(t, left.value))
         && (r.value.Err? && r.value.error.Recoverable? && !DroppedOld(e, w, t) ==> left.Some?)
  }

  /** What is put back for different items is different. */
  ghost predicate Different(lefts: seq<Option<Transfer>>) {
    forall i, j :: 0 <= i < j < |lefts| && lefts[i].Some? ==> lefts[i] != lefts[j]
  }

  /** What was put back for own transfers is own and not among `kept`; foreign ones are unchanged. */
  ghost predicate Separate(principal: Principal, items: seq<Transfer>, lefts: seq<Option<Transfer>>,
                           kept: set<Transfer>)
    requires |lefts| == |items|
  {
    forall i :: 0 <= i < |items| && lefts[i].Some? ==>
      if items[i].token == principal then lefts[i].value.token == principal && lefts[i].value !in kept
      else lefts[i].value == items[i]
  }

  predicate OldAt(t: Transfer, c: nat) {
    c >= t.createdAt + (DEDUP_PERIOD - TX_WINDOW)
  }

  /** What is put back is the transfer itself, or was created no earlier than `since`, and later if time passes
      with every call. */
  ghost predicate Stamp(e: Env, since: nat, t: Transfer, s: Transfer) {
    s != t ==>
      && since <= s.createdAt && (Ticking(e) ==> since < s.createdAt)
      && (|| (IsFirstStep(t) && s == StepAt(t, s.createdAt))
          || (IsSecondStep(t) && OldAt(t, s.createdAt) && s == t.(createdAt := s.createdAt)))
  }

  ghost predicate Stamped(e: Env, since: nat, principal: Principal, items: seq<Transfer>, lefts: seq<Option<Transfer>>)
    requires |lefts| == |items|
  {
    && (forall i :: 0 <= i < |items| && lefts[i].Some? && items[i].token == principal ==>
          Stamp(e, since, items[i], lefts[i].value))
    && (Ticking(e) ==>
          forall i, j :: 0 <= i < j < |items| && BothNew(principal, items, lefts, i, j) ==>
            lefts[i].value.createdAt < lefts[j].value.createdAt)
  }

  predicate BothNew(principal: Principal, items: seq<Transfer>, lefts: seq<Option<Transfer>>, i: nat, j: nat)
    requires |lefts| == |items| && i < |items| && j < |items|
  {
    NewLeft(principal, items[i], lefts[i]) && NewLeft(principal, items[j], lefts[j])
  }

  predicate NewLeft(principal: Principal, t: Transfer, left: Option<Transfer>) {
    left.Some? && t.token == principal && left.value != t
  }

  lemma {:induction false} ItemsRight(e: Env, w: World, items: seq<Transfer>, fee: nat, kept: set<Transfer>)
    returns (lefts: seq<Option<Transfer>>)
    requires UndisturbedItems(e, w, items) && NoRepeat(items) && InLoop(w, items, fee, kept)
    ensures |lefts| == |items| && Different(lefts) && Separate(w.config.principal, items, lefts, kept)
    ensures Stamped(e, w.clock, w.config.principal, items, lefts)
    ensures RecoverItems(e, w, items).0.recovery == PushLefts(w.recovery, lefts)
    ensures forall i :: 0 <= i < |items| ==> ItemRight(e, Trail(e, w, items, i), items[i], lefts[i])
    decreases |items|
  {
    if items == [] {
      return [];
    }
    var t, rest := items[0], items[1..];
    var w1 := RecoverItem(e, w, t).0;
    assert NoRepeat(rest) && t !in rest && items == [t] + rest;
    var kept1, left := ItemSafe(e, w, t, rest, fee, kept);
    ItemIsRight(e, w, t, rest, fee, kept, left);
    var tail := ItemsRight(e, w1, rest, fee, kept1);
    lefts := [left] + tail;
    assert lefts[1..] == tail;
    OwnLeft(w1, rest, fee, kept1, left, w.config.principal, kept, t);
    AddLeft(w.config.principal, t, rest, left, tail, kept, kept1);
    AddStamp(e, w.clock, w1.clock, w.config.principal, t, rest, left, tail);
    AddRight(e, w, items, left, tail);
  }

  lemma AddRight(e: Env, w: World, items: seq<Transfer>, left: Option<Transfer>, tail: seq<Option<Transfer>>)
    requires items != [] && |tail| == |items| - 1 && ItemRight(e, w, items[0], left)
    requires var w1 := RecoverItem(e, w, items[0]).0;
             forall i :: 0 <= i < |tail| ==> ItemRight(e, Trail(e, w1, items[1..], i), items[1..][i], tail[i])
    ensures forall i :: 0 <= i < |items| ==> ItemRight(e, Trail(e, w, items, i), items[i], ([left] + tail)[i])
  {
    var w1 := RecoverItem(e, w, items[0]).0;
    forall i | 0 <= i < |items| ensures ItemRight(e, Trail(e, w, items, i), items[i], ([left] + tail)[i]) {
      if i > 0 {
        LaterRight(e, w, items, left, tail, i);
      }
    }
  }

  lemma LaterRight(e: Env, w: World, items: seq<Transfer>, left: Option<Transfer>, tail: seq<Option<Transfer>>, i: nat)
    requires 0 < i < |items| && |tail| == |items| - 1
    requires ItemRight(e, Trail(e, RecoverItem(e, w, items[0]).0, items[1..], i - 1), items[1..][i - 1], tail[i - 1])
    ensures ItemRight(e, Trail(e, w, items, i), items[i], ([left] + tail)[i])
  {
    assert items[1..][i - 1] == items[i] && ([left] + tail)[i] == tail[i - 1];
  }

  /** What the books take out of the attempt is what the accounts say is left. */
  lemma LeftAgrees(e: Env, w: World, t: Transfer, rest: seq<Transfer>, fee: nat, kept: set<Transfer>,
                   left: Option<Transfer>, x: Rest)
    requires InLoop(w, [t] + rest, fee, kept) && t.token == w.config.principal && t !in rest
    requires x.configs == [] && RecoverTx(e, w, t).0.recovery == AfterAttempt(e, w.me, w.recovery, x)
    requires x.left.Some? ==> Continues(t, x.left.value)
    requires Leaves(w, t, RecoverTx(e, w, t).0, left) && kept !! Optional(left)
    requires left.Some? ==> left.value.token == w.config.principal
    ensures left == x.left
  {
    if left.Some? {
      NewUnlisted(w, [t] + rest, fee, kept, left.value);
    }
    if x.left.Some? && OnList(w.recovery, x.left.value) {
      ListedOthers(w, t, rest, fee, kept, x.left.value);
    }
    PutBackUnique(w.recovery, left, x.left);
  }

  lemma NewUnlisted(w: World, items: seq<Transfer>, fee: nat, kept: set<Transfer>, s: Transfer)
    requires InLoop(w, items, fee, kept) && s !in kept && s.token == w.config.principal
    ensures !OnList(w.recovery, s)
  {
    assert OnList(w.recovery, s) ==> s in OwnListed(w, w.recovery);
  }

  /** What is on the list does not belong to a transfer that is still to be handled. */
  lemma ListedOthers(w: World, t: Transfer, rest: seq<Transfer>, fee: nat, kept: set<Transfer>, s: Transfer)
    requires InLoop(w, [t] + rest, fee, kept) && t.token == w.config.principal
    requires OnList(w.recovery, s) && s.token == w.config.principal
    ensures s.memo != t.memo
  {
    assert s in OwnListed(w, w.recovery) && s in kept;
    assert t in [t] + rest && t in OwnItems(w, [t] + rest);
  }

  lemma PutBackUnique(list: RecoveryList, a: Option<Transfer>, b: Option<Transfer>)
    requires PutBack(list, a) == PutBack(list, b)
    requires (a.Some? ==> !OnList(list, a.value)) && (b.Some? ==> !OnList(list, b.value))
    ensures a == b
  {
    if a.Some? {
      assert OnList(PutBack(list, a), a.value);
    }
    if b.Some? {
      assert OnList(PutBack(list, b), b.value);
    }
  }

  lemma ItemIsRight(e: Env, w: World, t: Transfer, rest: seq<Transfer>, fee: nat, kept: set<Transfer>,
                    left: Option<Transfer>)
    requires InLoop(w, [t] + rest, fee, kept) && t !in rest && Undisturbed(w, RecoverItem(e, w, t).0)
    requires Leaves(w, t, RecoverItem(e, w, t).0, left) && (t.token != w.config.principal ==> left == Some(t))
    requires t.token == w.config.principal ==> kept !! Optional(left) && (left.Some? ==> left.value.token == t.token)
    ensures ItemRight(e, w, t, left)
    ensures w.clock <= RecoverItem(e, w, t).0.clock
  {
    if t.token == w.config.principal {
      assert t in [t] + rest;
      RecoverTxRight(e, w, t, fee, kept + OwnItems(w, [t] + rest));
      RecoverTxBudget(e, w, t);
      var x := RecoverTxAccounted(e, w, t);
      LeftAgrees(e, w, t, rest, fee, kept, left, x);
    }
  }

  lemma OwnLeft(w1: World, rest: seq<Transfer>, fee: nat, kept1: set<Transfer>, left: Option<Transfer>,
                principal: Principal, kept: set<Transfer>, t: Transfer)
    requires InLoop(w1, rest, fee, kept1) && w1.config.principal == principal
    requires t.token == principal ==> kept1 == kept + Optional(left)
    ensures t.token == principal && left.Some? ==> left.value.token == principal
  {
    if t.token == principal && left.Some? {
      assert left.value in kept1 + OwnItems(w1, rest);
      assert Good(w1, fee, left.value);
    }
  }

  lemma AddLeft(principal: Principal, t: Transfer, rest: seq<Transfer>, left: Option<Transfer>,
                tail: seq<Option<Transfer>>, kept: set<Transfer>, kept1: set<Transfer>)
    requires |tail| == |rest| && Different(tail) && Separate(principal, rest, tail, kept1) && t !in rest
    requires t.token == principal ==> kept1 == kept + Optional(left) && kept !! Optional(left)
    requires t.token == principal && left.Some? ==> left.value.token == principal
    requires t.token != principal ==> kept1 == kept && left == Some(t)
    ensures Different([left] + tail) && Separate(principal, [t] + rest, [left] + tail, kept)
  {
    var lefts, items := [left] + tail, [t] + rest;
    forall j | 0 <= j < |tail| && left.Some? ensures left != tail[j] {
      assert rest[j] in rest;
    }
    forall i | 0 <= i < |items| && lefts[i].Some?
      ensures if items[i].token == principal then lefts[i].value.token == principal && lefts[i].value !in kept
              else lefts[i].value == items[i]
    {
      if i > 0 {
        assert lefts[i] == tail[i - 1] && items[i] == rest[i - 1];
      }
    }
  }

  lemma AddStamp(e: Env, c: nat, c1: nat, principal: Principal, t: Transfer, rest: seq<Transfer>,
                 left: Option<Transfer>, tail: seq<Option<Transfer>>)
    requires |tail| == |rest| && c <= c1 && Stamped(e, c1, principal, rest, tail)
    requires left.Some? && t.token == principal ==>
               Stamp(e, c, t, left.value) && (left.value != t ==> left.value.createdAt <= c1)
    ensures Stamped(e, c, principal, [t] + rest, [left] + tail)
  {
    var lefts, items := [left] + tail, [t] + rest;
    forall i | 0 <= i < |items| && lefts[i].Some? && items[i].token == principal
      ensures Stamp(e, c, items[i], lefts[i].value)
    {
      if i > 0 {
        assert lefts[i] == tail[i - 1] && items[i] == rest[i - 1];
        assert Stamp(e, c1, rest[i - 1], tail[i - 1].value);
      }
    }
    if Ticking(e) {
      forall i, j | 0 <= i < j < |items| && BothNew(principal, items, lefts, i, j)
        ensures lefts[i].value.createdAt < lefts[j].value.createdAt
      {
        assert lefts[j] == tail[j - 1] && items[j] == rest[j - 1];
        assert Stamp(e, c1, rest[j - 1], tail[j - 1].value);
        if i > 0 {
          assert lefts[i] == tail[i - 1] && items[i] == rest[i - 1];
          assert BothNew(principal, rest, tail, i - 1, j - 1);
        }
      }
    }
  }

  /** In every reachable world each listed transfer is handled exactly once and rightly; what is put back is
      different for different transfers, and it is on the list afterwards exactly if nothing with its id was
      put back later. */
  lemma RecoverAllRight(e: Env, w: World, fee: nat) returns (lefts: seq<Option<Transfer>>)
    requires Inv(w, fee) && ValidOrder(e)
    requires UndisturbedItems(e, w.(recovery := map[]), TakeAll(e, w))
    ensures var w0, items := w.(recovery := map[]), TakeAll(e, w);
            && NoRepeat(items) && (forall t :: t in items <==> t in w.recovery.Values)
            && |lefts| == |items| && Different(lefts)
            && Separate(w.config.principal, items, lefts, {}) && Stamped(e, w.clock, w.config.principal, items, lefts)
            && (forall i :: 0 <= i < |items| ==> ItemRight(e, Trail(e, w0, items, i), items[i], lefts[i]))
    ensures var list := RecoverAll(e, w).0.recovery;
            && list == PushLefts(map[], lefts)
            && forall i :: 0 <= i < |lefts| && lefts[i].Some? ==>
                 (OnList(list, lefts[i].value) <==>
                  forall u :: Some(u) in lefts[i + 1..] ==> IdOf(u) != IdOf(lefts[i].value))
  {
    TakesAll(e, w);
    LoopStarts(e, w, fee);
    var w0, items := w.(recovery := map[]), TakeAll(e, w);
    lefts := ItemsRight(e, w0, items, fee, {});
    forall i | 0 <= i < |lefts| && lefts[i].Some?
      ensures OnList(PushLefts(map[], lefts), lefts[i].value) <==>
              forall u :: Some(u) in lefts[i + 1..] ==> IdOf(u) != IdOf(lefts[i].value)
    {
      PutBackIff(map[], lefts, i);
    }
  }

  // ---------------------------------------------------------------- nothing is lost

  /** What the second step or a renewal of `t` hashes, apart from token and time. */
  function NextKey(t: Transfer): (Subaccount, Account, nat) {
    (t.from, t.to, if IsFirstStep(t) then AmountMinusFee(t) else t.amount)
  }

  /** Continuing `t` may produce an identifier that is also one of `u`: of its continuation, created at the same
      time, or of `u` itself, created just now. */
  predicate MayClash(w: World, t: Transfer, u: Transfer) {
    && t.kind.DoubleStep? && u.kind.DoubleStep?
    && (|| NextKey(t) == NextKey(u)
        || (&& IsFirstStep(u) && u.createdAt == w.clock && NextKey(t) == (u.from, u.to, u.amount)
            && (IsFirstStep(t) || !CanDeduplicate(w, t))))
  }

  /** No two listed transfers of this token may clash.  Readable off the recovery list and the clock. */
  ghost predicate ClashFree(w: World) {
    forall t, u :: t in OwnListed(w, w.recovery) && u in OwnListed(w, w.recovery) && t != u ==> !MayClash(w, t, u)
  }

  /** A transfer that is reported recoverable, and not by a failed balance query, is on the final list, itself or
      continued; so is every foreign one. */
  ghost predicate ItemKept(e: Env, w: World, t: Transfer, list: RecoveryList) {
    if t.token != w.config.principal then OnList(list, t)
    else
      var r := RecoverTx(e, w, t).1;
      r.Err? && r.error.Recoverable? && !DroppedOld(e, w, t) ==> exists s :: Continues(t, s) && OnList(list, s)
  }

  ghost predicate AllKept(e: Env, w: World) {
    var items := TakeAll(e, w);
    forall i :: 0 <= i < |items| ==>
      ItemKept(e, Trail(e, w.(recovery := map[]), items, i), items[i], RecoverAll(e, w).0.recovery)
  }

  /** Two own transfers that are put back get different identifiers. */
  lemma StampsApart(e: Env, w: World, fee: nat, t: Transfer, u: Transfer, s: Transfer, v: Transfer)
    requires Good(w, fee, t) && Good(w, fee, u) && IdOf(t) != IdOf(u)
    requires Stamp(e, w.clock, t, s) && Stamp(e, w.clock, u, v)
    requires (!MayClash(w, t, u) && !MayClash(w, u, t))
             || (Ticking(e) && (s != t && v != u ==> s.createdAt != v.createdAt))
    ensures IdOf(s) != IdOf(v)
  {
    AcceptedIffPayable(w.me, t);
    AcceptedIffPayable(w.me, u);
  }

  lemma LeftsApart(e: Env, w: World, fee: nat, items: seq<Transfer>, lefts: seq<Option<Transfer>>, i: nat, j: nat)
    requires Keyed(w.recovery) && NoRepeat(items) && (forall t :: t in items ==> t in w.recovery.Values)
    requires forall t :: t in OwnListed(w, w.recovery) ==> Good(w, fee, t)
    requires |lefts| == |items| && Separate(w.config.principal, items, lefts, {})
    requires Stamped(e, w.clock, w.config.principal, items, lefts)
    requires ClashFree(w) || Ticking(e)
    requires i < j < |items| && lefts[i].Some? && lefts[j].Some?
    ensures IdOf(lefts[i].value) != IdOf(lefts[j].value)
  {
    var t, u := items[i], items[j];
    assert t in items && u in items && t != u;
    DifferentIds(w.recovery, t, u);
    if t.token == w.config.principal && u.token == w.config.principal {
      assert t in OwnListed(w, w.recovery) && u in OwnListed(w, w.recovery);
      assert Stamp(e, w.clock, t, lefts[i].value) && Stamp(e, w.clock, u, lefts[j].value);
      StampsApart(e, w, fee, t, u, lefts[i].value, lefts[j].value);
    }
  }

  lemma DifferentIds(list: RecoveryList, t: Transfer, u: Transfer)
    requires Keyed(list) && t in list.Values && u in list.Values && t != u
    ensures IdOf(t) != IdOf(u)
  {
    var i :| i in list && list[i] == t;
    var j :| j in list && list[j] == u;
  }

  /** Recovery loses nothing: in every reachable world each listed transfer is handled rightly, and what is
      recoverable is on the list afterwards, if no two listed transfers may clash or if time passes with every
      call. */
  lemma RecoverAllLosesNothing(e: Env, w: World, fee: nat) returns (lefts: seq<Option<Transfer>>)
    requires Inv(w, fee) && ValidOrder(e) && (ClashFree(w) || Ticking(e))
    requires UndisturbedItems(e, w.(recovery := map[]), TakeAll(e, w))
    ensures var w0, items, list := w.(recovery := map[]), TakeAll(e, w), RecoverAll(e, w).0.recovery;
            && |lefts| == |items| && AllKept(e, w)
            && forall i :: 0 <= i < |items| ==>
                 && ItemRight(e, Trail(e, w0, items, i), items[i], lefts[i])
                 && (lefts[i].Some? ==> OnList(list, lefts[i].value))
  {
    lefts := RecoverAllRight(e, w, fee);
    var w0, items, list := w.(recovery := map[]), TakeAll(e, w), RecoverAll(e, w).0.recovery;
    forall i | 0 <= i < |items|
      ensures lefts[i].Some? ==> OnList(list, lefts[i].value)
      ensures ItemKept(e, Trail(e, w0, items, i), items[i], list)
    {
      assert ItemRight(e, Trail(e, w0, items, i), items[i], lefts[i]);
      if lefts[i].Some? {
        forall u | Some(u) in lefts[i + 1..] ensures IdOf(u) != IdOf(lefts[i].value) {
          var j :| i < j < |lefts| && lefts[j] == Some(u);
          LeftsApart(e, w, fee, items, lefts, i, j);
        }
      }
    }
  }
}
