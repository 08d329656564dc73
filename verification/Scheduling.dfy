/** The task scheduler as a state machine (ic-task-scheduler/src/scheduler.rs).

    A step is what runs without interruption between two await points: a call of the scheduler, the
    part of a spawned future before `execute(..).await`, the part after it, or a future that dies.
    Steps may come in any order with any clock readings.  `unstarted` and `running` are the live
    futures; `reports`, `starts` and `revived` are histories: the completion callbacks per task, the
    executions begun, and the tasks re-inserted by an execution that returned after its task had been
    removed. */
module Scheduling {
  import opened Wrappers
  import opened Retry

  datatype SchedulerError = TaskExecutionFailed | Unrecoverable

  datatype TaskStatus =
    | Waiting(ts: nat)
    | Scheduled(ts: nat)
    | Running(ts: nat)
    | Completed(ts: nat)
    | Failed(ts: nat, error: SchedulerError)
    | TimeoutOrPanic(ts: nat)

  datatype TaskOptions = TaskOptions(failures: nat, executeAfter: nat, policy: RetryPolicy, backoff: BackoffPolicy)

  datatype Task = Task(id: nat, payload: nat, options: TaskOptions, status: TaskStatus)

  /** A running execution: its own copy of the task and the time it started. */
  datatype Exec = Exec(task: Task, startedAt: nat)

  datatype State = State(
    pending: map<nat, Task>,
    issued: set<nat>,
    nextId: nat,
    timeout: nat,
    unstarted: multiset<nat>,
    running: map<nat, seq<Exec>>,
    reports: map<nat, seq<Task>>,
    starts: multiset<nat>,
    revived: multiset<nat>)

  datatype Step =
    | Append(payload: nat, options: TaskOptions, now: nat)
    | Reschedule(id: nat, options: TaskOptions)
    | SetTimeout(secs: nat)
    | RunAt(now: nat)
    | Start(id: nat, now: nat)
    | Return(id: nat, which: nat, result: Result<(), SchedulerError>, nowNanos: nat)
    | Die(id: nat, which: nat)
    | DropUnstarted(id: nat)

  function At<T>(m: map<nat, seq<T>>, k: nat): seq<T> {
    if k in m then m[k] else []
  }

  function Execs(s: State, k: nat): seq<Exec> {
    At(s.running, k)
  }

  function Reports(s: State, k: nat): seq<Task> {
    At(s.reports, k)
  }

  predicate Due(t: Task, now: nat) {
    t.status.Waiting? && t.options.executeAfter <= now
  }

  predicate OverAge(t: Task, timeout: nat, now: nat) {
    (t.status.Scheduled? || t.status.Running?) && t.status.ts + timeout < now
  }

  function DueKeys(s: State, now: nat): set<nat> {
    set k | k in s.pending && Due(s.pending[k], now)
  }

  function OverAgeKeys(s: State, now: nat): set<nat> {
    set k | k in s.pending && OverAge(s.pending[k], s.timeout, now)
  }

  function Remove(m: map<nat, Task>, k: nat): map<nat, Task> {
    m - {k}
  }

  function Report(s: State, k: nat, t: Task): State {
    s.(pending := Remove(s.pending, k), reports := s.reports[k := Reports(s, k) + [t]])
  }

  function WithoutExec(s: State, k: nat, which: nat): State
    requires which < |Execs(s, k)|
  {
    s.(running := s.running[k := Execs(s, k)[..which] + Execs(s, k)[which + 1..]])
  }

  function AppendTask(s: State, payload: nat, options: TaskOptions, now: nat): State {
    s.(pending := s.pending[s.nextId := Task(s.nextId, payload, options, Waiting(now))], nextId := s.nextId + 1,
       issued := s.issued + {s.nextId})
  }

  function RescheduleTask(s: State, id: nat, options: TaskOptions): State {
    if id in s.pending then s.(pending := s.pending[id := s.pending[id].(options := options)]) else s
  }

  function MarkScheduled(pending: map<nat, Task>, due: set<nat>, now: nat): map<nat, Task> {
    map k | k in pending :: if k in due then pending[k].(status := Scheduled(now)) else pending[k]
  }

  /** The reports after every task of `late` has been reported as timed out. */
  function ReportLate(
    reports: map<nat, seq<Task>>, pending: map<nat, Task>, late: set<nat>, now: nat
  ): map<nat, seq<Task>>
    requires late <= pending.Keys
  {
    map k | k in reports.Keys + late ::
      At(reports, k) + (if k in late then [pending[k].(status := TimeoutOrPanic(now))] else [])
  }

  lemma MarkNone(pending: map<nat, Task>, now: nat)
    ensures MarkScheduled(pending, {}, now) == pending
  {
  }

  lemma MarkOneMore(pending: map<nat, Task>, due: set<nat>, k: nat, now: nat)
    requires k in pending
    ensures MarkScheduled(pending, due + {k}, now) ==
            MarkScheduled(pending, due, now)[k := pending[k].(status := Scheduled(now))]
  {
  }

  lemma ReportNone(reports: map<nat, seq<Task>>, pending: map<nat, Task>, now: nat)
    ensures ReportLate(reports, pending, {}, now) == reports
  {
    var r := ReportLate(reports, pending, {}, now);
    forall k | k in reports ensures r[k] == reports[k] {
      assert r[k] == At(reports, k) + [];
    }
    assert r.Keys == reports.Keys;
  }

  lemma ReportOneMore(reports: map<nat, seq<Task>>, pending: map<nat, Task>, late: set<nat>, k: nat, now: nat)
    requires late <= pending.Keys && k in pending && k !in late
    ensures var r := ReportLate(reports, pending, late, now);
            ReportLate(reports, pending, late + {k}, now) ==
            r[k := At(r, k) + [pending[k].(status := TimeoutOrPanic(now))]]
  {
    var r := ReportLate(reports, pending, late, now);
    assert At(r, k) == At(reports, k);
  }

  /** `run_with_timestamp`: due tasks are marked and their futures spawned, over-age tasks are removed
      and reported. */
  function RunTasks(s: State, now: nat): State {
    var due, late := DueKeys(s, now), OverAgeKeys(s, now);
    s.(pending := MarkScheduled(s.pending, due, now) - late,
       unstarted := s.unstarted + multiset(due),
       reports := ReportLate(s.reports, s.pending, late, now))
  }

  /** First part of a spawned future. */
  function StartFuture(s: State, id: nat, now: nat): State
    requires s.unstarted[id] > 0
  {
    var s1 := s.(unstarted := s.unstarted[id := s.unstarted[id] - 1]);
    if id in s.pending && s.pending[id].status.Scheduled? then
      var task := s.pending[id].(status := Running(now));
      s1.(pending := s.pending[id := task],
          running := s.running[id := Execs(s, id) + [Exec(task, now)]],
          starts := s.starts[id := s.starts[id] + 1])
    else s1
  }

  /** The execution's copy of the task after a failure, with the latest options of the stored one. */
  function AfterFailure(s: State, id: nat, x: Exec): Task {
    var options := if id in s.pending then s.pending[id].options else x.task.options;
    x.task.(options := options.(failures := options.failures + 1))
  }

  predicate RetryAllowed(t: Task, e: SchedulerError, nowNanos: nat) {
    e.TaskExecutionFailed? && ShouldRetry(t.options.policy, t.options.failures, nowNanos)
  }

  /** A task sent back to wait for its next attempt. */
  function Requeued(t: Task, startedAt: nat): Task {
    t.(options := t.options.(executeAfter := startedAt + ShouldWait(t.options.backoff, t.options.failures)),
       status := Waiting(startedAt))
  }

  /** Second part of a spawned future.  Where the code unwraps the removed entry and there is none, the
      future panics: `None`. */
  function Outcome(s: State, id: nat, x: Exec, result: Result<(), SchedulerError>, nowNanos: nat): Option<State> {
    match result
    case Ok(_) =>
      if id in s.pending then Some(Report(s, id, s.pending[id].(status := Completed(x.startedAt)))) else None
    case Err(e) =>
      var task := AfterFailure(s, id, x);
      if RetryAllowed(task, e, nowNanos) then
        Some(s.(pending := s.pending[id := Requeued(task, x.startedAt)],
                revived := if id in s.pending then s.revived else s.revived[id := s.revived[id] + 1]))
      else if id in s.pending then Some(Report(s, id, s.pending[id].(status := Failed(x.startedAt, e))))
      else None
  }

  function ReturnFuture(s: State, id: nat, which: nat, result: Result<(), SchedulerError>, nowNanos: nat): State
    requires which < |Execs(s, id)|
  {
    var s1 := WithoutExec(s, id, which);
    match Outcome(s1, id, Execs(s, id)[which], result, nowNanos)
    case Some(s2) => s2
    case None => s1
  }

  predicate Enabled(s: State, step: Step) {
    match step
    case Start(id, _) => s.unstarted[id] > 0
    case Return(id, which, _, _) => which < |Execs(s, id)|
    case Die(id, which) => which < |Execs(s, id)|
    case DropUnstarted(id) => s.unstarted[id] > 0
    case _ => true
  }

  function Apply(s: State, step: Step): State
    requires Enabled(s, step)
  {
    match step
    case Append(payload, options, now) => AppendTask(s, payload, options, now)
    case Reschedule(id, options) => RescheduleTask(s, id, options)
    case SetTimeout(secs) => s.(timeout := secs)
    case RunAt(now) => RunTasks(s, now)
    case Start(id, now) => StartFuture(s, id, now)
    case Return(id, which, result, nowNanos) => ReturnFuture(s, id, which, result, nowNanos)
    case Die(id, which) => WithoutExec(s, id, which)
    case DropUnstarted(id) => s.(unstarted := s.unstarted[id := s.unstarted[id] - 1])
  }

  /** Every step of `steps` is possible when its turn comes. */
  predicate Possible(s: State, steps: seq<Step>)
    decreases |steps|
  {
    steps != [] ==> Enabled(s, steps[0]) && Possible(Apply(s, steps[0]), steps[1..])
  }

  function Run(s: State, steps: seq<Step>): State
    requires Possible(s, steps)
    decreases |steps|
  {
    if steps == [] then s else Run(Apply(s, steps[0]), steps[1..])
  }

  /** A scheduler over stored tasks, which count as issued; nothing is running yet. */
  function Restored(pending: map<nat, Task>, next: nat, timeout: nat): State {
    State(pending, pending.Keys, next, timeout, multiset{}, map[], map[], multiset{}, multiset{})
  }

  /** What the caller of the constructor is responsible for: the id sequence starts above the stored
      tasks, which carry their keys and are unfinished. */
  predicate Restorable(pending: map<nat, Task>, next: nat) {
    forall k :: k in pending ==> k < next && pending[k].id == k && Unfinished(pending[k].status)
  }

  predicate Unfinished(status: TaskStatus) {
    status.Waiting? || status.Scheduled? || status.Running?
  }

  ghost predicate Initial(s: State) {
    Restorable(s.pending, s.nextId) && s == Restored(s.pending, s.nextId, s.timeout)
  }

  predicate Issued(s: State, k: nat) {
    k in s.issued
  }

  // ---------------------------------------------------------------- invariants

  /** Stored tasks carry their key, a key below the sequence, and an unfinished status. */
  ghost predicate Stored(s: State, k: nat) {
    k in s.pending ==>
      Issued(s, k) && s.pending[k].id == k && Unfinished(s.pending[k].status)
  }

  function Live(s: State, k: nat): nat {
    s.unstarted[k] + |Execs(s, k)|
  }

  /** At most one live future per task, and the stored status says which part it is in and since when. */
  ghost predicate Single(s: State, k: nat) {
    && Live(s, k) <= 1
    && (s.starts[k] > 0 ==> Issued(s, k))
    && (s.unstarted[k] > 0 ==> Issued(s, k) && (k in s.pending ==> s.pending[k].status.Scheduled?))
    && (Execs(s, k) != [] ==>
          && Issued(s, k) && Execs(s, k)[0].task.id == k
          && (k in s.pending ==> s.pending[k].status == Running(Execs(s, k)[0].startedAt)))
  }

  /** Conservation of task ids: issued once, plus one for each revival, is stored plus reported. */
  ghost predicate Conserved(s: State, k: nat) {
    && (s.revived[k] > 0 ==> Issued(s, k)) && (Issued(s, k) ==> k < s.nextId)
    && |Reports(s, k)| + (if k in s.pending then 1 else 0) == (if Issued(s, k) then 1 else 0) + s.revived[k]
  }

  ghost predicate Inv(s: State) {
    forall k: nat :: Stored(s, k) && Single(s, k) && Conserved(s, k)
  }

  /** An execution returns after its task was removed. */
  predicate Late(s: State, step: Step) {
    step.Return? && step.id !in s.pending
  }

  lemma InitialInv(s: State)
    requires Initial(s)
    ensures Inv(s)
  {
    forall k: nat ensures Stored(s, k) && Single(s, k) && Conserved(s, k) {
    }
  }

  lemma OnlyExec(s: State, k: nat)
    requires |Execs(s, k)| == 1
    ensures WithoutExec(s, k, 0) == s.(running := s.running[k := []])
  {
    assert Execs(s, k)[..0] + Execs(s, k)[1..] == [];
  }

  /** The returning task itself. */
  lemma ReturnsWell(s: State, id: nat, which: nat, result: Result<(), SchedulerError>, nowNanos: nat)
    requires Stored(s, id) && Single(s, id) && Conserved(s, id) && which < |Execs(s, id)|
    ensures var s' := ReturnFuture(s, id, which, result, nowNanos);
            Stored(s', id) && Single(s', id) && Conserved(s', id)
  {
    assert which == 0;
    OnlyExec(s, id);
  }

  /** All the others. */
  lemma ReturnElsewhere(s: State, id: nat, which: nat, result: Result<(), SchedulerError>, nowNanos: nat, k: nat)
    requires k != id && which < |Execs(s, id)|
    requires Stored(s, k) && Single(s, k) && Conserved(s, k)
    ensures var s' := ReturnFuture(s, id, which, result, nowNanos); Stored(s', k) && Single(s', k) && Conserved(s', k)
  {
  }

  lemma ReturnInv(s: State, id: nat, which: nat, result: Result<(), SchedulerError>, nowNanos: nat)
    requires Inv(s) && which < |Execs(s, id)|
    ensures Inv(ReturnFuture(s, id, which, result, nowNanos))
  {
    var s' := ReturnFuture(s, id, which, result, nowNanos);
    forall k: nat ensures Stored(s', k) && Single(s', k) && Conserved(s', k) {
      assert Stored(s, k) && Single(s, k) && Conserved(s, k);
      if k == id {
        ReturnsWell(s, id, which, result, nowNanos);
      } else {
        ReturnElsewhere(s, id, which, result, nowNanos, k);
      }
    }
  }

  lemma StartInv(s: State, id: nat, now: nat)
    requires Inv(s) && s.unstarted[id] > 0
    ensures Inv(StartFuture(s, id, now))
  {
    var s' := StartFuture(s, id, now);
    assert Stored(s, id) && Single(s, id) && Conserved(s, id);
    forall k: nat ensures Stored(s', k) && Single(s', k) && Conserved(s', k) {
      assert Stored(s, k) && Single(s, k) && Conserved(s, k);
    }
  }

  lemma RunTasksInv(s: State, now: nat)
    requires Inv(s)
    ensures Inv(RunTasks(s, now))
  {
    var s' := RunTasks(s, now);
    forall k: nat ensures Stored(s', k) && Single(s', k) && Conserved(s', k) {
      assert Stored(s, k) && Single(s, k) && Conserved(s, k);
    }
  }

  lemma PlainStepInv(s: State, step: Step)
    requires Inv(s) && Enabled(s, step)
    requires step.Append? || step.Reschedule? || step.SetTimeout? || step.Die? || step.DropUnstarted?
    ensures Inv(Apply(s, step))
  {
    var s' := Apply(s, step);
    forall k: nat ensures Stored(s', k) && Single(s', k) && Conserved(s', k) {
      assert Stored(s, k) && Single(s, k) && Conserved(s, k);
    }
  }

  /** Every step keeps the invariant. */
  lemma StepInv(s: State, step: Step)
    requires Inv(s) && Enabled(s, step)
    ensures Inv(Apply(s, step))
  {
    match step {
      case Start(id, now) => StartInv(s, id, now);
      case RunAt(now) => RunTasksInv(s, now);
      case Return(id, which, result, nowNanos) => ReturnInv(s, id, which, result, nowNanos);
      case _ => PlainStepInv(s, step);
    }
  }

  lemma {:induction false} RunInv(s: State, steps: seq<Step>)
    requires Inv(s) && Possible(s, steps)
    ensures Inv(Run(s, steps))
    decreases |steps|
  {
    if steps != [] {
      StepInv(s, steps[0]);
      RunInv(Apply(s, steps[0]), steps[1..]);
    }
  }

  /** No task ever has two executions in flight, in any interleaving, late returns included. */
  lemma SingleFlight(s0: State, steps: seq<Step>, k: nat)
    requires Initial(s0) && Possible(s0, steps)
    ensures var s := Run(s0, steps); s.unstarted[k] + |Execs(s, k)| <= 1
  {
    InitialInv(s0);
    RunInv(s0, steps);
    assert Single(Run(s0, steps), k);
  }

  /** Exact accounting over every run: an issued task is pending or reported, and the excess is the
      number of its revivals. */
  lemma TaskAccounting(s0: State, steps: seq<Step>, k: nat)
    requires Initial(s0) && Possible(s0, steps)
    ensures var s := Run(s0, steps);
            && |Reports(s, k)| + (if k in s.pending then 1 else 0) == (if Issued(s, k) then 1 else 0) + s.revived[k]
            && (Issued(s, k) ==> k in s.pending || Reports(s, k) != [])
  {
    InitialInv(s0);
    RunInv(s0, steps);
    assert Conserved(Run(s0, steps), k);
  }

  ghost predicate NoLate(s: State, steps: seq<Step>)
    requires Possible(s, steps)
    decreases |steps|
  {
    steps != [] ==> !Late(s, steps[0]) && NoLate(Apply(s, steps[0]), steps[1..])
  }

  /** Some execution came back after its task's removal and was allowed to retry. */
  ghost predicate SomeRevival(s: State, steps: seq<Step>)
    requires Possible(s, steps)
    decreases |steps|
  {
    steps != [] && (Revives(s, steps[0]) || SomeRevival(Apply(s, steps[0]), steps[1..]))
  }

  predicate Revives(s: State, step: Step)
    requires Enabled(s, step)
  {
    Late(s, step) && step.result.Err?
    && RetryAllowed(AfterFailure(s, step.id, Execs(s, step.id)[step.which]), step.result.error, step.nowNanos)
  }

  lemma {:induction false} RevivedIff(s: State, steps: seq<Step>)
    requires Possible(s, steps)
    ensures Run(s, steps).revived >= s.revived
    ensures Run(s, steps).revived == s.revived <==> !SomeRevival(s, steps)
    decreases |steps|
  {
    if steps != [] {
      var s1 := Apply(s, steps[0]);
      RevivedIff(s1, steps[1..]);
      if Revives(s, steps[0]) {
        assert s1.revived[steps[0].id] == s.revived[steps[0].id] + 1;
        assert s1.revived > s.revived;
      } else {
        assert s1.revived == s.revived;
      }
    }
  }

  /** Pending and reported tasks are disjoint and every task is reported at most once, exactly in the
      runs in which no execution is retried after its task was removed. */
  lemma ReportedOnceIff(s0: State, steps: seq<Step>)
    requires Initial(s0) && Possible(s0, steps)
    ensures var s := Run(s0, steps);
            (forall k: nat :: |Reports(s, k)| + (if k in s.pending then 1 else 0) <= 1)
            <==> !SomeRevival(s0, steps)
  {
    var s := Run(s0, steps);
    InitialInv(s0);
    RunInv(s0, steps);
    RevivedIff(s0, steps);
    assert forall k: nat :: Conserved(s, k);
    if SomeRevival(s0, steps) {
      var k :| k in s.revived;
      assert Conserved(s, k);
      assert Issued(s, k) && |Reports(s, k)| + (if k in s.pending then 1 else 0) >= 2;
    } else {
      forall k: nat ensures |Reports(s, k)| + (if k in s.pending then 1 else 0) <= 1 {
        assert Conserved(s, k);
      }
    }
  }

  /** The unwraps: they fail exactly for a late return that is not retried, and a failing one leaves
      everything but the dead future as it was. */
  lemma UnwrapFailsIff(s: State, id: nat, which: nat, result: Result<(), SchedulerError>, nowNanos: nat)
    requires Inv(s) && which < |Execs(s, id)|
    ensures var step := Return(id, which, result, nowNanos);
            && (Outcome(WithoutExec(s, id, which), id, Execs(s, id)[which], result, nowNanos).None?
                <==> Late(s, step) && !Revives(s, step))
            && (Late(s, step) && !Revives(s, step) ==>
                  Apply(s, step) == s.(running := Apply(s, step).running))
  {
  }

  lemma {:induction false} NoLateNoRevival(s: State, steps: seq<Step>)
    requires Possible(s, steps) && NoLate(s, steps)
    ensures !SomeRevival(s, steps)
    decreases |steps|
  {
    if steps != [] {
      NoLateNoRevival(Apply(s, steps[0]), steps[1..]);
    }
  }

  /** A run without late returns reports each task at most once and never while it is pending. */
  lemma NoLateReturnsOnce(s0: State, steps: seq<Step>, k: nat)
    requires Initial(s0) && Possible(s0, steps) && NoLate(s0, steps)
    ensures var s := Run(s0, steps);
            && |Reports(s, k)| <= 1 && (k in s.pending ==> Reports(s, k) == [])
            && (Issued(s, k) <==> k in s.pending || |Reports(s, k)| == 1)
  {
    NoLateNoRevival(s0, steps);
    ReportedOnceIff(s0, steps);
    TaskAccounting(s0, steps, k);
    RevivedIff(s0, steps);
  }

  // ---------------------------------------------------------------- one run

  /** What `run(now)` makes of one task. */
  ghost predicate RanAt(s: State, now: nat, s': State, k: nat) {
    if k !in s.pending then
      k !in s'.pending && s'.unstarted[k] == s.unstarted[k] && Reports(s', k) == Reports(s, k)
    else
      var t := s.pending[k];
      if t.status.Waiting? && t.options.executeAfter <= now then
        && k in s'.pending && s'.pending[k] == t.(status := Scheduled(now))
        && s.unstarted[k] == 0 && s'.unstarted[k] == 1 && Reports(s', k) == Reports(s, k)
      else if !t.status.Waiting? && t.status.ts + s.timeout < now then
        && k !in s'.pending && s'.unstarted[k] == s.unstarted[k]
        && Reports(s', k) == Reports(s, k) + [t.(status := TimeoutOrPanic(now))]
      else
        && k in s'.pending && s'.pending[k] == t && s'.unstarted[k] == s.unstarted[k]
        && Reports(s', k) == Reports(s, k)
  }

  lemma RunsAt(s: State, now: nat, k: nat)
    requires Single(s, k) && Stored(s, k)
    ensures RanAt(s, now, RunTasks(s, now), k)
  {
  }

  /** After `run(now)` every task that was waiting and whose time had come is scheduled, with one future of its own;
      every one scheduled or running for more than the timeout is removed and reported; all others are untouched,
      and none of either kind is left. */
  lemma RunSpec(s: State, now: nat)
    requires Inv(s)
    ensures var s' := RunTasks(s, now);
            && s' == s.(pending := s'.pending, unstarted := s'.unstarted, reports := s'.reports)
            && (forall k: nat :: RanAt(s, now, s', k))
            && |s'.unstarted| == |s.unstarted| + |DueKeys(s, now)|
            && DueKeys(s', now) == {} && OverAgeKeys(s', now) == {}
  {
    forall k: nat ensures RanAt(s, now, RunTasks(s, now), k) {
      assert Single(s, k) && Stored(s, k);
      RunsAt(s, now, k);
    }
  }

  /** A spawned future executes its task exactly if it is still scheduled, and then stamps it with the time. */
  lemma StartSpec(s: State, k: nat, now: nat)
    requires Inv(s) && s.unstarted[k] > 0
    ensures var s' := StartFuture(s, k, now);
            && s'.unstarted == s.unstarted - multiset{k}
            && (forall j :: j != k ==> SameTask(s, s', j)) && s'.reports == s.reports && s'.revived == s.revived
            && if k in s.pending && s.pending[k].status.Scheduled? then
                 && k in s'.pending && s'.pending[k] == s.pending[k].(status := Running(now))
                 && Execs(s', k) == [Exec(s'.pending[k], now)] && s'.starts == s.starts + multiset{k}
               else s' == s.(unstarted := s'.unstarted)
  {
    assert Single(s, k);
  }

  // ---------------------------------------------------------------- retries

  /** A report that the task was given up after a failure that could be retried. */
  predicate GivenUp(t: Task) {
    t.status.Failed? && t.status.error == TaskExecutionFailed
  }

  /** Executions of `k` so far against its failure count, under a policy that allows `r` retries. */
  ghost predicate Bounded(s: State, k: nat, policy: RetryPolicy, r: nat) {
    && s.starts[k] <= r + 1
    && (k in s.pending ==>
          && s.pending[k].options.policy == policy && s.pending[k].options.failures <= r
          && s.starts[k] == s.pending[k].options.failures + (if s.pending[k].status.Running? then 1 else 0))
    && (Execs(s, k) != [] ==>
          var options := Execs(s, k)[0].task.options;
          && options.policy == policy && options.failures <= r
          && s.starts[k] == options.failures + 1)
    && (forall t :: t in Reports(s, k) && GivenUp(t) ==> s.starts[k] == r + 1)
  }

  lemma BoundedReturn(s: State, k: nat, which: nat, result: Result<(), SchedulerError>, nowNanos: nat,
                      policy: RetryPolicy, r: nat)
    requires policy == MaxRetries(r) || (policy == NoRetry && r == 0)
    requires Single(s, k) && Stored(s, k) && which < |Execs(s, k)| && Bounded(s, k, policy, r)
    ensures Bounded(ReturnFuture(s, k, which, result, nowNanos), k, policy, r)
  {
    assert which == 0 && Execs(WithoutExec(s, k, which), k) == [];
  }

  /** Nothing about task `k` differs. */
  ghost predicate SameTask(s: State, s': State, k: nat) {
    && (k in s.pending <==> k in s'.pending) && (k in s.pending ==> s'.pending[k] == s.pending[k])
    && Execs(s', k) == Execs(s, k) && s'.starts[k] == s.starts[k] && s'.unstarted[k] == s.unstarted[k]
    && Reports(s', k) == Reports(s, k)
  }

  predicate Concerns(step: Step, k: nat) {
    step.RunAt? || (!step.Append? && !step.SetTimeout? && step.id == k)
  }

  lemma OtherReturns(s: State, id: nat, which: nat, result: Result<(), SchedulerError>, nowNanos: nat, k: nat)
    requires which < |Execs(s, id)| && k != id
    ensures SameTask(s, ReturnFuture(s, id, which, result, nowNanos), k)
  {
  }

  lemma OtherTask(s: State, step: Step, k: nat)
    requires Enabled(s, step) && !Concerns(step, k) && k < s.nextId
    ensures SameTask(s, Apply(s, step), k)
  {
    match step {
      case Return(id, which, result, nowNanos) => OtherReturns(s, id, which, result, nowNanos, k);
      case _ =>
    }
  }

  lemma BoundedRunTasks(s: State, k: nat, now: nat, policy: RetryPolicy, r: nat)
    requires Single(s, k) && Stored(s, k) && Bounded(s, k, policy, r)
    ensures Bounded(RunTasks(s, now), k, policy, r)
  {
    RunsAt(s, now, k);
    assert Execs(RunTasks(s, now), k) == Execs(s, k);
  }

  lemma BoundedStep(s: State, step: Step, k: nat, policy: RetryPolicy, r: nat)
    requires policy == MaxRetries(r) || (policy == NoRetry && r == 0)
    requires Inv(s) && Enabled(s, step) && Issued(s, k) && Bounded(s, k, policy, r)
    requires !(step.Reschedule? && step.id == k)
    ensures Bounded(Apply(s, step), k, policy, r)
  {
    assert Stored(s, k) && Single(s, k) && Conserved(s, k);
    if !Concerns(step, k) {
      OtherTask(s, step, k);
    } else {
      match step {
        case Return(_, which, result, nowNanos) => BoundedReturn(s, k, which, result, nowNanos, policy, r);
        case RunAt(now) => BoundedRunTasks(s, k, now, policy, r);
        case Start(_, now) => BoundedStart(s, k, now, policy, r);
        case _ =>
      }
    }
  }

  lemma BoundedStart(s: State, k: nat, now: nat, policy: RetryPolicy, r: nat)
    requires Single(s, k) && Stored(s, k) && s.unstarted[k] > 0 && Bounded(s, k, policy, r)
    ensures Bounded(StartFuture(s, k, now), k, policy, r)
  {
    assert Execs(s, k) == [];
  }

  lemma {:induction false} BoundedRun(s: State, steps: seq<Step>, k: nat, policy: RetryPolicy, r: nat)
    requires policy == MaxRetries(r) || (policy == NoRetry && r == 0)
    requires Inv(s) && Possible(s, steps) && Issued(s, k) && Bounded(s, k, policy, r)
    requires forall i :: 0 <= i < |steps| ==> !(steps[i].Reschedule? && steps[i].id == k)
    ensures Bounded(Run(s, steps), k, policy, r)
    decreases |steps|
  {
    if steps != [] {
      StepInv(s, steps[0]);
      BoundedStep(s, steps[0], k, policy, r);
      BoundedRun(Apply(s, steps[0]), steps[1..], k, policy, r);
    }
  }

  /** A task appended without retries, or with `MaxRetries(r)`, is executed at most r + 1 times in any run that does
      not reschedule it, and given up only after exactly so many executions. */
  lemma RetryBound(s: State, payload: nat, options: TaskOptions, now: nat, steps: seq<Step>, r: nat)
    requires Inv(s) && options.failures == 0
    requires options.policy == MaxRetries(r) || (options.policy == NoRetry && r == 0)
    requires Possible(AppendTask(s, payload, options, now), steps)
    requires forall i :: 0 <= i < |steps| ==> !(steps[i].Reschedule? && steps[i].id == s.nextId)
    ensures var s', k := Run(AppendTask(s, payload, options, now), steps), s.nextId;
            s'.starts[k] <= r + 1 && forall t :: t in Reports(s', k) && GivenUp(t) ==> s'.starts[k] == r + 1
  {
    var s1 := AppendTask(s, payload, options, now);
    StepInv(s, Append(payload, options, now));
    assert Single(s, s.nextId) && Conserved(s, s.nextId);
    BoundedRun(s1, steps, s.nextId, options.policy, r);
  }

  /** Under `Infinite`, or `Timeout(ts)` while no execution returns after `ts`, task `k` is never given up. */
  ghost predicate Persists(s: State, k: nat, policy: RetryPolicy) {
    && (k in s.pending ==> s.pending[k].options.policy == policy)
    && (Execs(s, k) != [] ==> Execs(s, k)[0].task.options.policy == policy)
    && (forall t :: t in Reports(s, k) ==> !GivenUp(t))
  }

  predicate InTime(step: Step, k: nat, policy: RetryPolicy) {
    && (policy == Infinite || policy.Timeout?)
    && (step.Return? && step.id == k && policy.Timeout? ==> step.nowNanos <= policy.timeoutTs)
  }

  lemma PersistsReturn(s: State, k: nat, which: nat, result: Result<(), SchedulerError>, nowNanos: nat,
                       policy: RetryPolicy)
    requires Single(s, k) && which < |Execs(s, k)| && Persists(s, k, policy)
    requires policy == Infinite || (policy.Timeout? && nowNanos <= policy.timeoutTs)
    ensures Persists(ReturnFuture(s, k, which, result, nowNanos), k, policy)
  {
    OnlyExec(s, k);
  }

  lemma PersistsStep(s: State, step: Step, k: nat, policy: RetryPolicy)
    requires Inv(s) && Enabled(s, step) && Issued(s, k) && Persists(s, k, policy)
    requires InTime(step, k, policy) && !(step.Reschedule? && step.id == k)
    ensures Persists(Apply(s, step), k, policy)
  {
    assert Stored(s, k) && Single(s, k) && Conserved(s, k);
    if !Concerns(step, k) {
      OtherTask(s, step, k);
    } else {
      match step {
        case Return(_, which, result, nowNanos) => PersistsReturn(s, k, which, result, nowNanos, policy);
        case RunAt(now) => RunsAt(s, now, k);
        case Start(_, now) => StartSpec(s, k, now);
        case _ =>
      }
    }
  }

  lemma {:induction false} PersistsRun(s: State, steps: seq<Step>, k: nat, policy: RetryPolicy)
    requires Inv(s) && Possible(s, steps) && Issued(s, k) && Persists(s, k, policy)
    requires forall i :: 0 <= i < |steps| ==>
               InTime(steps[i], k, policy) && !(steps[i].Reschedule? && steps[i].id == k)
    ensures Persists(Run(s, steps), k, policy)
    decreases |steps|
  {
    if steps != [] {
      StepInv(s, steps[0]);
      PersistsStep(s, steps[0], k, policy);
      PersistsRun(Apply(s, steps[0]), steps[1..], k, policy);
    }
  }

  /** A task appended with `Infinite`, or with a `Timeout` that no execution of it outlasts, is never given up in any
      run that does not reschedule it: it is reported only as completed, timed out, or failed unrecoverably. */
  lemma NeverGivenUp(s: State, payload: nat, options: TaskOptions, now: nat, steps: seq<Step>)
    requires Inv(s) && (options.policy == Infinite || options.policy.Timeout?)
    requires Possible(AppendTask(s, payload, options, now), steps)
    requires forall i :: 0 <= i < |steps| ==>
               && !(steps[i].Reschedule? && steps[i].id == s.nextId)
               && (steps[i].Return? && steps[i].id == s.nextId && options.policy.Timeout? ==>
                     steps[i].nowNanos <= options.policy.timeoutTs)
    ensures forall t :: t in Reports(Run(AppendTask(s, payload, options, now), steps), s.nextId) ==> !GivenUp(t)
  {
    StepInv(s, Append(payload, options, now));
    assert Single(s, s.nextId) && Conserved(s, s.nextId);
    PersistsRun(AppendTask(s, payload, options, now), steps, s.nextId, options.policy);
  }

  /** What the return of an execution makes of its task, by the options stored by then (its own, if the task has been
      removed): after a recoverable failure the task waits again, for the time its backoff prescribes, exactly if
      its retry policy allows another attempt; otherwise a stored task is removed and reported once, and nothing
      else happens.  No other task is touched. */
  lemma ReturnSpec(s: State, k: nat, which: nat, result: Result<(), SchedulerError>, nowNanos: nat)
    requires Inv(s) && which < |Execs(s, k)|
    ensures var x, s' := Execs(s, k)[which], ReturnFuture(s, k, which, result, nowNanos);
            var options := if k in s.pending then s.pending[k].options else x.task.options;
            var failures := options.failures + 1;
            var again := result == Err(TaskExecutionFailed) && match options.policy
                         case NoRetry => false
                         case MaxRetries(retries) => failures <= retries
                         case Infinite => true
                         case Timeout(ts) => nowNanos <= ts;
            && Execs(s', k) == []
            && (if again then
                  && k in s'.pending
                  && s'.pending[k] == Task(k, x.task.payload,
                                           TaskOptions(failures, x.startedAt + ShouldWait(options.backoff, failures),
                                                       options.policy, options.backoff),
                                           Waiting(x.startedAt))
                  && Reports(s', k) == Reports(s, k)
                else if k in s.pending then
                  && k !in s'.pending
                  && Reports(s', k) == Reports(s, k) + [s.pending[k].(status :=
                       match result case Ok(_) => Completed(x.startedAt) case Err(e) => Failed(x.startedAt, e))]
                else k !in s'.pending && Reports(s', k) == Reports(s, k))
    ensures var s' := ReturnFuture(s, k, which, result, nowNanos);
            && s'.nextId == s.nextId && s'.issued == s.issued && s'.timeout == s.timeout && s'.starts == s.starts
            && s'.unstarted == s.unstarted && forall j :: j != k ==> SameTask(s, s', j)
  {
    assert Single(s, k) && Stored(s, k) && which == 0;
    OnlyExec(s, k);
  }

  /** A task that is not stored and has no live future is never touched again, whatever is done. */
  lemma {:induction false} StaysFinished(s: State, steps: seq<Step>, k: nat)
    requires Inv(s) && Possible(s, steps) && k < s.nextId && k !in s.pending && Live(s, k) == 0
    ensures var s' := Run(s, steps); k !in s'.pending && s'.starts[k] == s.starts[k] && Reports(s', k) == Reports(s, k)
    decreases |steps|
  {
    if steps != [] {
      var s1 := Apply(s, steps[0]);
      StepInv(s, steps[0]);
      if !Concerns(steps[0], k) {
        OtherTask(s, steps[0], k);
      }
      StaysFinished(s1, steps[1..], k);
    }
  }

  /** A stored task whose execution succeeds, fails unrecoverably, or fails without `Infinite` retries left is
      reported at once and for good: in every later run it is neither executed nor reported again. */
  lemma FinishedForGood(s: State, k: nat, which: nat, result: Result<(), SchedulerError>, nowNanos: nat,
                        steps: seq<Step>)
    requires Inv(s) && which < |Execs(s, k)| && k in s.pending
    requires result == Err(TaskExecutionFailed) ==>
               match s.pending[k].options.policy
               case NoRetry => true
               case MaxRetries(retries) => s.pending[k].options.failures >= retries
               case Infinite => false
               case Timeout(ts) => ts < nowNanos
    requires Possible(ReturnFuture(s, k, which, result, nowNanos), steps)
    ensures var s' := Run(ReturnFuture(s, k, which, result, nowNanos), steps);
            && k !in s'.pending && s'.starts[k] == s.starts[k]
            && Reports(s', k) == Reports(s, k) + [s.pending[k].(status :=
                 match result
                 case Ok(_) => Completed(Execs(s, k)[which].startedAt)
                 case Err(e) => Failed(Execs(s, k)[which].startedAt, e))]
  {
    ReturnSpec(s, k, which, result, nowNanos);
    ReturnInv(s, k, which, result, nowNanos);
    assert Single(s, k) && Conserved(s, k);
    StaysFinished(ReturnFuture(s, k, which, result, nowNanos), steps, k);
  }

  /** Rescheduling replaces the options of a stored task and nothing else; without one it does nothing.  If the task
      is running and fails, the running execution counts as the first one of the new schedule. */
  lemma RescheduleSpec(s: State, k: nat, options: TaskOptions, nowNanos: nat)
    requires Inv(s)
    ensures var s1 := RescheduleTask(s, k, options);
            && s1 == s.(pending := if k in s.pending then s.pending[k := s.pending[k].(options := options)]
                                   else s.pending)
            && (k in s.pending && Execs(s, k) != [] && options.policy.MaxRetries? ==>
                  var s2 := ReturnFuture(s1, k, 0, Err(TaskExecutionFailed), nowNanos);
                  && (k in s2.pending <==> options.failures < options.policy.retries)
                  && (k in s2.pending ==> s2.pending[k].options.failures == options.failures + 1))
  {
    var s1 := RescheduleTask(s, k, options);
    StepInv(s, Reschedule(k, options));
    if k in s.pending && Execs(s, k) != [] {
      ReturnSpec(s1, k, 0, Err(TaskExecutionFailed), nowNanos);
    }
  }

  /** Whatever is stored, executed or reported under `k` is task `k` with this payload. */
  ghost predicate Carries(s: State, k: nat, payload: nat) {
    && (k in s.pending ==> s.pending[k].id == k && s.pending[k].payload == payload)
    && (forall x :: x in Execs(s, k) ==> x.task.id == k && x.task.payload == payload)
    && (forall t :: t in Reports(s, k) ==> t.id == k && t.payload == payload)
  }

  lemma CarriesReturn(s: State, k: nat, which: nat, result: Result<(), SchedulerError>, nowNanos: nat, payload: nat)
    requires Single(s, k) && which < |Execs(s, k)| && Carries(s, k, payload)
    ensures Carries(ReturnFuture(s, k, which, result, nowNanos), k, payload)
  {
    OnlyExec(s, k);
  }

  lemma CarriesStep(s: State, step: Step, k: nat, payload: nat)
    requires Inv(s) && Enabled(s, step) && Issued(s, k) && Carries(s, k, payload)
    ensures Carries(Apply(s, step), k, payload)
  {
    assert Stored(s, k) && Single(s, k) && Conserved(s, k);
    if !Concerns(step, k) {
      OtherTask(s, step, k);
    } else {
      match step {
        case Return(_, which, result, nowNanos) => CarriesReturn(s, k, which, result, nowNanos, payload);
        case RunAt(now) => RunsAt(s, now, k);
        case Start(_, now) => StartSpec(s, k, now);
        case _ =>
      }
    }
  }

  lemma {:induction false} CarriesRun(s: State, steps: seq<Step>, k: nat, payload: nat)
    requires Inv(s) && Possible(s, steps) && Issued(s, k) && Carries(s, k, payload)
    ensures Carries(Run(s, steps), k, payload)
    decreases |steps|
  {
    if steps != [] {
      StepInv(s, steps[0]);
      CarriesStep(s, steps[0], k, payload);
      CarriesRun(Apply(s, steps[0]), steps[1..], k, payload);
    }
  }

  /** Task ids do not mix up tasks: in every run, rescheduled and late ones included, what is stored, executed and
      reported under the id of an appended task is that task. */
  lemma PayloadKept(s: State, payload: nat, options: TaskOptions, now: nat, steps: seq<Step>)
    requires Inv(s) && Possible(AppendTask(s, payload, options, now), steps)
    ensures Carries(Run(AppendTask(s, payload, options, now), steps), s.nextId, payload)
  {
    StepInv(s, Append(payload, options, now));
    assert Single(s, s.nextId) && Conserved(s, s.nextId);
    CarriesRun(AppendTask(s, payload, options, now), steps, s.nextId, payload);
  }

  /** A waiting task is left alone until a run reaches its execute-after time: whatever else happens,
      it is neither launched, nor changed, nor removed before. */
  lemma {:induction false} WaitsUntilDue(s: State, steps: seq<Step>, k: nat)
    requires Inv(s) && Possible(s, steps) && k in s.pending && s.pending[k].status.Waiting?
    requires forall i :: 0 <= i < |steps| ==>
               && !(steps[i].Reschedule? && steps[i].id == k)
               && (steps[i].RunAt? ==> steps[i].now < s.pending[k].options.executeAfter)
    ensures var s' := Run(s, steps);
            k in s'.pending && s'.pending[k] == s.pending[k] && s'.starts[k] == s.starts[k] && Live(s', k) == 0
    decreases |steps|
  {
    assert Single(s, k) && Stored(s, k);
    if steps != [] {
      var s1 := Apply(s, steps[0]);
      StepInv(s, steps[0]);
      if !Concerns(steps[0], k) {
        OtherTask(s, steps[0], k);
      }
      assert k in s1.pending && s1.pending[k] == s.pending[k] && s1.starts[k] == s.starts[k];
      WaitsUntilDue(s1, steps[1..], k);
    }
  }

  /** After a retried failure the next execution starts no earlier than the backoff delay after the
      start of the failed one. */
  lemma BackoffRespected(s: State, k: nat, which: nat, nowNanos: nat, steps: seq<Step>)
    requires Inv(s) && which < |Execs(s, k)|
    requires var x := Execs(s, k)[which];
             var t := AfterFailure(s, k, x);
             && RetryAllowed(t, TaskExecutionFailed, nowNanos)
             && Possible(ReturnFuture(s, k, which, Err(TaskExecutionFailed), nowNanos), steps)
             && forall i :: 0 <= i < |steps| ==>
                  && !(steps[i].Reschedule? && steps[i].id == k)
                  && (steps[i].RunAt? ==>
                        steps[i].now < x.startedAt + ShouldWait(t.options.backoff, t.options.failures))
    ensures Run(ReturnFuture(s, k, which, Err(TaskExecutionFailed), nowNanos), steps).starts[k] == s.starts[k]
  {
    var s1 := ReturnFuture(s, k, which, Err(TaskExecutionFailed), nowNanos);
    ReturnInv(s, k, which, Err(TaskExecutionFailed), nowNanos);
    assert AfterFailure(WithoutExec(s, k, which), k, Execs(s, k)[which]) == AfterFailure(s, k, Execs(s, k)[which]);
    WaitsUntilDue(s1, steps, k);
  }

  // ---------------------------------------------------------------- the timeout and dead futures

  /** The timeout last set is in force, whatever else happens. */
  lemma TimeoutInForce(s: State, secs: nat, steps: seq<Step>)
    requires Possible(Apply(s, SetTimeout(secs)), steps)
    requires forall i :: 0 <= i < |steps| ==> !steps[i].SetTimeout?
    ensures Apply(s, SetTimeout(secs)) == s.(timeout := secs)
    ensures Run(Apply(s, SetTimeout(secs)), steps).timeout == secs
  {
    TimeoutStays(s.(timeout := secs), steps);
  }

  lemma {:induction false} TimeoutStays(s: State, steps: seq<Step>)
    requires Possible(s, steps) && forall i :: 0 <= i < |steps| ==> !steps[i].SetTimeout?
    ensures Run(s, steps).timeout == s.timeout
    decreases |steps|
  {
    if steps != [] {
      TimeoutStays(Apply(s, steps[0]), steps[1..]);
    }
  }

  /** A future that dies is gone, and its task stays as it is until it is over age. */
  lemma DeadFuture(s: State, k: nat)
    requires Inv(s)
    ensures Execs(s, k) != [] ==>
              var s' := Apply(s, Die(k, 0)); s' == s.(running := s'.running) && Execs(s', k) == []
    ensures s.unstarted[k] > 0 ==>
              var s' := Apply(s, DropUnstarted(k)); s' == s.(unstarted := s'.unstarted) && s'.unstarted[k] == 0
  {
    assert Single(s, k);
    if Execs(s, k) != [] {
      OnlyExec(s, k);
    }
  }

  // ---------------------------------------------------------------- a late return

  const ONE_RETRY: TaskOptions := TaskOptions(0, 0, MaxRetries(1), NoBackoff)

  /** Appended, scheduled, started, timed out. */
  const OVERDUE: seq<Step> := [Append(7, ONE_RETRY, 0), RunAt(0), Start(0, 0), RunAt(1000)]

  function Empty(): State {
    Restored(map[], 0, 120)
  }

  lemma {:induction false} RunAppend(s: State, steps: seq<Step>, last: Step)
    requires Possible(s, steps) && Enabled(Run(s, steps), last)
    ensures Possible(s, steps + [last]) && Run(s, steps + [last]) == Apply(Run(s, steps), last)
    decreases |steps|
  {
    if steps == [] {
      assert [last][1..] == [];
    } else {
      assert (steps + [last])[1..] == steps[1..] + [last];
      RunAppend(Apply(s, steps[0]), steps[1..], last);
    }
  }

  /** The task has been reported, and its execution is still running. */
  ghost predicate Overdue(s: State) {
    && 0 !in s.pending && s.timeout == 120
    && Execs(s, 0) == [Exec(Task(0, 7, ONE_RETRY, Running(0)), 0)]
    && |Reports(s, 0)| == 1 && Reports(s, 0)[0].status == TimeoutOrPanic(1000)
  }

  lemma OverdueRun()
    ensures Possible(Empty(), OVERDUE) && Overdue(Run(Empty(), OVERDUE))
  {
    var s2 := Launched();
    TimesOut(s2);
    FourSteps(Empty(), OVERDUE[0], OVERDUE[1], OVERDUE[2], OVERDUE[3]);
    assert OVERDUE == [OVERDUE[0], OVERDUE[1], OVERDUE[2], OVERDUE[3]];
  }

  lemma FourSteps(s: State, a: Step, b: Step, c: Step, d: Step)
    requires Enabled(s, a) && Enabled(Apply(s, a), b) && Enabled(Apply(Apply(s, a), b), c)
    requires Enabled(Apply(Apply(Apply(s, a), b), c), d)
    ensures Possible(s, [a, b, c, d]) && Run(s, [a, b, c, d]) == Apply(Apply(Apply(Apply(s, a), b), c), d)
  {
    RunAppend(s, [], a);
    assert [] + [a] == [a];
    RunAppend(s, [a], b);
    assert [a] + [b] == [a, b];
    RunAppend(s, [a, b], c);
    assert [a, b] + [c] == [a, b, c];
    RunAppend(s, [a, b, c], d);
    assert [a, b, c] + [d] == [a, b, c, d];
  }

  lemma Launched() returns (s: State)
    ensures s == Apply(Apply(Empty(), OVERDUE[0]), OVERDUE[1])
    ensures s.pending == map[0 := Task(0, 7, ONE_RETRY, Scheduled(0))]
    ensures s.unstarted[0] == 1 && Execs(s, 0) == [] && Reports(s, 0) == [] && s.timeout == 120
  {
    var s1 := Apply(Empty(), OVERDUE[0]);
    assert DueKeys(s1, 0) == {0} && OverAgeKeys(s1, 0) == {};
    s := Apply(s1, OVERDUE[1]);
  }

  lemma TimesOut(s: State)
    requires s.pending == map[0 := Task(0, 7, ONE_RETRY, Scheduled(0))]
    requires s.unstarted[0] == 1 && Execs(s, 0) == [] && Reports(s, 0) == [] && s.timeout == 120
    ensures Overdue(Apply(Apply(s, OVERDUE[2]), OVERDUE[3]))
  {
    assert OverAgeKeys(Apply(s, OVERDUE[2]), 1000) == {0};
  }

  /** Why late returns matter: an execution that outlives its timeout, fails and is retried brings its task back
      after it was reported. */
  lemma LateRetryBringsBack()
    ensures var steps := OVERDUE + [Return(0, 0, Err(TaskExecutionFailed), 0)];
            && Possible(Empty(), steps)
            && var s := Run(Empty(), steps);
               0 in s.pending && |Reports(s, 0)| == 1 && Reports(s, 0)[0].status == TimeoutOrPanic(1000)
  {
    OverdueRun();
    var s := Run(Empty(), OVERDUE);
    assert RetryAllowed(AfterFailure(s, 0, Execs(s, 0)[0]), TaskExecutionFailed, 0);
    RunAppend(Empty(), OVERDUE, Return(0, 0, Err(TaskExecutionFailed), 0));
  }

  /** One that succeeds reaches the failing unwrap: the future dies, and the task stays reported as timed out
      although it was completed. */
  lemma LateSuccessPanics()
    ensures Possible(Empty(), OVERDUE)
    ensures var s := Run(Empty(), OVERDUE);
            && Execs(s, 0) != [] && Outcome(WithoutExec(s, 0, 0), 0, Execs(s, 0)[0], Ok(()), 0).None?
            && |Reports(s, 0)| == 1 && Reports(s, 0)[0].status == TimeoutOrPanic(1000)
  {
    OverdueRun();
  }
}
