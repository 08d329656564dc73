/** The scheduler as an object, in the form of ic-task-scheduler/src/scheduler.rs.  Its methods are the
    uninterrupted parts of the code; each is tied to a step of `Scheduling` on the view of the object.
    Task bodies run elsewhere: `StartFuture` hands out the execution, `FinishFuture` takes its result. */
module Schedulers {
  import opened Wrappers
  import opened S = Scheduling

  class Scheduler {
    var pendingTasks: map<nat, Task>
    var taskIdSequence: nat
    var runningTaskTimeoutSecs: nat

    // Live futures and histories.
    ghost var issued: set<nat>
    ghost var unstarted: multiset<nat>
    ghost var running: map<nat, seq<Exec>>
    ghost var reports: map<nat, seq<Task>>
    ghost var starts: multiset<nat>
    ghost var revived: multiset<nat>

    constructor (stored: map<nat, Task>, sequence: nat)
      requires Restorable(stored, sequence)
      ensures View() == Restored(stored, sequence, 120) && S.Inv(View())
    {
      pendingTasks, taskIdSequence, runningTaskTimeoutSecs := stored, sequence, 120;
      issued, unstarted, running, reports := stored.Keys, multiset{}, map[], map[];
      starts, revived := multiset{}, multiset{};
      new;
      InitialInv(View());
    }

    ghost function View(): State
      reads this
    {
      State(pendingTasks, issued, taskIdSequence, runningTaskTimeoutSecs, unstarted, running, reports, starts, revived)
    }

    method NextTaskId() returns (id: nat)
      modifies `taskIdSequence
      ensures id == old(taskIdSequence) && taskIdSequence == id + 1
    {
      id := taskIdSequence;
      taskIdSequence := id + 1;
    }

    method AppendTask(payload: nat, options: TaskOptions, now: nat) returns (key: nat)
      requires S.Inv(View())
      modifies this
      ensures S.Inv(View()) && View() == S.AppendTask(old(View()), payload, options, now)
      ensures key == old(taskIdSequence) && key !in old(pendingTasks)
      ensures pendingTasks == old(pendingTasks)[key := Task(key, payload, options, Waiting(now))]
    {
      assert Stored(View(), taskIdSequence);
      StepInv(View(), Append(payload, options, now));
      key := NextTaskId();
      pendingTasks := pendingTasks[key := Task(key, payload, options, Waiting(now))];
      issued := issued + {key};
    }

    /** All tasks are stored under consecutive fresh keys, in order; older tasks are untouched. */
    method AppendTasks(tasks: seq<(nat, TaskOptions)>, now: nat) returns (keys: seq<nat>)
      requires S.Inv(View())
      modifies this
      ensures S.Inv(View()) && |keys| == |tasks| && taskIdSequence == old(taskIdSequence) + |tasks|
      ensures forall i :: 0 <= i < |tasks| ==>
                && keys[i] == old(taskIdSequence) + i && keys[i] in pendingTasks
                && pendingTasks[keys[i]] == Task(keys[i], tasks[i].0, tasks[i].1, Waiting(now))
      ensures forall k :: k in pendingTasks <==> k in old(pendingTasks) || old(taskIdSequence) <= k < taskIdSequence
      ensures forall k :: k in old(pendingTasks) ==> pendingTasks[k] == old(pendingTasks)[k]
    {
      assert forall k :: k in pendingTasks ==> Stored(View(), k);
      keys := [];
      for i := 0 to |tasks|
        invariant S.Inv(View()) && |keys| == i && taskIdSequence == old(taskIdSequence) + i
        invariant forall j :: 0 <= j < i ==>
                    && keys[j] == old(taskIdSequence) + j && keys[j] in pendingTasks
                    && pendingTasks[keys[j]] == Task(keys[j], tasks[j].0, tasks[j].1, Waiting(now))
        invariant forall k :: k in pendingTasks <==> k in old(pendingTasks) || old(taskIdSequence) <= k < taskIdSequence
        invariant forall k :: k in old(pendingTasks) ==>
                    k < old(taskIdSequence) && pendingTasks[k] == old(pendingTasks)[k]
      {
        var key := AppendTask(tasks[i].0, tasks[i].1, now);
        keys := keys + [key];
      }
    }

    /** What is found is unfinished and carries its key; an issued task that is not found has been reported. */
    method GetTask(id: nat) returns (t: Option<Task>)
      requires S.Inv(View())
      ensures t.Some? <==> id in pendingTasks
      ensures t.Some? ==> t.value == pendingTasks[id] && t.value.id == id < taskIdSequence && Unfinished(t.value.status)
      ensures t.None? && id in issued ==> S.Reports(View(), id) != []
    {
      assert S.Stored(View(), id) && S.Conserved(View(), id);
      t := if id in pendingTasks then Some(pendingTasks[id]) else None;
    }

    /** The smallest key whose task satisfies the filter. */
    method FindId(filter: nat -> bool) returns (id: Option<nat>)
      requires S.Inv(View())
      ensures id.Some? ==> id.value in pendingTasks && filter(pendingTasks[id.value].payload)
                           && forall k :: k in pendingTasks && k < id.value ==> !filter(pendingTasks[k].payload)
      ensures id.None? ==> forall k :: k in pendingTasks ==> !filter(pendingTasks[k].payload)
    {
      for k := 0 to taskIdSequence
        invariant forall j :: j in pendingTasks && j < k ==> !filter(pendingTasks[j].payload)
      {
        if k in pendingTasks && filter(pendingTasks[k].payload) {
          return Some(k);
        }
      }
      assert forall k :: k in pendingTasks ==> Stored(View(), k);
      id := None;
    }

    method Reschedule(id: nat, options: TaskOptions)
      requires S.Inv(View())
      modifies `pendingTasks
      ensures S.Inv(View()) && View() == RescheduleTask(old(View()), id, options)
    {
      StepInv(View(), S.Reschedule(id, options));
      if id !in pendingTasks {
        return;
      }
      pendingTasks := pendingTasks[id := pendingTasks[id].(options := options)];
    }

    method SetRunningTaskTimeout(secs: nat)
      modifies `runningTaskTimeoutSecs
      ensures View() == old(View()).(timeout := secs)
    {
      runningTaskTimeoutSecs := secs;
    }

    /** The keys of due and of over-age tasks, collected while the map is only read. */
    method Collect(now: nat) returns (due: set<nat>, late: set<nat>)
      ensures due == DueKeys(View(), now) && late == OverAgeKeys(View(), now)
    {
      due, late := {}, {};
      var keys := pendingTasks.Keys;
      while keys != {}
        invariant keys <= pendingTasks.Keys
        invariant due == set k | k in pendingTasks.Keys - keys && Due(pendingTasks[k], now)
        invariant late == set k | k in pendingTasks.Keys - keys && OverAge(pendingTasks[k], runningTaskTimeoutSecs, now)
        decreases keys
      {
        var k :| k in keys;
        var task := pendingTasks[k];
        match task.status {
          case Waiting(_) =>
            if task.options.executeAfter <= now {
              due := due + {k};
            }
          case Running(ts) =>
            if ts + runningTaskTimeoutSecs < now {
              late := late + {k};
            }
          case Scheduled(ts) =>
            if ts + runningTaskTimeoutSecs < now {
              late := late + {k};
            }
          case _ =>
        }
        keys := keys - {k};
      }
    }

    /** Marks the task as scheduled and spawns its future. */
    method ProcessPendingTask(k: nat, now: nat)
      modifies `pendingTasks, `unstarted
      ensures unstarted == old(unstarted) + multiset{k}
      ensures pendingTasks == if k in old(pendingTasks) && old(pendingTasks)[k].status.Waiting?
                              then old(pendingTasks)[k := old(pendingTasks)[k].(status := S.Scheduled(now))]
                              else old(pendingTasks)
    {
      if k in pendingTasks {
        var task := pendingTasks[k];
        if task.status.Waiting? {
          pendingTasks := pendingTasks[k := task.(status := S.Scheduled(now))];
        }
      }
      unstarted := unstarted + multiset{k};
    }

    /** Removes the over-age tasks and reports them. */
    method RemoveOverAge(late: set<nat>, now: nat)
      requires late <= pendingTasks.Keys
      modifies `pendingTasks, `reports
      ensures pendingTasks == old(pendingTasks) - late
      ensures reports == ReportLate(old(reports), old(pendingTasks), late, now)
    {
      var todo := late;
      ReportNone(reports, pendingTasks, now);
      assert late - todo == {};
      while todo != {}
        invariant todo <= late && pendingTasks == old(pendingTasks) - (late - todo)
        invariant reports == ReportLate(old(reports), old(pendingTasks), late - todo, now)
        decreases todo
      {
        var k :| k in todo;
        assert late - (todo - {k}) == (late - todo) + {k};
        ReportOneMore(old(reports), old(pendingTasks), late - todo, k, now);
        if k in pendingTasks {
          var task := pendingTasks[k];
          pendingTasks := pendingTasks - {k};
          reports := reports[k := At(reports, k) + [task.(status := TimeoutOrPanic(now))]];
        }
        todo := todo - {k};
      }
      assert late - todo == late;
    }

    method ScheduleDue(due: set<nat>, now: nat)
      requires forall k :: k in due ==> k in pendingTasks && pendingTasks[k].status.Waiting?
      modifies `pendingTasks, `unstarted
      ensures unstarted == old(unstarted) + multiset(due)
      ensures pendingTasks == MarkScheduled(old(pendingTasks), due, now)
    {
      var todo := due;
      MarkNone(pendingTasks, now);
      assert due - todo == {};
      while todo != {}
        invariant todo <= due && unstarted == old(unstarted) + multiset(due - todo)
        invariant pendingTasks == MarkScheduled(old(pendingTasks), due - todo, now)
        decreases todo
      {
        var k :| k in todo;
        assert due - (todo - {k}) == (due - todo) + {k};
        MarkOneMore(old(pendingTasks), due - todo, k, now);
        ProcessPendingTask(k, now);
        todo := todo - {k};
      }
      assert due - todo == due;
    }

    /** Returns the number of launched tasks, which is the number of due ones. */
    method RunWithTimestamp(now: nat) returns (launched: nat)
      requires S.Inv(View())
      modifies `pendingTasks, `unstarted, `reports
      ensures S.Inv(View()) && View() == RunTasks(old(View()), now)
      ensures launched == |DueKeys(old(View()), now)|
    {
      ghost var s := View();
      var due, late := Collect(now);
      ScheduleDue(due, now);
      assert ReportLate(s.reports, pendingTasks, late, now) == ReportLate(s.reports, s.pending, late, now);
      RemoveOverAge(late, now);
      launched := |due|;
      assert View() == RunTasks(s, now);
      RunTasksInv(s, now);
    }

    /** A spawned future up to `execute(..).await`; `None` if there is nothing to execute. */
    method StartFuture(k: nat, now: nat) returns (x: Option<Exec>)
      requires S.Inv(View()) && unstarted[k] > 0
      modifies this
      ensures S.Inv(View()) && View() == S.StartFuture(old(View()), k, now)
      ensures x.Some? ==> Execs(View(), k) == [x.value]
      ensures x.None? ==> Execs(View(), k) == Execs(old(View()), k)
    {
      assert Single(View(), k);
      StepInv(View(), Start(k, now));
      x := None;
      unstarted := unstarted[k := unstarted[k] - 1];
      if k in pendingTasks {
        var task := pendingTasks[k];
        if task.status.Scheduled? {
          task := task.(status := S.Running(now));
          pendingTasks := pendingTasks[k := task];
          x := Some(Exec(task, now));
          running := running[k := Execs(View(), k) + [Exec(task, now)]];
          starts := starts[k := starts[k] + 1];
        }
      }
    }

    /** The rest of the future once `execute` has answered.  `panicked` tells whether an unwrap of a
        missing entry was reached. */
    method FinishFuture(k: nat, x: Exec, result: Result<(), SchedulerError>, nowNanos: nat) returns (panicked: bool)
      requires S.Inv(View()) && Execs(View(), k) == [x]
      modifies this
      ensures S.Inv(View()) && View() == ReturnFuture(old(View()), k, 0, result, nowNanos)
      ensures panicked <==> Outcome(WithoutExec(old(View()), k, 0), k, x, result, nowNanos).None?
    {
      ReturnInv(View(), k, 0, result, nowNanos);
      OnlyExec(View(), k);
      running := running[k := []];
      assert View() == WithoutExec(old(View()), k, 0);
      panicked := false;
      match result {
        case Ok(_) =>
          if k !in pendingTasks {
            return true;
          }
          Complete(k, pendingTasks[k].(status := Completed(x.startedAt)));
        case Err(err) =>
          var task := x.task;
          if k in pendingTasks {
            task := task.(options := pendingTasks[k].options);
          }
          task := task.(options := task.options.(failures := task.options.failures + 1));
          if RetryAllowed(task, err, nowNanos) {
            revived := if k in pendingTasks then revived else revived[k := revived[k] + 1];
            pendingTasks := pendingTasks[k := Requeued(task, x.startedAt)];
          } else {
            if k !in pendingTasks {
              return true;
            }
            Complete(k, pendingTasks[k].(status := Failed(x.startedAt, err)));
          }
      }
    }

    /** Removes a finished task and calls the completion callback. */
    method Complete(k: nat, t: Task)
      modifies `pendingTasks, `reports
      ensures View() == Report(old(View()), k, t)
    {
      pendingTasks := pendingTasks - {k};
      reports := reports[k := At(reports, k) + [t]];
    }
  }
}
