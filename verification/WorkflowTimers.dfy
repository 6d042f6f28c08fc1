/// What a due timer does, and whom an escalation asks.

module WorkflowTimers {
  import opened Basics
  import opened Workflow
  import opened WorkflowInvariant
  import opened WorkflowOutcomes

  predicate IsOpen(db: Db, id: nat) { id < |db.tasks| && db.tasks[id].status == Pending && db.inst.approval.Some? }

  predicate EscalatesNow(task: Task, now: int) { task.escalateAt.Some? && task.escalateAt.value <= now }

  predicate RemindsNow(task: Task, now: int) { task.remindAt.Some? && task.remindAt.value <= now && !task.reminded }

  /// An open task escalates once its time has come; before that it is reminded of once.
  lemma {:induction false} TimerOutcome(db: Db, wf: Option<WorkflowDef>, id: nat, env: Env)
    ensures !IsOpen(db, id) ==> PlanTimer(db, wf, id, env).Nothing?
    ensures IsOpen(db, id) && !EscalatesNow(db.tasks[id], env.now) ==>
              PlanTimer(db, wf, id, env) == if RemindsNow(db.tasks[id], env.now) then Remind else Nothing
    ensures IsOpen(db, id) && EscalatesNow(db.tasks[id], env.now) ==>
              PlanTimer(db, wf, id, env) == PlanEscalate(db, wf, id, env)
  {
  }

  /// A reminder marks the task and leaves its timer for the escalation, the last one none.
  lemma {:induction false} RemindersDone(db: Db, id: nat)
    requires id < |db.tasks|
    ensures var task, after, last := db.tasks[id], Reminded(db, id), RemindedLast(db, id);
            && after.inst == db.inst && after.tasks == db.tasks[id := task.(reminded := true)]
            && (id in after.timers <==> task.escalateAt.Some?)
            && (task.escalateAt.Some? ==> after.timers[id] == task.escalateAt.value)
            && last.inst == db.inst && last.tasks == db.tasks[id := task.(reminded := true, escalateAt := None)]
            && id !in last.timers
            && forall k: nat :: k != id ==>
                 && (k in after.timers <==> k in db.timers) && (k in last.timers <==> k in db.timers)
                 && (k in db.timers ==> after.timers[k] == db.timers[k] && last.timers[k] == db.timers[k])
  {
  }

  // ---- escalations ----

  /// Escalated to: named for it, active, not the requester, and with nothing open at the level.
  predicate IsTarget(id: Id, db: Db, level: Level, env: Env) {
    && id in env.named(level.escalateTo) && id in env.active && id != db.inst.requester
    && forall k :: 0 <= k < |db.tasks| && db.tasks[k].status == Pending && db.tasks[k].level == level.key ==>
         db.tasks[k].assignee != id
  }

  /// One open task for each of them, with a time to remind and none to escalate.
  ghost predicate HandedOn(tasks: seq<Task>, db: Db, level: Level, env: Env) {
    && (forall k :: 0 <= k < |tasks| ==>
          && IsTarget(tasks[k].assignee, db, level, env)
          && tasks[k] == Task(level.key, level.mode, tasks[k].assignee, Pending, Time(level.remindAfter, env),
                              None, false, None))
    && (forall j, k :: 0 <= j < k < |tasks| ==> tasks[j].assignee != tasks[k].assignee)
    && (forall id :: IsTarget(id, db, level, env) ==> exists k :: 0 <= k < |tasks| && tasks[k].assignee == id)
  }

  lemma {:induction false} TargetsAre(db: Db, level: Level, env: Env)
    ensures forall id :: id in EscalationTargets(db, level, env) <==> IsTarget(id, db, level, env)
  {
    forall id ensures id in PendingAssignees(db.tasks, level.key) <==>
      exists k :: 0 <= k < |db.tasks| && db.tasks[k].status == Pending && db.tasks[k].level == level.key
                  && db.tasks[k].assignee == id
    {
    }
  }

  lemma {:induction false} HandedToTargets(db: Db, level: Level, env: Env)
    ensures HandedOn(NewTasks(Some(Start(level.(escalateAfter := None), EscalationTargets(db, level, env))), env), db, level, env)
  {
    var ids := EscalationTargets(db, level, env);
    var tasks := NewTasks(Some(Start(level.(escalateAfter := None), ids)), env);
    TargetsAre(db, level, env);
    forall k | 0 <= k < |tasks| ensures tasks[k].assignee == ids[k] && ids[k] in ids {}
    forall id | IsTarget(id, db, level, env) ensures exists k :: 0 <= k < |tasks| && tasks[k].assignee == id {
      var k :| 0 <= k < |ids| && ids[k] == id;
      assert tasks[k].assignee == id;
    }
  }

  function AsEscalated(task: Task): Task { task.(status := Escalated, decidedBy := Some(SYSTEM)) }

  /// One more entry in the history, by the system, in the same state.
  predicate LoggedEscalation(before: Instance, after: Instance, level: string) {
    && after == before.(approval := after.approval, version := before.version + 1,
         history := before.history + [Entry(SYSTEM, None, "escalate", before.state, before.state, Some(level))])
  }

  /// A task handed over is closed, its targets are asked, and all else stays.
  lemma {:induction false} HandOverDone(db: Db, wf: Option<WorkflowDef>, id: nat, level: Level, env: Env)
    requires Inv(db) && IsOpen(db, id) && PlanEscalate(db, wf, id, env).Escalate?
    requires wf.Some? && LevelDef(wf.value, db.inst.approval.value, db.tasks[id].level) == Some(level) && level.escalateTo != []
    ensures var after := Commit(db, PlanEscalate(db, wf, id, env).plan, env);
            && LoggedEscalation(db.inst, after.inst, level.key) && after.inst.approval == db.inst.approval
            && |after.tasks| >= |db.tasks| && after.tasks[..|db.tasks|] == db.tasks[id := AsEscalated(db.tasks[id])]
            && HandedOn(after.tasks[|db.tasks|..], db, level, env)
  {
    var plan := PlanEscalate(db, wf, id, env).plan;
    assert plan == EscalateToPlan(db.inst, id, level, EscalationTargets(db, level, env));
    HandedToTargets(db, level, env);
    var after := Commit(db, plan, env);
    assert after.tasks[|db.tasks|..] == NewTasks(plan.start, env);
  }

  /// A level left behind has its open tasks closed, and the next one starts.
  lemma {:induction false} SkipDone(db: Db, wf: Option<WorkflowDef>, id: nat, env: Env) returns (j: nat)
    requires Inv(db) && IsOpen(db, id) && PlanEscalate(db, wf, id, env).Escalate?
    requires wf.Some?
    requires var level := LevelDef(wf.value, db.inst.approval.value, db.tasks[id].level);
             level.None? || level.value.escalateTo == []
    ensures var after, run, n := Commit(db, PlanEscalate(db, wf, id, env).plan, env), db.inst.approval.value, |db.tasks|;
            && LoggedEscalation(db.inst, after.inst, db.tasks[id].level)
            && NextConfigured(wf.value, run, j) && after.inst.approval == Some(run.(current := j))
            && |after.tasks| >= n
            && (forall k :: 0 <= k < n ==>
                  after.tasks[k] == if db.tasks[k].status == Pending then AsEscalated(db.tasks[k]) else db.tasks[k])
            && LevelStarted(after.tasks[n..], LevelDef(wf.value, run, run.levels[j]).value, db.inst.requester, env)
  {
    var run := db.inst.approval.value;
    j := NextLevelIs(wf.value, run, db.inst.requester, env);
    SkipPlanned(db, wf.value, id, env, NextLevel(wf.value, run, run.current + 1, db.inst.requester, env));
    SkipCommitted(db, id, j, LevelDef(wf.value, run, run.levels[j]).value, PlanEscalate(db, wf, id, env).plan, env);
  }

  lemma {:induction false} SkipCommitted(db: Db, id: nat, j: nat, level: Level, plan: Plan, env: Env)
    requires Inv(db) && IsOpen(db, id)
    requires plan == SkipPlan(db.inst, db.inst.approval.value, db.tasks[id].level,
                              Next(j, level, ApproversFor(level, db.inst.requester, env)))
    ensures var after, n := Commit(db, plan, env), |db.tasks|;
            && LoggedEscalation(db.inst, after.inst, db.tasks[id].level)
            && after.inst.approval == Some(db.inst.approval.value.(current := j))
            && |after.tasks| >= n
            && (forall k :: 0 <= k < n ==>
                  after.tasks[k] == if db.tasks[k].status == Pending then AsEscalated(db.tasks[k]) else db.tasks[k])
            && LevelStarted(after.tasks[n..], level, db.inst.requester, env)
  {
    StartedForAsked(level, db.inst.requester, env);
    SkipTasks(db, plan, id, env);
  }

  lemma {:induction false} SkipPlanned(db: Db, wf: WorkflowDef, id: nat, env: Env, next: Next)
    requires Inv(db) && IsOpen(db, id) && PlanEscalate(db, Some(wf), id, env).Escalate?
    requires var level := LevelDef(wf, db.inst.approval.value, db.tasks[id].level);
             level.None? || level.value.escalateTo == []
    requires next == NextLevel(wf, db.inst.approval.value, db.inst.approval.value.current + 1, db.inst.requester, env)
    ensures next.Next?
    ensures PlanEscalate(db, Some(wf), id, env).plan == SkipPlan(db.inst, db.inst.approval.value, db.tasks[id].level, next)
  {
  }

  lemma {:induction false} SkipTasks(db: Db, plan: Plan, id: nat, env: Env)
    requires Inv(db) && IsOpen(db, id) && plan.decision.None? && plan.close == CloseLevel(db.tasks[id].level, Escalated)
    ensures var after := TasksAfter(db.tasks, plan, env);
            && |after| >= |db.tasks| && after[|db.tasks|..] == NewTasks(plan.start, env)
            && forall k :: 0 <= k < |db.tasks| ==>
                 after[k] == if db.tasks[k].status == Pending then AsEscalated(db.tasks[k]) else db.tasks[k]
  {
  }
}
