/// What every workflow operation keeps, and when an approval run moves on.

module WorkflowInvariant {
  import opened Basics
  import opened Workflow

  // ---- the invariant ----

  predicate IsPending(tasks: seq<Task>, k: nat) { k < |tasks| && tasks[k].status == Pending }

  ghost predicate NonePending(tasks: seq<Task>) { forall k :: 0 <= k < |tasks| ==> tasks[k].status != Pending }

  /// Pending tasks belong to one level, are for different people, and none is for `requester`.
  ghost predicate PendingAt(tasks: seq<Task>, level: string, requester: Id) {
    && (forall k :: 0 <= k < |tasks| && tasks[k].status == Pending ==>
          tasks[k].level == level && tasks[k].assignee != requester)
    && (forall j, k :: 0 <= j < k < |tasks| && tasks[j].status == Pending && tasks[k].status == Pending ==>
          tasks[j].assignee != tasks[k].assignee)
  }

  /// There are pending tasks exactly when an approval runs, and they are those of its level.
  ghost predicate TasksFit(inst: Instance, tasks: seq<Task>) {
    match inst.approval
    case None => NonePending(tasks)
    case Some(run) =>
      && run.current < |run.levels| && inst.state == Some(run.pendingState)
      && !NonePending(tasks) && PendingAt(tasks, run.levels[run.current], inst.requester)
  }

  /// The history has one entry per version, each starting where the one before ended, the
  /// last ending in the state; the requester decided nothing.
  ghost predicate HistoryFits(inst: Instance) {
    && inst.version == |inst.history| && (inst.approval.Some? ==> inst.history != [])
    && (forall i :: 0 < i < |inst.history| ==> inst.history[i].from == inst.history[i - 1].to)
    && (inst.history != [] ==> inst.state.Some? && inst.history[|inst.history| - 1].to == inst.state)
    && (forall e :: e in inst.history && e.level.Some? && e.action != "escalate" ==> e.who != inst.requester)
  }

  /// Without a waiting copy the record has the state; a waiting copy leads to the state.
  ghost predicate SyncFits(db: Db) {
    match db.inst.sync
    case None => db.recordStatus == db.inst.state
    case Some(sync) => db.inst.state == Some(sync.to) && db.syncJob
  }

  ghost predicate TimersFit(db: Db) { forall k :: k in db.timers ==> IsPending(db.tasks, k) }

  ghost predicate Inv(db: Db) {
    TasksFit(db.inst, db.tasks) && HistoryFits(db.inst) && SyncFits(db) && TimersFit(db)
  }

  /// The instance made for a record on first use.
  function NewDb(requester: Id, status: Option<string>): Db {
    Db(Instance(requester, status, None, [], None, 0), [], map[], false, status)
  }

  lemma NewDbFits(requester: Id, status: Option<string>)
    ensures Inv(NewDb(requester, status))
  {
  }

  // ---- parts of a commit ----

  predicate IsClosing(close: Close) { close.CloseNone? || close.status == Cancelled || close.status == Escalated }

  /// A plan's entry continues the history and its state change names its copy.
  ghost predicate EntryFits(inst: Instance, plan: Plan) {
    && (inst.history != [] ==> plan.entry.from == inst.state)
    && plan.entry.to.Some? && plan.entry.to == (if plan.change.Move? then Some(plan.change.state) else inst.state)
    && (plan.entry.level.Some? && plan.entry.action != "escalate" ==> plan.entry.who != inst.requester)
    && (plan.change.Move? ==> plan.change.sync.to == plan.change.state)
    && IsClosing(plan.close) && (plan.decision.Some? ==> plan.decision.value.status != Pending)
  }

  lemma CommitKeeps(db: Db, plan: Plan, env: Env)
    requires Inv(db) && EntryFits(db.inst, plan)
    requires TasksFit(InstanceAfter(db.inst, plan), TasksAfter(db.tasks, plan, env))
    ensures Inv(Commit(db, plan, env))
  {
    HistoryGrows(db.inst, plan);
    TimersKept(db, plan, env);
  }

  lemma HistoryGrows(inst: Instance, plan: Plan)
    requires HistoryFits(inst) && EntryFits(inst, plan)
    ensures HistoryFits(InstanceAfter(inst, plan))
  {
    var next := InstanceAfter(inst, plan);
    assert next.history == inst.history + [plan.entry];
  }

  lemma TimersKept(db: Db, plan: Plan, env: Env)
    requires TimersFit(db) && IsClosing(plan.close)
    requires plan.decision.Some? ==> plan.decision.value.status != Pending
    ensures TimersFit(Commit(db, plan, env))
  {
    var after := Commit(db, plan, env);
    forall k | k in after.timers ensures IsPending(after.tasks, k) {
      if k < |db.tasks| {
        assert k in db.timers && IsPending(db.tasks, k);
        assert Decided(db.tasks, plan.decision)[k] == db.tasks[k];
      }
    }
  }

  lemma NoneLeft(tasks: seq<Task>, close: Close)
    requires close.CloseAll? || (close.CloseLevel? && forall k :: 0 <= k < |tasks| && tasks[k].status == Pending ==> tasks[k].level == close.level)
    requires IsClosing(close)
    ensures NonePending(Closed(tasks, close))
  {
  }

  lemma DecidedFits(tasks: seq<Task>, d: Option<Decision>, level: string, requester: Id)
    requires PendingAt(tasks, level, requester) && (d.Some? ==> d.value.status != Pending)
    ensures PendingAt(Decided(tasks, d), level, requester)
  {
  }

  /// A level starts when nothing else is pending.
  lemma LevelStarts(closed: seq<Task>, start: Start, requester: Id, env: Env)
    requires NonePending(closed) && start.assignees != [] && NoRepeats(start.assignees)
    requires requester !in start.assignees
    ensures PendingAt(closed + NewTasks(Some(start), env), start.level.key, requester)
    ensures !NonePending(closed + NewTasks(Some(start), env))
  {
    var tasks := closed + NewTasks(Some(start), env);
    var n := |closed|;
    forall k | 0 <= k < |tasks| && tasks[k].status == Pending
      ensures k >= n && tasks[k] == NewTask(start.level, start.assignees[k - n], env)
    {
    }
    assert tasks[n] == NewTask(start.level, start.assignees[0], env);
  }

  lemma NothingStarts(closed: seq<Task>, env: Env)
    requires NonePending(closed)
    ensures NonePending(closed + NewTasks(None, env))
  {
  }

  // ---- every operation keeps it ----

  lemma ActKeeps(db: Db, wf: WorkflowDef, key: string, user: Option<Id>, hasComment: bool, env: Env)
    requires Inv(db) && PlanAct(db, wf, key, user, hasComment, env).Ok?
    ensures Inv(Commit(db, PlanAct(db, wf, key, user, hasComment, env).value, env))
  {
    var plan := PlanAct(db, wf, key, user, hasComment, env).value;
    ActTasksFit(db, plan, env);
    CommitKeeps(db, plan, env);
  }

  lemma ActTasksFit(db: Db, plan: Plan, env: Env)
    requires TasksFit(db.inst, db.tasks) && plan.change.Move? && plan.decision.None?
    requires plan.close == if db.inst.approval.Some? then CloseAll(Cancelled) else CloseNone
    requires plan.start.Some? <==> plan.change.approval.Some?
    requires plan.start.Some? ==>
               var s, run := plan.start.value, plan.change.approval.value;
               && s.assignees != [] && NoRepeats(s.assignees) && db.inst.requester !in s.assignees
               && run.current < |run.levels| && run.levels[run.current] == s.level.key
               && run.pendingState == plan.change.state
    ensures TasksFit(InstanceAfter(db.inst, plan), TasksAfter(db.tasks, plan, env))
  {
    var closed := Closed(db.tasks, plan.close);
    if db.inst.approval.Some? { NoneLeft(db.tasks, plan.close); }
    if plan.start.Some? {
      LevelStarts(closed, plan.start.value, db.inst.requester, env);
    } else {
      NothingStarts(closed, env);
    }
  }

  lemma DecideKeeps(db: Db, wf: Option<WorkflowDef>, id: nat, me: Id, approve: bool, env: Env)
    requires Inv(db) && PlanDecide(db, wf, id, me, approve, env).Ok?
    ensures Inv(Commit(db, PlanDecide(db, wf, id, me, approve, env).value, env))
  {
    var plan := PlanDecide(db, wf, id, me, approve, env).value;
    var run := db.inst.approval.value;
    var decided := Decided(db.tasks, plan.decision);
    DecidedFits(db.tasks, plan.decision, run.levels[run.current], db.inst.requester);
    if plan.change.Stay? {
      StayFits(db, plan, id, env);
    } else {
      NoneLeft(decided, plan.close);
      if plan.start.Some? {
        LevelStarts(Closed(decided, plan.close), plan.start.value, db.inst.requester, env);
      } else {
        NothingStarts(Closed(decided, plan.close), env);
      }
    }
    CommitKeeps(db, plan, env);
  }

  /// One of several approvals of an all-must-approve level.
  lemma StayFits(db: Db, plan: Plan, id: nat, env: Env)
    requires Inv(db) && db.inst.approval.Some? && IsPending(db.tasks, id)
    requires plan.change.Stay? && plan.close.CloseNone? && plan.start.None?
    requires plan.decision.Some? && plan.decision.value.task == id && plan.decision.value.status != Pending
    requires OthersPending(db.tasks, id, db.tasks[id].level)
    ensures TasksFit(InstanceAfter(db.inst, plan), TasksAfter(db.tasks, plan, env))
  {
    var run := db.inst.approval.value;
    var decided := Decided(db.tasks, plan.decision);
    DecidedFits(db.tasks, plan.decision, run.levels[run.current], db.inst.requester);
    assert Closed(decided, CloseNone) == decided;
    assert TasksAfter(db.tasks, plan, env) == decided;
    var other :| 0 <= other < |db.tasks| && other != id && db.tasks[other].status == Pending;
    assert decided[other].status == Pending;
  }

  lemma EscalateKeeps(db: Db, wf: Option<WorkflowDef>, id: nat, env: Env)
    requires Inv(db) && IsPending(db.tasks, id) && db.inst.approval.Some?
    requires PlanEscalate(db, wf, id, env).Escalate?
    ensures Inv(Commit(db, PlanEscalate(db, wf, id, env).plan, env))
  {
    var plan := PlanEscalate(db, wf, id, env).plan;
    if plan.change.Stay? {
      HandedOver(db, plan, id, env);
    } else {
      NoneLeft(db.tasks, plan.close);
      LevelStarts(Closed(db.tasks, plan.close), plan.start.value, db.inst.requester, env);
    }
    CommitKeeps(db, plan, env);
  }

  /// An approval task goes to people who do not have one yet.
  lemma HandedOver(db: Db, plan: Plan, id: nat, env: Env)
    requires Inv(db) && db.inst.approval.Some? && IsPending(db.tasks, id)
    requires plan.change.Stay? && plan.close.CloseNone? && plan.start.Some?
    requires plan.decision == Some(Decision(id, Escalated, SYSTEM))
    requires var s := plan.start.value;
             && s.assignees != [] && NoRepeats(s.assignees) && db.inst.requester !in s.assignees
             && s.level.key == db.tasks[id].level
             && forall a :: a in s.assignees ==> a !in PendingAssignees(db.tasks, s.level.key)
    ensures TasksFit(InstanceAfter(db.inst, plan), TasksAfter(db.tasks, plan, env))
  {
    var run, s := db.inst.approval.value, plan.start.value;
    var level := run.levels[run.current];
    var decided := Decided(db.tasks, plan.decision);
    DecidedFits(db.tasks, plan.decision, level, db.inst.requester);
    assert Closed(decided, CloseNone) == decided;
    assert TasksAfter(db.tasks, plan, env) == decided + NewTasks(plan.start, env);
    forall k | 0 <= k < |decided| && decided[k].status == Pending ensures decided[k].assignee !in s.assignees {
      assert db.tasks[k] == decided[k] && decided[k].assignee in PendingAssignees(db.tasks, level);
    }
    AddedAt(decided, s, level, db.inst.requester, env);
  }

  lemma AddedAt(tasks: seq<Task>, s: Start, level: string, requester: Id, env: Env)
    requires PendingAt(tasks, level, requester) && s.level.key == level
    requires s.assignees != [] && NoRepeats(s.assignees) && requester !in s.assignees
    requires forall k :: 0 <= k < |tasks| && tasks[k].status == Pending ==> tasks[k].assignee !in s.assignees
    ensures PendingAt(tasks + NewTasks(Some(s), env), level, requester)
    ensures !NonePending(tasks + NewTasks(Some(s), env))
  {
    var all := tasks + NewTasks(Some(s), env);
    var n := |tasks|;
    forall k | n <= k < |all| ensures all[k] == NewTask(s.level, s.assignees[k - n], env) {
    }
    forall j, k | 0 <= j < k < |all| && all[j].status == Pending && all[k].status == Pending
      ensures all[j].assignee != all[k].assignee
    {
      if k >= n {
        assert all[k].assignee in s.assignees;
      }
    }
    assert all[n].status == Pending;
  }

  lemma RemindKeeps(db: Db, id: nat)
    requires Inv(db) && IsPending(db.tasks, id)
    ensures Inv(Reminded(db, id)) && Inv(RemindedLast(db, id))
  {
    RemarkedFits(db.inst, db.tasks, id, db.tasks[id].(reminded := true));
    RemarkedFits(db.inst, db.tasks, id, db.tasks[id].(reminded := true, escalateAt := None));
  }

  lemma RemarkedFits(inst: Instance, tasks: seq<Task>, id: nat, task: Task)
    requires TasksFit(inst, tasks) && id < |tasks|
    requires task.level == tasks[id].level && task.assignee == tasks[id].assignee && task.status == tasks[id].status
    ensures TasksFit(inst, tasks[id := task])
  {
    var now := tasks[id := task];
    forall k | 0 <= k < |tasks|
      ensures now[k].status == tasks[k].status && now[k].level == tasks[k].level && now[k].assignee == tasks[k].assignee
    {
    }
    if inst.approval.Some? {
      var k :| 0 <= k < |tasks| && tasks[k].status == Pending;
      assert now[k].status == Pending;
    }
  }

  lemma PushKeeps(db: Db, call: Call)
    requires Inv(db)
    ensures Inv(PushStatus(db, call).db)
  {
  }

  // ---- when a run moves on ----

  /// The levels passed over are no longer in the configuration.
  lemma {:induction false} SkippedAreGone(wf: WorkflowDef, run: ApprovalRun, from: nat, requester: Id, env: Env, k: nat)
    requires from <= k < |run.levels|
    requires var n := NextLevel(wf, run, from, requester, env);
             n.NoMore? || (n.Next? && k < n.index)
    ensures LevelDef(wf, run, run.levels[k]).None?
    decreases |run.levels| - from
  {
    if from < k { SkippedAreGone(wf, run, from + 1, requester, env, k); }
  }

  lemma {:induction false} NextIsConfigured(wf: WorkflowDef, run: ApprovalRun, from: nat, requester: Id, env: Env)
    requires NextLevel(wf, run, from, requester, env).Next?
    ensures var n := NextLevel(wf, run, from, requester, env);
            LevelDef(wf, run, run.levels[n.index]) == Some(n.level)
    decreases |run.levels| - from
  {
    if LevelDef(wf, run, run.levels[from]).None? { NextIsConfigured(wf, run, from + 1, requester, env); }
  }

  /// A decision completes its level: anyone may, or everyone else has decided.
  ghost predicate Completes(db: Db, id: nat)
    requires id < |db.tasks|
  {
    || db.tasks[id].mode == AnyOf
    || forall k :: 0 <= k < |db.tasks| && k != id ==> db.tasks[k].status != Pending
  }

  /// The run moves on to the first later level that is still in the configuration.
  ghost predicate MovesOn(wf: WorkflowDef, run: ApprovalRun, after: Option<ApprovalRun>) {
    && after.Some? && run.current < after.value.current < |run.levels|
    && after == Some(run.(current := after.value.current))
    && LevelDef(wf, run, run.levels[after.value.current]).Some?
    && forall k :: run.current < k < after.value.current ==> LevelDef(wf, run, run.levels[k]).None?
  }

  /// No later level is in the configuration.
  ghost predicate AtLastLevel(wf: WorkflowDef, run: ApprovalRun) {
    forall k :: run.current < k < |run.levels| ==> LevelDef(wf, run, run.levels[k]).None?
  }

  /// A decision that does not complete its level leaves the run as it is; only others than
  /// the requester decide.
  lemma PartialApproval(db: Db, wf: Option<WorkflowDef>, id: nat, me: Id, env: Env)
    requires Inv(db) && PlanDecide(db, wf, id, me, true, env).Ok? && !Completes(db, id)
    ensures var after := Commit(db, PlanDecide(db, wf, id, me, true, env).value, env).inst;
            me != db.inst.requester && after.approval == db.inst.approval && after.state == db.inst.state
  {
    var k :| 0 <= k < |db.tasks| && k != id && db.tasks[k].status == Pending;
    assert db.tasks[k].level == db.tasks[id].level;
    assert OthersPending(db.tasks, id, db.tasks[id].level);
  }

  /// An approval that completes its level starts the next configured level, and approves the
  /// request exactly when no later level is configured.
  lemma CompletingApproval(db: Db, wf: Option<WorkflowDef>, id: nat, me: Id, env: Env)
    requires Inv(db) && PlanDecide(db, wf, id, me, true, env).Ok? && Completes(db, id)
    ensures var after := Commit(db, PlanDecide(db, wf, id, me, true, env).value, env).inst;
            var run := db.inst.approval.value;
            && me != db.inst.requester
            && if AtLastLevel(wf.value, run) then after.approval.None? && after.state == Some(run.approvedState)
               else MovesOn(wf.value, run, after.approval) && after.state == db.inst.state
  {
    var run := db.inst.approval.value;
    AfterCompletion(wf.value, run, db.inst.requester, env);
    CompletionChange(db, wf, id, me, env, run);
  }

  lemma CompletionChange(db: Db, wf: Option<WorkflowDef>, id: nat, me: Id, env: Env, run: ApprovalRun)
    requires Inv(db) && db.inst.approval == Some(run)
    requires PlanDecide(db, wf, id, me, true, env).Ok? && Completes(db, id)
    ensures me != db.inst.requester && wf.Some?
    ensures var n := NextLevel(wf.value, run, run.current + 1, db.inst.requester, env);
            var change := PlanDecide(db, wf, id, me, true, env).value.change;
            if n.Next? then change == Advance(run.(current := n.index))
            else n.NoMore? && change.Move? && change.approval.None? && change.state == run.approvedState
  {
    assert db.tasks[id].mode == AnyOf || !OthersPending(db.tasks, id, db.tasks[id].level);
  }

  lemma Rejection(db: Db, wf: Option<WorkflowDef>, id: nat, me: Id, env: Env)
    requires Inv(db) && PlanDecide(db, wf, id, me, false, env).Ok?
    ensures var after := Commit(db, PlanDecide(db, wf, id, me, false, env).value, env);
            && me != db.inst.requester && after.inst.approval.None? && NonePending(after.tasks)
            && after.inst.state == Some(db.inst.approval.value.rejectedState)
            && after.tasks[id].status == Rejected
  {
    DecideKeeps(db, wf, id, me, false, env);
  }

  lemma AfterCompletion(wf: WorkflowDef, run: ApprovalRun, requester: Id, env: Env)
    ensures var n := NextLevel(wf, run, run.current + 1, requester, env);
            && (n.Next? ==> MovesOn(wf, run, Some(run.(current := n.index))) && !AtLastLevel(wf, run))
            && (n.NoMore? ==> AtLastLevel(wf, run))
  {
    var n := NextLevel(wf, run, run.current + 1, requester, env);
    if n.Next? { NextIsConfigured(wf, run, run.current + 1, requester, env); }
    forall k | run.current < k < |run.levels| && (n.NoMore? || (n.Next? && k < n.index))
      ensures LevelDef(wf, run, run.levels[k]).None?
    {
      SkippedAreGone(wf, run, run.current + 1, requester, env, k);
    }
  }

  /// An escalation leaves the level only when the level is gone or names nobody to escalate
  /// to; it never ends the run, and a level that names somebody keeps its place.
  lemma EscalationMovesRun(db: Db, wf: Option<WorkflowDef>, id: nat, env: Env)
    requires Inv(db) && IsPending(db.tasks, id) && db.inst.approval.Some?
    requires PlanEscalate(db, wf, id, env).Escalate?
    ensures var after := Commit(db, PlanEscalate(db, wf, id, env).plan, env).inst;
            var run := db.inst.approval.value;
            var level := LevelDef(wf.value, run, run.levels[run.current]);
            && wf.Some? && after.state == db.inst.state
            && if level.Some? && level.value.escalateTo != [] then after.approval == Some(run)
               else MovesOn(wf.value, run, after.approval)
  {
    var run := db.inst.approval.value;
    AfterCompletion(wf.value, run, db.inst.requester, env);
    EscalationChange(db, wf, id, env, run);
  }

  lemma EscalationChange(db: Db, wf: Option<WorkflowDef>, id: nat, env: Env, run: ApprovalRun)
    requires Inv(db) && IsPending(db.tasks, id) && db.inst.approval == Some(run)
    requires PlanEscalate(db, wf, id, env).Escalate?
    ensures wf.Some?
    ensures var level := LevelDef(wf.value, run, run.levels[run.current]);
            var change := PlanEscalate(db, wf, id, env).plan.change;
            if level.Some? && level.value.escalateTo != [] then change.Stay?
            else
              var n := NextLevel(wf.value, run, run.current + 1, db.inst.requester, env);
              n.Next? && change == Advance(run.(current := n.index))
  {
  }
}
