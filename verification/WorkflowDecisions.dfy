/// Who decides and what a decision does, over every step and every run.

module WorkflowDecisions {
  import opened Basics
  import opened Workflow
  import opened WorkflowInvariant
  import opened WorkflowOutcomes
  import opened WorkflowRuns

  predicate IsDecided(task: Task) { task.status == Approved || task.status == Rejected }

  /// Between the two states task `k` was approved or rejected.
  predicate Turned(before: Db, after: Db, k: nat) {
    && k < |before.tasks| && k < |after.tasks|
    && !IsDecided(before.tasks[k]) && IsDecided(after.tasks[k])
  }

  // ---- single plans ----

  lemma {:induction false} PlannedDecision(db: Db, wf: Option<WorkflowDef>, id: nat, me: Id, approve: bool, env: Env)
    requires PlanDecide(db, wf, id, me, approve, env).Ok?
    ensures IsPending(db.tasks, id) && MayDecide(db.tasks[id], me, env) && me != db.inst.requester
    ensures var plan := PlanDecide(db, wf, id, me, approve, env).value;
            && plan.decision == Some(Decision(id, if approve then Approved else Rejected, me))
            && IsClosing(plan.close) && Tells(plan.entry, db.tasks[id], me, approve)
  {
  }

  lemma {:induction false} ActDecidesNothing(db: Db, wf: WorkflowDef, key: string, user: Option<Id>, hasComment: bool, env: Env)
    requires PlanAct(db, wf, key, user, hasComment, env).Ok?
    ensures var plan := PlanAct(db, wf, key, user, hasComment, env).value;
            plan.decision.None? && IsClosing(plan.close)
  {
  }

  lemma {:induction false} EscalationDecidesNothing(db: Db, wf: Option<WorkflowDef>, id: nat, env: Env)
    requires IsPending(db.tasks, id) && db.inst.approval.Some? && PlanEscalate(db, wf, id, env).Escalate?
    ensures var plan := PlanEscalate(db, wf, id, env).plan;
            (plan.decision.Some? ==> plan.decision.value.status == Escalated) && IsClosing(plan.close)
  {
  }

  /// A commit leaves each task with its people and its level, and decides the one its plan names.
  lemma {:induction false} TaskAfterCommit(db: Db, plan: Plan, env: Env, k: nat)
    requires k < |db.tasks| && IsClosing(plan.close)
    ensures var after := Commit(db, plan, env);
            && k < |after.tasks|
            && after.tasks[k].assignee == db.tasks[k].assignee && after.tasks[k].level == db.tasks[k].level
            && (Turned(db, after, k) ==>
                  && db.tasks[k].status == Pending && plan.decision.Some? && plan.decision.value.task == k
                  && after.tasks[k]
                     == db.tasks[k].(status := plan.decision.value.status, decidedBy := Some(plan.decision.value.who)))
            && (IsDecided(db.tasks[k]) ==> after.tasks[k] == db.tasks[k])
  {
  }

  // ---- steps ----

  /// A task is approved or rejected only by a decision of somebody who may decide it and is
  /// not the requester, and the history says who, at which level and for whom.
  lemma {:induction false} OnlyTheAskedDecide(w: World, s: Step, k: nat)
    requires WorldFits(w) && Turned(w.db, Apply(w, s).db, k)
    ensures s.Attempt? && s.intent.Decide? && s.intent.task == k
    ensures var task, me, approve, after := w.db.tasks[k], s.intent.me, s.intent.approve, Apply(w, s).db;
            && task.status == Pending && MayDecide(task, me, s.env) && me != w.db.inst.requester
            && after.tasks[k] == DecidedTask(task, me, approve)
            && |after.inst.history| == |w.db.inst.history| + 1
            && Tells(after.inst.history[|w.db.inst.history|], task, me, approve)
  {
    match s
    case Attempt(c, intent, env) =>
      SamePlan(w.seen[c], w.db, intent, env);
      TaskAfterIntent(w.db, intent, env, k);
    case Push(call) => PushLeavesTasks(w.db, call);
    case _ =>
  }

  lemma {:induction false} PushLeavesTasks(db: Db, call: Call)
    ensures PushStatus(db, call).db.tasks == db.tasks
  {
  }

  lemma {:induction false} TaskAfterIntent(db: Db, intent: Intent, env: Env, k: nat)
    requires PlanOf(db, intent, env).Ok? && k < |db.tasks|
    ensures var plan := PlanOf(db, intent, env).value;
            var after := Commit(db, plan, env);
            && k < |after.tasks|
            && after.tasks[k].assignee == db.tasks[k].assignee
            && (IsDecided(db.tasks[k]) ==> after.tasks[k] == db.tasks[k])
            && (Turned(db, after, k) ==>
                  && intent.Decide? && intent.task == k
                  && db.tasks[k].status == Pending && MayDecide(db.tasks[k], intent.me, env)
                  && intent.me != db.inst.requester
                  && after.tasks[k] == DecidedTask(db.tasks[k], intent.me, intent.approve)
                  && after.inst.history == db.inst.history + [plan.entry]
                  && Tells(plan.entry, db.tasks[k], intent.me, intent.approve))
  {
    match intent
    case Act(wf, key, user, hasComment) => ActDecidesNothing(db, wf, key, user, hasComment, env);
    case Decide(wf, id, me, approve) => PlannedDecision(db, wf, id, me, approve, env);
    case Escalation(wf, id) => EscalationDecidesNothing(db, wf, id, env);
    TaskAfterCommit(db, PlanOf(db, intent, env).value, env, k);
  }

  /// A step keeps every task with its assignee and level, a decided one as it is, and makes
  /// no task that is decided.
  lemma {:induction false} StepKeepsTasks(w: World, s: Step, k: nat)
    requires WorldFits(w) && k < |Apply(w, s).db.tasks|
    ensures k < |w.db.tasks| && IsDecided(w.db.tasks[k]) ==> Apply(w, s).db.tasks[k] == w.db.tasks[k]
    ensures k >= |w.db.tasks| ==> !IsDecided(Apply(w, s).db.tasks[k])
  {
    match s
    case Attempt(c, intent, env) =>
      if Commits(w, c, intent, env) {
        SamePlan(w.seen[c], w.db, intent, env);
        if k < |w.db.tasks| { TaskAfterIntent(w.db, intent, env, k); } else { NewArePending(w.db, intent, env, k); }
      }
    case Push(call) => PushLeavesTasks(w.db, call);
    case _ =>
  }

  lemma {:induction false} NewArePending(db: Db, intent: Intent, env: Env, k: nat)
    requires PlanOf(db, intent, env).Ok?
    requires |db.tasks| <= k < |Commit(db, PlanOf(db, intent, env).value, env).tasks|
    ensures Commit(db, PlanOf(db, intent, env).value, env).tasks[k].status == Pending
  {
  }

  // ---- runs ----

  /// Step `i` decided the task and entry `p` of the history tells of it.
  predicate DecidesAt(steps: seq<Step>, i: nat, history: seq<Entry>, p: nat, task: Task, k: nat, requester: Id) {
    && i < |steps| && p < |history| && steps[i].Attempt? && steps[i].intent.Decide? && steps[i].intent.task == k
    && var me, approve := steps[i].intent.me, steps[i].intent.approve;
       && MayDecide(task, me, steps[i].env) && me != requester && task.decidedBy == Some(me)
       && task.status == (if approve then Approved else Rejected) && Tells(history[p], task, me, approve)
  }

  /// In every run, whatever is approved or rejected was decided by a person asked at the time,
  /// or standing in for one, and not by the requester; and the history tells of it.
  lemma {:induction false} EveryDecision(requester: Id, status: Option<string>, steps: seq<Step>, k: nat)
    returns (i: nat, p: nat)
    requires var db := After(World(NewDb(requester, status), map[]), steps).db;
             k < |db.tasks| && IsDecided(db.tasks[k])
    ensures var db := After(World(NewDb(requester, status), map[]), steps).db;
            DecidesAt(steps, i, db.inst.history, p, db.tasks[k], k, requester)
  {
    var w := World(NewDb(requester, status), map[]);
    NewDbFits(requester, status);
    RunKeeps(w, steps);
    if steps != [] {
      var before, s := steps[..|steps| - 1], steps[|steps| - 1];
      var b, a := After(w, before), After(w, steps);
      RunKeeps(w, before);
      StepKeeps(b, s);
      StepKeepsTasks(b, s, k);
      SameRequester(requester, status, before);
      if k < |b.db.tasks| && IsDecided(b.db.tasks[k]) {
        i, p := EveryDecision(requester, status, before, k);
        assert a.db.inst.history[p] == b.db.inst.history[p];
      } else {
        OnlyTheAskedDecide(b, s, k);
        i, p := |steps| - 1, |b.db.inst.history|;
      }
    }
  }

  lemma {:induction false} SameRequester(requester: Id, status: Option<string>, steps: seq<Step>)
    ensures After(World(NewDb(requester, status), map[]), steps).db.inst.requester == requester
  {
    if steps != [] { SameRequester(requester, status, steps[..|steps| - 1]); }
  }
}
