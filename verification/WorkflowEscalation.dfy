/// Escalations: what they lead to, and what becomes of one that is committed on later data
/// than it was planned on.

module WorkflowEscalation {
  import opened Basics
  import opened Workflow
  import opened WorkflowInvariant
  import opened WorkflowRuns

  // ---- outcomes ----

  /// The level as configured now, and the people it escalates to who have nothing to decide yet.
  function LevelOf(db: Db, wf: Option<WorkflowDef>): Option<Level>
    requires Inv(db) && db.inst.approval.Some?
  {
    var run := db.inst.approval.value;
    if wf.Some? then LevelDef(wf.value, run, run.levels[run.current]) else None
  }

  ghost predicate HasTargets(db: Db, wf: Option<WorkflowDef>, env: Env)
    requires Inv(db) && db.inst.approval.Some?
  {
    var level := LevelOf(db, wf);
    !NamesNobody(level) && EscalationTargets(db, level.value, env) != []
  }

  /// A later level is configured, and the first one has approvers.
  ghost predicate CanSkip(db: Db, wf: Option<WorkflowDef>, env: Env)
    requires Inv(db) && db.inst.approval.Some?
  {
    var run := db.inst.approval.value;
    wf.Some? && NextLevel(wf.value, run, run.current + 1, db.inst.requester, env).Next?
  }

  /// Exactly when an escalation hands the task over, skips the level, only reminds, or does
  /// nothing at all.
  lemma EscalationOutcome(db: Db, wf: Option<WorkflowDef>, id: nat, env: Env)
    requires Inv(db) && IsPending(db.tasks, id) && db.inst.approval.Some?
    ensures var run, plan := db.inst.approval.value, PlanEscalate(db, wf, id, env);
            var hasNext := run.current + 1 < |run.levels|;
            && (plan.Escalate? && plan.plan.change.Stay? <==> HasTargets(db, wf, env))
            && (plan.Escalate? && plan.plan.change.Advance? <==> NamesNobody(LevelOf(db, wf)) && CanSkip(db, wf, env))
            && (plan.RemindLast? <==>
                  if NamesNobody(LevelOf(db, wf)) then !hasNext else !HasTargets(db, wf, env))
            && (plan.Nothing? <==> NamesNobody(LevelOf(db, wf)) && hasNext && !CanSkip(db, wf, env))
  {
    assert db.tasks[id].level == db.inst.approval.value.levels[db.inst.approval.value.current];
  }

  /// With nobody to escalate to and a later level that can start, the run moves on to it if and
  /// only if the level names nobody: people who are named but resolve to nobody new hold it.
  lemma SkipsUnlessNamed(db: Db, wf: Option<WorkflowDef>, id: nat, env: Env)
    requires Inv(db) && IsPending(db.tasks, id) && db.inst.approval.Some?
    requires !HasTargets(db, wf, env) && CanSkip(db, wf, env)
    ensures var run, plan := db.inst.approval.value, PlanEscalate(db, wf, id, env);
            if NamesNobody(LevelOf(db, wf)) then plan.Escalate? && MovesOn(wf.value, run, Commit(db, plan.plan, env).inst.approval)
            else plan.RemindLast? && RemindedLast(db, id).inst == db.inst
  {
    EscalationOutcome(db, wf, id, env);
    if PlanEscalate(db, wf, id, env).Escalate? { EscalationMovesRun(db, wf, id, env); }
  }

  // ---- retrying an escalation with an old task ----

  /// The hand-over of task `id` as planned from `early`, committed on `later`: every try reads
  /// the instance again, but not the approval task nor who has one.
  function LateHandOver(early: Db, later: Db, id: nat, level: Level, targets: seq<Id>, env: Env): Db {
    Commit(later, EscalateToPlan(early.inst, id, level, targets), env)
  }

  /// It keeps the invariant exactly when the approval still runs, in the same state, at the
  /// same level, and nobody on the list has got a task meanwhile.
  lemma LateHandOverFits(early: Db, later: Db, id: nat, level: Level, targets: seq<Id>, env: Env)
    requires Inv(early) && Inv(later) && IsPending(early.tasks, id) && id < |later.tasks|
    requires later.tasks[id].assignee == early.tasks[id].assignee && later.inst.requester == early.inst.requester
    requires early.inst.approval.Some? && early.inst.history <= later.inst.history
    requires level.key == early.tasks[id].level && targets == EscalationTargets(early, level, env) && targets != []
    ensures Inv(LateHandOver(early, later, id, level, targets, env)) <==>
              && later.inst.approval.Some? && later.inst.state == early.inst.state
              && later.inst.approval.value.levels[later.inst.approval.value.current] == level.key
              && forall k :: 0 <= k < |later.tasks| && later.tasks[k].status == Pending ==> later.tasks[k].assignee !in targets
  {
    var plan := EscalateToPlan(early.inst, id, level, targets);
    var after := LateHandOver(early, later, id, level, targets, env);
    var n := |later.tasks|;
    assert after.tasks[n] == NewTask(plan.start.value.level, targets[0], env);
    assert early.tasks[id].assignee in PendingAssignees(early.tasks, level.key);
    if LateConditions(early, later, level, targets) {
      LateKeeps(early, later, id, level, targets, env);
    } else {
      LateBreaks(early, later, id, level, targets, env);
    }
  }

  ghost predicate LateConditions(early: Db, later: Db, level: Level, targets: seq<Id>)
    requires Inv(later)
  {
    && later.inst.approval.Some? && later.inst.state == early.inst.state
    && later.inst.approval.value.levels[later.inst.approval.value.current] == level.key
    && forall k :: 0 <= k < |later.tasks| && later.tasks[k].status == Pending ==> later.tasks[k].assignee !in targets
  }

  lemma LateKeeps(early: Db, later: Db, id: nat, level: Level, targets: seq<Id>, env: Env)
    requires Inv(early) && Inv(later) && id < |later.tasks| && later.inst.requester == early.inst.requester
    requires LateConditions(early, later, level, targets)
    requires targets == EscalationTargets(early, level, env) && targets != []
    ensures Inv(LateHandOver(early, later, id, level, targets, env))
  {
    var plan := EscalateToPlan(early.inst, id, level, targets);
    var decided := Decided(later.tasks, plan.decision);
    DecidedFits(later.tasks, plan.decision, level.key, later.inst.requester);
    assert Closed(decided, CloseNone) == decided;
    AddedAt(decided, plan.start.value, level.key, later.inst.requester, env);
    CommitKeeps(later, plan, env);
  }

  lemma LateBreaks(early: Db, later: Db, id: nat, level: Level, targets: seq<Id>, env: Env)
    requires Inv(early) && Inv(later) && id < |later.tasks| && later.inst.history != []
    requires !LateConditions(early, later, level, targets) && targets != []
    requires later.tasks[id].assignee !in targets
    ensures !Inv(LateHandOver(early, later, id, level, targets, env))
  {
    var plan := EscalateToPlan(early.inst, id, level, targets);
    var after := LateHandOver(early, later, id, level, targets, env);
    var n := |later.tasks|;
    assert after.tasks[n] == NewTask(plan.start.value.level, targets[0], env) && after.tasks[n].status == Pending;
    if later.inst.approval.None? || later.inst.approval.value.levels[later.inst.approval.value.current] != level.key {
    } else if later.inst.state != early.inst.state {
      assert after.inst.history[|later.inst.history|] == plan.entry;
    } else {
      var k :| 0 <= k < n && later.tasks[k].status == Pending && later.tasks[k].assignee in targets;
      var j :| 0 <= j < |targets| && targets[j] == later.tasks[k].assignee;
      assert after.tasks[k] == later.tasks[k];
      assert after.tasks[n + j] == NewTask(plan.start.value.level, targets[j], env);
    }
  }

  /// So a decision that ends the run between the read and the retry breaks it.
  lemma LateHandOverAfterDecision(early: Db, wf: Option<WorkflowDef>, id: nat, level: Level, env: Env,
                                  k: nat, me: Id, approve: bool)
    requires Inv(early) && IsPending(early.tasks, id) && early.inst.approval.Some?
    requires level.key == early.tasks[id].level && EscalationTargets(early, level, env) != []
    requires PlanDecide(early, wf, k, me, approve, env).Ok? && PlanDecide(early, wf, k, me, approve, env).value.change.Move?
    ensures var later := Commit(early, PlanDecide(early, wf, k, me, approve, env).value, env);
            Inv(later) && !Inv(LateHandOver(early, later, id, level, EscalationTargets(early, level, env), env))
  {
    var plan := PlanDecide(early, wf, k, me, approve, env).value;
    var later := Commit(early, plan, env);
    DecideKeeps(early, wf, k, me, approve, env);
    assert early.tasks[id].assignee in PendingAssignees(early.tasks, level.key);
    LateBreaks(early, later, id, level, EscalationTargets(early, level, env), env);
  }

  // ---- skipping a level late ----

  /// Skipping as planned from `early` and committed on `later`: the run and its level are
  /// looked at again, only the state in the history entry is the old one.
  function LateSkip(early: Instance, later: Db, wf: WorkflowDef, level: string, env: Env): Db
    requires Inv(later)
  {
    if later.inst.approval.None? then later
    else
      var run := later.inst.approval.value;
      var next := NextLevel(wf, run, run.current + 1, later.inst.requester, env);
      if run.levels[run.current] != level || !next.Next? then later
      else Commit(later, SkipPlan(early, run, level, next), env)
  }

  /// It keeps the invariant exactly when it changes nothing or the state is still the same: it
  /// is not if meanwhile another action has started a run with a level of the same key.
  lemma LateSkipFits(early: Instance, later: Db, wf: WorkflowDef, level: string, env: Env)
    requires Inv(later)
    ensures var after := LateSkip(early, later, wf, level, env);
            Inv(after) <==> after == later || later.inst.state == early.state
  {
    var after := LateSkip(early, later, wf, level, env);
    if after != later {
      var run := later.inst.approval.value;
      var plan := SkipPlan(early, run, level, NextLevel(wf, run, run.current + 1, later.inst.requester, env));
      if later.inst.state == early.state {
        LateSkipKeeps(later, plan, level, env);
      } else {
        assert after.inst.history[|later.inst.history|] == plan.entry;
      }
    }
  }

  lemma LateSkipKeeps(later: Db, plan: Plan, level: string, env: Env)
    requires Inv(later) && later.inst.approval.Some? && plan.change.Advance? && plan.decision.None?
    requires plan.close == CloseLevel(level, Escalated) && plan.start.Some? && plan.entry == EscalateEntry(later.inst, level)
    requires later.inst.approval.value.levels[later.inst.approval.value.current] == level
    requires plan.change.run.pendingState == later.inst.approval.value.pendingState
    requires plan.change.run.current < |plan.change.run.levels|
    requires plan.change.run.levels[plan.change.run.current] == plan.start.value.level.key
    requires var s := plan.start.value; s.assignees != [] && NoRepeats(s.assignees) && later.inst.requester !in s.assignees
    ensures Inv(Commit(later, plan, env))
  {
    NoneLeft(later.tasks, plan.close);
    LevelStarts(Closed(later.tasks, plan.close), plan.start.value, later.inst.requester, env);
    CommitKeeps(later, plan, env);
  }
}
