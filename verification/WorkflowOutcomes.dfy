/// When actions and decisions are refused, and with which error; where they lead, and whom
/// they ask.

module WorkflowOutcomes {
  import opened Basics
  import opened Workflow
  import opened WorkflowInvariant

  // ---- looking things up ----

  /// `i` is the first action of this key.
  predicate FirstAction(actions: seq<Action>, key: string, i: nat) {
    i < |actions| && actions[i].key == key && forall j :: 0 <= j < i ==> actions[j].key != key
  }

  predicate FirstLevel(levels: seq<Level>, key: string, i: nat) {
    i < |levels| && levels[i].key == key && forall j :: 0 <= j < i ==> levels[j].key != key
  }

  lemma {:induction false} ActionFound(actions: seq<Action>, key: string)
    ensures (forall j :: 0 <= j < |actions| ==> actions[j].key != key) <==> FindAction(actions, key).None?
  {
    if actions != [] {
      ActionFound(actions[1..], key);
      if FindAction(actions, key).None? {
        forall j | 0 <= j < |actions| ensures actions[j].key != key { if j > 0 { assert actions[j] == actions[1..][j - 1]; } }
      }
    }
  }

  lemma {:induction false} FirstActionFound(actions: seq<Action>, key: string, i: nat)
    requires FirstAction(actions, key, i)
    ensures FindAction(actions, key) == Some(actions[i])
  {
    if i > 0 {
      assert forall j :: 0 <= j < i - 1 ==> actions[1..][j] == actions[j + 1];
      FirstActionFound(actions[1..], key, i - 1);
    }
  }

  lemma {:induction false} FirstLevelFound(levels: seq<Level>, key: string, i: nat)
    requires FirstLevel(levels, key, i)
    ensures FindLevel(levels, key) == Some(levels[i])
  {
    if i > 0 {
      assert forall j :: 0 <= j < i - 1 ==> levels[1..][j] == levels[j + 1];
      FirstLevelFound(levels[1..], key, i - 1);
    }
  }

  lemma {:induction false} NoLevelFound(levels: seq<Level>, key: string)
    requires forall j :: 0 <= j < |levels| ==> levels[j].key != key
    ensures FindLevel(levels, key).None?
  {
    if levels != [] { NoLevelFound(levels[1..], key); }
  }

  /// The level of a run is the first of its key in the approval of the first action of the
  /// run's key, as the configuration has them now; there may be none.
  lemma {:induction false} LevelNow(wf: WorkflowDef, run: ApprovalRun, key: string, i: nat)
    requires FirstAction(wf.actions, run.action, i)
    ensures wf.actions[i].approval.None? ==> LevelDef(wf, run, key).None?
    ensures wf.actions[i].approval.Some? ==>
              var levels := wf.actions[i].approval.value.levels;
              && (forall j: nat :: FirstLevel(levels, key, j) ==> LevelDef(wf, run, key) == Some(levels[j]))
              && ((forall j :: 0 <= j < |levels| ==> levels[j].key != key) ==> LevelDef(wf, run, key).None?)
  {
    FirstActionFound(wf.actions, run.action, i);
    if wf.actions[i].approval.Some? {
      var levels := wf.actions[i].approval.value.levels;
      forall j: nat | FirstLevel(levels, key, j) ensures LevelDef(wf, run, key) == Some(levels[j]) {
        FirstLevelFound(levels, key, j);
      }
      if forall j :: 0 <= j < |levels| ==> levels[j].key != key { NoLevelFound(levels, key); }
    }
  }

  lemma {:induction false} LevelOfNoAction(wf: WorkflowDef, run: ApprovalRun, key: string)
    requires forall j :: 0 <= j < |wf.actions| ==> wf.actions[j].key != run.action
    ensures LevelDef(wf, run, key).None?
  {
    ActionFound(wf.actions, run.action);
  }

  // ---- who is asked ----

  /// Asked at a level: named there, active, and not the requester.
  predicate IsAsked(id: Id, level: Level, requester: Id, env: Env) {
    id in env.named(level.approvers) && id in env.active && id != requester
  }

  ghost predicate NobodyAsked(level: Level, requester: Id, env: Env) { forall id :: !IsAsked(id, level, requester, env) }

  lemma {:induction false} ApproversAreAsked(level: Level, requester: Id, env: Env)
    ensures forall id :: id in ApproversFor(level, requester, env) <==> IsAsked(id, level, requester, env)
    ensures ApproversFor(level, requester, env) == [] <==> NobodyAsked(level, requester, env)
  {
    var r := ApproversFor(level, requester, env);
    if r != [] { assert r[0] in r; }
  }

  function Time(hours: Option<int>, env: Env): Option<int> {
    match hours
    case None => None
    case Some(h) => if h == 0 then None else Some(env.after(h))
  }

  /// One open task for each person asked, with the level's times.
  ghost predicate LevelStarted(tasks: seq<Task>, level: Level, requester: Id, env: Env) {
    && (forall k :: 0 <= k < |tasks| ==>
          && IsAsked(tasks[k].assignee, level, requester, env)
          && tasks[k] == Task(level.key, level.mode, tasks[k].assignee, Pending, Time(level.remindAfter, env),
                              Time(level.escalateAfter, env), false, None))
    && (forall j, k :: 0 <= j < k < |tasks| ==> tasks[j].assignee != tasks[k].assignee)
    && (forall id :: IsAsked(id, level, requester, env) ==> exists k :: 0 <= k < |tasks| && tasks[k].assignee == id)
  }

  lemma {:induction false} StartedForAsked(level: Level, requester: Id, env: Env)
    ensures LevelStarted(NewTasks(Some(Start(level, ApproversFor(level, requester, env))), env), level, requester, env)
  {
    var ids := ApproversFor(level, requester, env);
    var tasks := NewTasks(Some(Start(level, ids)), env);
    ApproversAreAsked(level, requester, env);
    forall k | 0 <= k < |tasks| ensures tasks[k].assignee == ids[k] && ids[k] in ids {}
    forall id | IsAsked(id, level, requester, env) ensures exists k :: 0 <= k < |tasks| && tasks[k].assignee == id {
      var k :| 0 <= k < |ids| && ids[k] == id;
      assert tasks[k].assignee == id;
    }
  }

  // ---- the levels that apply ----

  /// The places of the levels whose condition holds, in order.
  ghost predicate HoldAt(levels: seq<Level>, env: Env, ix: seq<nat>) {
    && (forall j :: 0 <= j < |ix| ==> ix[j] < |levels|)
    && (forall j, k :: 0 <= j < k < |ix| ==> ix[j] < ix[k])
    && (forall i :: 0 <= i < |levels| ==> (env.holds(levels[i].condition) <==> i in ix))
  }

  lemma {:induction false} HoldingAre(levels: seq<Level>, env: Env) returns (ix: seq<nat>)
    ensures HoldAt(levels, env, ix) && |Holding(levels, env)| == |ix|
    ensures forall j :: 0 <= j < |ix| ==> Holding(levels, env)[j] == levels[ix[j]]
  {
    if levels == [] {
      ix := [];
    } else {
      var n := |levels| - 1;
      var before := HoldingAre(levels[..n], env);
      ix := if env.holds(levels[n].condition) then before + [n] else before;
      OneMoreHolds(levels, env, before);
    }
  }

  lemma {:induction false} OneMoreHolds(levels: seq<Level>, env: Env, before: seq<nat>)
    requires levels != [] && HoldAt(levels[..|levels| - 1], env, before)
    ensures var n := |levels| - 1;
            HoldAt(levels, env, if env.holds(levels[n].condition) then before + [n] else before)
  {
    var n := |levels| - 1;
    var ix := if env.holds(levels[n].condition) then before + [n] else before;
    assert n !in before by {
      assert forall j :: 0 <= j < |before| ==> before[j] < n;
    }
    forall i | 0 <= i < |levels| ensures env.holds(levels[i].condition) <==> i in ix {
      if i < n {
        assert levels[..n][i] == levels[i];
        assert i in before <==> i in before + [n];
      } else {
        assert n in before + [n];
      }
    }
  }

  // ---- actions ----

  function StateNow(db: Db, wf: WorkflowDef): string {
    match db.inst.state
    case None => wf.initialState
    case Some(state) => state
  }

  /// The action may start here: from this state, and without a second approval.
  predicate IsAvailable(db: Db, wf: WorkflowDef, a: Action) {
    StateNow(db, wf) in a.from && !(db.inst.approval.Some? && a.approval.Some?)
  }

  /// Only users are asked for permission.
  predicate IsPermitted(user: Option<Id>, env: Env) { user.None? || env.mayAct }

  predicate IsCommented(a: Action, hasComment: bool) { hasComment || !a.commentRequired }

  ghost predicate FirstLevelAsksNobody(db: Db, a: Action, env: Env, ix: seq<nat>) {
    && a.approval.Some? && ix != [] && HoldAt(a.approval.value.levels, env, ix)
    && NobodyAsked(a.approval.value.levels[ix[0]], db.inst.requester, env)
  }

  /// When an action is refused: in this order, and for nothing else.
  lemma {:induction false} ActionRefused(db: Db, wf: WorkflowDef, key: string, user: Option<Id>, hasComment: bool,
                                         env: Env, i: nat)
    returns (ix: seq<nat>)
    requires FirstAction(wf.actions, key, i)
    ensures wf.actions[i].approval.Some? ==> HoldAt(wf.actions[i].approval.value.levels, env, ix)
    ensures var a, r := wf.actions[i], PlanAct(db, wf, key, user, hasComment, env);
            if !IsAvailable(db, wf, a) then r == Err(NotAvailable)
            else if !IsPermitted(user, env) then r == Err(Forbidden)
            else if !IsCommented(a, hasComment) then r == Err(CommentNeeded)
            else if !env.holds(a.condition) then r == Err(ConditionNotMet)
            else if FirstLevelAsksNobody(db, a, env, ix) then r == Err(NoApprover(a.approval.value.levels[ix[0]].key))
            else r.Ok?
  {
    FirstActionFound(wf.actions, key, i);
    var a := wf.actions[i];
    ix := [];
    if a.approval.Some? {
      ix := HoldingAre(a.approval.value.levels, env);
      if ix != [] { ApproversAreAsked(a.approval.value.levels[ix[0]], db.inst.requester, env); }
    }
  }

  /// No other key is refused as unknown, and an unknown one always.
  lemma {:induction false} ActionUnknown(db: Db, wf: WorkflowDef, key: string, user: Option<Id>, hasComment: bool, env: Env)
    ensures PlanAct(db, wf, key, user, hasComment, env) == Err(ActionNotFound)
       <==> forall j :: 0 <= j < |wf.actions| ==> wf.actions[j].key != key
  {
    ActionFound(wf.actions, key);
  }

  /// Where the action leads: to approval at once when no level applies.
  function Target(a: Action, ix: seq<nat>): string {
    if a.approval.Some? && ix == [] then a.approval.value.approvedState else a.to
  }

  /// The approval an action starts: through the levels that apply, at the first of them.
  ghost predicate StartsRun(a: Action, ix: seq<nat>, run: Option<ApprovalRun>)
    requires a.approval.Some? ==> forall j :: 0 <= j < |ix| ==> ix[j] < |a.approval.value.levels|
  {
    if a.approval.None? || ix == [] then run.None?
    else
      var def := a.approval.value;
      && run.Some? && run.value.action == a.key && run.value.pendingState == a.to && run.value.current == 0
      && run.value.approvedState == def.approvedState && run.value.rejectedState == def.rejectedState
      && |run.value.levels| == |ix| && forall j :: 0 <= j < |ix| ==> run.value.levels[j] == def.levels[ix[j]].key
  }

  function Withdrawn(task: Task): Task { if task.status == Pending then task.(status := Cancelled) else task }

  ghost predicate AllWithdrawn(before: seq<Task>, after: seq<Task>) {
    |before| <= |after| && forall k :: 0 <= k < |before| ==> after[k] == Withdrawn(before[k])
  }

  /// The data after an action: its target state, waiting to be copied, one entry in the
  /// history, open tasks withdrawn, and the people of the first level asked.
  ghost predicate ActionTaken(before: Db, after: Db, a: Action, state: string, who: Id, ix: seq<nat>, env: Env)
    requires a.approval.Some? ==> HoldAt(a.approval.value.levels, env, ix)
  {
    var to, n := Target(a, ix), |before.tasks|;
    && after.inst == before.inst.(
         state := Some(to), approval := after.inst.approval,
         history := before.inst.history + [Entry(who, None, a.key, Some(state), Some(to), None)],
         sync := Some(Sync(Some(state), to, a.key)), version := before.inst.version + 1)
    && StartsRun(a, ix, after.inst.approval) && after.syncJob && after.recordStatus == before.recordStatus
    && AllWithdrawn(before.tasks, after.tasks)
    && if a.approval.None? || ix == [] then |after.tasks| == n
       else LevelStarted(after.tasks[n..], a.approval.value.levels[ix[0]], before.inst.requester, env)
  }

  lemma {:induction false} ActionPlanned(db: Db, wf: WorkflowDef, key: string, user: Option<Id>, hasComment: bool,
                                         env: Env, i: nat)
    returns (ix: seq<nat>)
    requires FirstAction(wf.actions, key, i) && PlanAct(db, wf, key, user, hasComment, env).Ok?
    ensures wf.actions[i].approval.Some? ==> HoldAt(wf.actions[i].approval.value.levels, env, ix)
    ensures var a, state, plan := wf.actions[i], StateNow(db, wf), PlanAct(db, wf, key, user, hasComment, env).value;
            var to, who := Target(a, ix), if user.Some? then user.value else SYSTEM;
            && plan.change.Move? && plan.change == Move(to, plan.change.approval, Sync(Some(state), to, a.key))
            && StartsRun(a, ix, plan.change.approval)
            && plan.entry == Entry(who, None, a.key, Some(state), Some(to), None)
            && plan.decision.None? && plan.close == (if db.inst.approval.Some? then CloseAll(Cancelled) else CloseNone)
            && plan.start == (if a.approval.None? || ix == [] then None
                              else var level := a.approval.value.levels[ix[0]];
                                   Some(Start(level, ApproversFor(level, db.inst.requester, env))))
  {
    FirstActionFound(wf.actions, key, i);
    var a := wf.actions[i];
    ix := [];
    if a.approval.Some? { ix := HoldingAre(a.approval.value.levels, env); }
  }

  lemma {:induction false} ActionDone(db: Db, wf: WorkflowDef, key: string, user: Option<Id>, hasComment: bool,
                                      env: Env, i: nat)
    returns (ix: seq<nat>)
    requires Inv(db) && FirstAction(wf.actions, key, i) && PlanAct(db, wf, key, user, hasComment, env).Ok?
    ensures wf.actions[i].approval.Some? ==> HoldAt(wf.actions[i].approval.value.levels, env, ix)
    ensures ActionTaken(db, Commit(db, PlanAct(db, wf, key, user, hasComment, env).value, env), wf.actions[i],
                        StateNow(db, wf), if user.Some? then user.value else SYSTEM, ix, env)
  {
    ix := ActionPlanned(db, wf, key, user, hasComment, env, i);
    var a := wf.actions[i];
    if a.approval.Some? && ix != [] { StartedForAsked(a.approval.value.levels[ix[0]], db.inst.requester, env); }
    ClosedThenNew(db, PlanAct(db, wf, key, user, hasComment, env).value, env);
  }

  lemma {:induction false} ClosedThenNew(db: Db, plan: Plan, env: Env)
    requires Inv(db) && plan.decision.None?
    requires plan.close == if db.inst.approval.Some? then CloseAll(Cancelled) else CloseNone
    ensures var after := TasksAfter(db.tasks, plan, env);
            AllWithdrawn(db.tasks, after) && after[|db.tasks|..] == NewTasks(plan.start, env)
  {
  }

  // ---- decisions ----

  /// The task is this person's to decide: they are asked, or stand in for who is asked.
  predicate MayDecide(task: Task, me: Id, env: Env) {
    task.assignee == me || env.delegateOf(task.assignee) == Some(me)
  }

  /// The place of the next level of the run that is still in the configuration.
  predicate NextConfigured(wf: WorkflowDef, run: ApprovalRun, j: nat) {
    && run.current < j < |run.levels| && LevelDef(wf, run, run.levels[j]).Some?
    && forall k :: run.current < k < j ==> LevelDef(wf, run, run.levels[k]).None?
  }

  ghost predicate NextAsksNobody(wf: WorkflowDef, run: ApprovalRun, j: nat, requester: Id, env: Env) {
    NextConfigured(wf, run, j) && NobodyAsked(LevelDef(wf, run, run.levels[j]).value, requester, env)
  }

  lemma {:induction false} NextLevelIs(wf: WorkflowDef, run: ApprovalRun, requester: Id, env: Env) returns (j: nat)
    ensures NextConfigured(wf, run, j) || AtLastLevel(wf, run)
    ensures var n := NextLevel(wf, run, run.current + 1, requester, env);
            if AtLastLevel(wf, run) then n.NoMore?
            else
              var level := LevelDef(wf, run, run.levels[j]).value;
              if NobodyAsked(level, requester, env) then n == Nobody(level)
              else n == Next(j, level, ApproversFor(level, requester, env))
  {
    j := ScanLevels(wf, run, run.current + 1, requester, env);
    if j < |run.levels| {
      ApproversAreAsked(LevelDef(wf, run, run.levels[j]).value, requester, env);
    }
  }

  lemma {:induction false} ScanLevels(wf: WorkflowDef, run: ApprovalRun, from: nat, requester: Id, env: Env) returns (j: nat)
    requires from <= |run.levels| || from == run.current + 1
    ensures from <= j && (forall k :: from <= k < j && k < |run.levels| ==> LevelDef(wf, run, run.levels[k]).None?)
    ensures j < |run.levels| ==> LevelDef(wf, run, run.levels[j]).Some?
    ensures var n := NextLevel(wf, run, from, requester, env);
            if j >= |run.levels| then n.NoMore?
            else
              var level := LevelDef(wf, run, run.levels[j]).value;
              n == if ApproversFor(level, requester, env) == [] then Nobody(level)
                   else Next(j, level, ApproversFor(level, requester, env))
    decreases |run.levels| - from
  {
    j := from;
    if from < |run.levels| && LevelDef(wf, run, run.levels[from]).None? {
      j := ScanLevels(wf, run, from + 1, requester, env);
    }
  }

  /// The task waits for this person's decision.
  predicate IsOpenTo(db: Db, id: nat, me: Id, env: Env) {
    id < |db.tasks| && db.tasks[id].status == Pending && MayDecide(db.tasks[id], me, env) && me != db.inst.requester
  }

  /// When a decision is refused: in this order, and for nothing else.
  lemma {:induction false} DecisionRefused(db: Db, wf: Option<WorkflowDef>, id: nat, me: Id, approve: bool, env: Env)
    ensures var r := PlanDecide(db, wf, id, me, approve, env);
            if id >= |db.tasks| then r == Err(TaskNotFound)
            else if db.tasks[id].status != Pending then r == Err(AlreadyDecided)
            else if !MayDecide(db.tasks[id], me, env) then r == Err(NotAssigned)
            else if me == db.inst.requester then r == Err(OwnRequest)
            else if db.inst.approval.None? then r == Err(AlreadyDecided)
            else if wf.None? then r == Err(WorkflowNotFound)
            else r.Ok? || r.error.NoApprover?
  {
  }

  /// Nobody to ask at the next level refuses an approval that completes its level, and nothing else.
  lemma {:induction false} NobodyNextRefuses(db: Db, wf: WorkflowDef, id: nat, me: Id, approve: bool, env: Env)
    returns (j: nat)
    requires Inv(db) && IsOpenTo(db, id, me, env)
    ensures var r, run := PlanDecide(db, Some(wf), id, me, approve, env), db.inst.approval.value;
            && (NextConfigured(wf, run, j) || AtLastLevel(wf, run))
            && if approve && Completes(db, id) && NextAsksNobody(wf, run, j, db.inst.requester, env)
               then r == Err(NoApprover(run.levels[j])) else r.Ok?
  {
    var run := db.inst.approval.value;
    j := NextLevelIs(wf, run, db.inst.requester, env);
    OthersAtLevel(db, id);
    DecisionNeeds(db, wf, id, me, approve, env, NextLevel(wf, run, run.current + 1, db.inst.requester, env));
  }

  lemma {:induction false} DecisionNeeds(db: Db, wf: WorkflowDef, id: nat, me: Id, approve: bool, env: Env, next: Next)
    requires IsOpenTo(db, id, me, env) && db.inst.approval.Some?
    requires next == NextLevel(wf, db.inst.approval.value, db.inst.approval.value.current + 1, db.inst.requester, env)
    ensures var r := PlanDecide(db, Some(wf), id, me, approve, env);
            var partial := db.tasks[id].mode == AllOf && OthersPending(db.tasks, id, db.tasks[id].level);
            if approve && !partial && next.Nobody? then r == Err(NoApprover(next.level.key)) else r.Ok?
  {
  }

  lemma {:induction false} OthersAtLevel(db: Db, id: nat)
    requires Inv(db) && id < |db.tasks| && db.tasks[id].status == Pending
    ensures Completes(db, id) <==> !(db.tasks[id].mode == AllOf && OthersPending(db.tasks, id, db.tasks[id].level))
  {
    var run := db.inst.approval.value;
    if !Completes(db, id) {
      var k :| 0 <= k < |db.tasks| && k != id && db.tasks[k].status == Pending;
      assert db.tasks[k].level == db.tasks[id].level;
    }
  }

  /// What the history says of a decision: who decided, for whom, and at which level.
  predicate Tells(e: Entry, task: Task, me: Id, approve: bool) {
    && e.who == me && e.level == Some(task.level)
    && e.action == (if approve then "approve" else "reject")
    && e.onBehalfOf == (if task.assignee == me then None else Some(task.assignee))
  }

  /// The task as its decision leaves it.
  function DecidedTask(task: Task, me: Id, approve: bool): Task {
    task.(status := if approve then Approved else Rejected, decidedBy := Some(me))
  }

  ghost predicate OthersKept(before: seq<Task>, after: seq<Task>, id: nat) {
    |after| == |before| && forall k :: 0 <= k < |before| && k != id ==> after[k] == before[k]
  }

  ghost predicate OthersWithdrawn(before: seq<Task>, after: seq<Task>, id: nat) {
    |before| <= |after| && forall k :: 0 <= k < |before| && k != id ==> after[k] == Withdrawn(before[k])
  }

  /// The instance with one more entry in its history, which ends in state `to`.
  predicate Logged(before: Instance, after: Instance, task: Task, me: Id, approve: bool, to: Option<string>) {
    && |after.history| == |before.history| + 1 && after.history[..|before.history|] == before.history
    && Tells(after.history[|before.history|], task, me, approve)
    && after.history[|before.history|].from == before.state && after.history[|before.history|].to == to
    && after.version == before.version + 1 && after.requester == before.requester
  }

  /// A decision that does not complete its level changes its own task and the history.
  ghost predicate Continues(before: Db, after: Db, id: nat, me: Id, approve: bool) {
    && id < |before.tasks| && OthersKept(before.tasks, after.tasks, id)
    && Logged(before.inst, after.inst, before.tasks[id], me, approve, before.inst.state)
    && after.inst.state == before.inst.state && after.inst.approval == before.inst.approval
    && after.inst.sync == before.inst.sync
  }

  /// The others of the level are no longer asked, the people of the level at `j` are.
  ghost predicate GoesOn(before: Db, after: Db, wf: WorkflowDef, id: nat, me: Id, j: nat, env: Env) {
    && id < |before.tasks| && before.inst.approval.Some? && NextConfigured(wf, before.inst.approval.value, j)
    && OthersWithdrawn(before.tasks, after.tasks, id)
    && LevelStarted(after.tasks[|before.tasks|..], LevelDef(wf, before.inst.approval.value,
                                                           before.inst.approval.value.levels[j]).value,
                    before.inst.requester, env)
    && Logged(before.inst, after.inst, before.tasks[id], me, true, before.inst.state)
    && after.inst.state == before.inst.state && after.inst.sync == before.inst.sync
    && after.inst.approval == Some(before.inst.approval.value.(current := j))
  }

  /// The request is settled: nobody is asked any more, and the new state waits to be copied.
  ghost predicate Settles(before: Db, after: Db, id: nat, me: Id, approve: bool) {
    && id < |before.tasks| && before.inst.approval.Some?
    && var run := before.inst.approval.value;
       var to := if approve then run.approvedState else run.rejectedState;
       && |after.tasks| == |before.tasks| && OthersWithdrawn(before.tasks, after.tasks, id)
       && Logged(before.inst, after.inst, before.tasks[id], me, approve, Some(to))
       && after.inst.state == Some(to) && after.inst.approval.None?
       && after.inst.sync == Some(Sync(before.inst.state, to, if approve then "approve" else "reject"))
  }

  /// What a decision does: a rejection settles the request; an approval goes on when its
  /// level is complete, to the next configured level, or settles the request at the last one.
  lemma {:induction false} DecisionDone(db: Db, wf: WorkflowDef, id: nat, me: Id, approve: bool, env: Env)
    returns (j: nat)
    requires Inv(db) && PlanDecide(db, Some(wf), id, me, approve, env).Ok?
    ensures IsOpenTo(db, id, me, env)
    ensures var after, run := Commit(db, PlanDecide(db, Some(wf), id, me, approve, env).value, env), db.inst.approval.value;
            && id < |after.tasks| && after.tasks[id] == DecidedTask(db.tasks[id], me, approve)
            && if approve && !Completes(db, id) then Continues(db, after, id, me, approve)
               else if approve && !AtLastLevel(wf, run) then GoesOn(db, after, wf, id, me, j, env)
               else Settles(db, after, id, me, approve)
  {
    var run := db.inst.approval.value;
    j := NextLevelIs(wf, run, db.inst.requester, env);
    OthersAtLevel(db, id);
    var plan := PlanDecide(db, Some(wf), id, me, approve, env).value;
    DecisionPlanned(db, wf, id, me, approve, env, NextLevel(wf, run, run.current + 1, db.inst.requester, env));
    if approve && Completes(db, id) && !AtLastLevel(wf, run) {
      StartedForAsked(LevelDef(wf, run, run.levels[j]).value, db.inst.requester, env);
    }
    TasksAfterDecision(db, plan, id, me, approve, env);
  }

  lemma {:induction false} DecisionPlanned(db: Db, wf: WorkflowDef, id: nat, me: Id, approve: bool, env: Env, next: Next)
    requires PlanDecide(db, Some(wf), id, me, approve, env).Ok?
    requires db.inst.approval.Some?
    requires next == NextLevel(wf, db.inst.approval.value, db.inst.approval.value.current + 1, db.inst.requester, env)
    ensures IsOpenTo(db, id, me, env)
    ensures var plan, run, task := PlanDecide(db, Some(wf), id, me, approve, env).value, db.inst.approval.value, db.tasks[id];
            var partial := approve && task.mode == AllOf && OthersPending(db.tasks, id, task.level);
            var to := if approve then run.approvedState else run.rejectedState;
            && plan.decision == Some(Decision(id, if approve then Approved else Rejected, me))
            && Tells(plan.entry, task, me, approve) && plan.entry.from == db.inst.state
            && if partial then
                 plan.change.Stay? && plan.close.CloseNone? && plan.start.None? && plan.entry.to == db.inst.state
               else if approve && !next.NoMore? then
                 && next.Next? && plan.change == Advance(run.(current := next.index)) && plan.entry.to == db.inst.state
                 && plan.close == CloseLevel(task.level, Cancelled) && plan.start == Some(Start(next.level, next.assignees))
               else
                 && plan.change == Move(to, None, Sync(db.inst.state, to, if approve then "approve" else "reject"))
                 && plan.close == CloseAll(Cancelled) && plan.start.None? && plan.entry.to == Some(to)
  {
  }

  lemma {:induction false} TasksAfterDecision(db: Db, plan: Plan, id: nat, me: Id, approve: bool, env: Env)
    requires Inv(db) && IsPending(db.tasks, id)
    requires plan.decision == Some(Decision(id, if approve then Approved else Rejected, me))
    requires plan.close in {CloseNone, CloseAll(Cancelled), CloseLevel(db.tasks[id].level, Cancelled)}
    ensures var after := TasksAfter(db.tasks, plan, env);
            && |after| == |db.tasks| + |NewTasks(plan.start, env)| && after[|db.tasks|..] == NewTasks(plan.start, env)
            && after[id] == DecidedTask(db.tasks[id], me, approve)
            && (plan.close == CloseNone && plan.start.None? ==> OthersKept(db.tasks, after, id))
            && (plan.close != CloseNone ==> OthersWithdrawn(db.tasks, after, id))
  {
    var decided := Decided(db.tasks, plan.decision);
    forall k | 0 <= k < |db.tasks| && k != id && db.tasks[k].status == Pending
      ensures db.tasks[k].level == db.tasks[id].level && decided[k] == db.tasks[k]
    {
    }
  }

  // ---- timers ----

  /// The timer of a task is due at the earlier of its times.
  predicate IsDueAt(task: Task, due: int) {
    && (task.remindAt == Some(due) || task.escalateAt == Some(due))
    && (task.remindAt.Some? ==> due <= task.remindAt.value) && (task.escalateAt.Some? ==> due <= task.escalateAt.value)
  }

  /// After a commit every new task with a time has its timer, and every open task keeps its own.
  lemma {:induction false} TimersAfterCommit(db: Db, plan: Plan, env: Env, k: nat)
    requires IsClosing(plan.close) && (plan.decision.Some? ==> plan.decision.value.status != Pending)
    requires plan.decision.Some? ==> IsPending(db.tasks, plan.decision.value.task)
    ensures var after := Commit(db, plan, env);
            if k < |db.tasks| then
              && (IsPending(after.tasks, k) ==> (k in after.timers <==> k in db.timers))
              && (k in after.timers ==> k in db.timers && after.timers[k] == db.timers[k])
            else if k < |after.tasks| then
              && (k in after.timers <==> after.tasks[k].remindAt.Some? || after.tasks[k].escalateAt.Some?)
              && (k in after.timers ==> IsDueAt(after.tasks[k], after.timers[k]))
            else k !in after.timers
  {
  }
}
