/// Approval workflows of one record: what each operation plans from a snapshot, and what
/// committing a plan does to the stored instance, its tasks and its timers.

module Workflow {
  import opened Basics

  type Id = string

  const SYSTEM: Id := "system"

  // ---- configuration ----

  datatype Mode = AnyOf | AllOf

  /// Approver specifications are resolved by the directory.
  datatype Spec = Spec(text: string)

  datatype Level = Level(
    key: string, mode: Mode, condition: string, approvers: seq<Spec>, escalateTo: seq<Spec>,
    remindAfter: Option<int>, escalateAfter: Option<int>)

  datatype ApprovalDef = ApprovalDef(levels: seq<Level>, approvedState: string, rejectedState: string)

  datatype Action = Action(
    key: string, from: set<string>, to: string, commentRequired: bool, condition: string,
    approval: Option<ApprovalDef>)

  datatype WorkflowDef = WorkflowDef(initialState: string, actions: seq<Action>)

  // ---- stored state ----

  datatype ApprovalRun = ApprovalRun(
    action: string, pendingState: string, approvedState: string, rejectedState: string,
    levels: seq<string>, current: nat)

  datatype Entry = Entry(
    who: Id, onBehalfOf: Option<Id>, action: string, from: Option<string>, to: Option<string>,
    level: Option<string>)

  /// A copy of the state still to be made to the record.
  datatype Sync = Sync(from: Option<string>, to: string, action: string)

  datatype Instance = Instance(
    requester: Id, state: Option<string>, approval: Option<ApprovalRun>, history: seq<Entry>,
    sync: Option<Sync>, version: nat)

  datatype Status = Pending | Approved | Rejected | Cancelled | Escalated

  /// Tasks are identified by their position.
  datatype Task = Task(
    level: string, mode: Mode, assignee: Id, status: Status, remindAt: Option<int>,
    escalateAt: Option<int>, reminded: bool, decidedBy: Option<Id>)

  /// The instance, its tasks, when each task timer is due, whether a `status_sync` job
  /// waits, and the status on the record itself.
  datatype Db = Db(
    inst: Instance, tasks: seq<Task>, timers: map<nat, int>, syncJob: bool, recordStatus: Option<string>)

  /// What the service asks others for: the clock, the working calendar, the people a
  /// specification names, who is active, who stands in for whom, and conditions.
  datatype Env = Env(
    now: int, after: int -> int, named: seq<Spec> -> seq<Id>, active: set<Id>,
    delegateOf: Id -> Option<Id>, holds: string -> bool, mayAct: bool)

  datatype WorkflowError =
    | ActionNotFound | NotAvailable | Forbidden | CommentNeeded | ConditionNotMet
    | NoApprover(level: string) | TaskNotFound | AlreadyDecided | NotAssigned | OwnRequest
    | WorkflowNotFound | Conflict

  datatype Result<T> = Ok(value: T) | Err(error: WorkflowError)

  // ---- people ----

  /// The first mention of each name, in order.
  function Distinct(ids: seq<Id>): (r: seq<Id>)
    ensures NoRepeats(r) && forall id :: id in r <==> id in ids
  {
    if ids == [] then []
    else
      var rest, last := Distinct(ids[..|ids| - 1]), ids[|ids| - 1];
      assert ids == ids[..|ids| - 1] + [last];
      if last in rest then rest else rest + [last]
  }

  ghost predicate NoRepeats(ids: seq<Id>) { forall i, j :: 0 <= i < j < |ids| ==> ids[i] != ids[j] }

  function Keep(ids: seq<Id>, allowed: set<Id>): (r: seq<Id>)
    ensures forall id :: id in r <==> id in ids && id in allowed
    ensures NoRepeats(ids) ==> NoRepeats(r)
  {
    if ids == [] then []
    else
      var rest, last := Keep(ids[..|ids| - 1], allowed), ids[|ids| - 1];
      assert ids == ids[..|ids| - 1] + [last];
      if last in allowed then rest + [last] else rest
  }

  function Without(ids: seq<Id>, banned: set<Id>): (r: seq<Id>)
    ensures forall id :: id in r <==> id in ids && id !in banned
    ensures NoRepeats(ids) ==> NoRepeats(r)
  {
    if ids == [] then []
    else
      var rest, last := Without(ids[..|ids| - 1], banned), ids[|ids| - 1];
      assert ids == ids[..|ids| - 1] + [last];
      if last in banned then rest else rest + [last]
  }

  function Resolve(specs: seq<Spec>, env: Env): (r: seq<Id>)
    ensures NoRepeats(r) && forall id :: id in r ==> id in env.active
  {
    Keep(Distinct(env.named(specs)), env.active)
  }

  /// Who is asked at a level: the people its specifications name who are active, but the requester.
  function ApproversFor(level: Level, requester: Id, env: Env): (r: seq<Id>)
    ensures NoRepeats(r) && requester !in r && forall id :: id in r ==> id in env.active
  {
    Without(Resolve(level.approvers, env), {requester})
  }

  // ---- looking things up ----

  function FindAction(actions: seq<Action>, key: string): (r: Option<Action>)
    ensures r.Some? ==> r.value in actions && r.value.key == key
  {
    if actions == [] then None
    else if actions[0].key == key then Some(actions[0]) else FindAction(actions[1..], key)
  }

  function FindLevel(levels: seq<Level>, key: string): (r: Option<Level>)
    ensures r.Some? ==> r.value in levels && r.value.key == key
  {
    if levels == [] then None
    else if levels[0].key == key then Some(levels[0]) else FindLevel(levels[1..], key)
  }

  /// The level of a run as the configuration defines it now, if it still does.
  function LevelDef(wf: WorkflowDef, run: ApprovalRun, key: string): (r: Option<Level>)
    ensures r.Some? ==> r.value.key == key
  {
    var action := FindAction(wf.actions, run.action);
    if action.None? || action.value.approval.None? then None
    else FindLevel(action.value.approval.value.levels, key)
  }

  function Holding(levels: seq<Level>, env: Env): seq<Level> {
    if levels == [] then []
    else
      var rest, last := Holding(levels[..|levels| - 1], env), levels[|levels| - 1];
      if env.holds(last.condition) then rest + [last] else rest
  }

  function Keys(levels: seq<Level>): (keys: seq<string>)
    ensures |keys| == |levels| && forall i :: 0 <= i < |levels| ==> keys[i] == levels[i].key
  {
    seq(|levels|, i requires 0 <= i < |levels| => levels[i].key)
  }

  // ---- next level ----

  datatype Next = NoMore | Nobody(level: Level) | Next(index: nat, level: Level, assignees: seq<Id>)

  /// The first level from `from` on that is configured now, and who is asked there.
  function NextLevel(wf: WorkflowDef, run: ApprovalRun, from: nat, requester: Id, env: Env): (r: Next)
    ensures r.Next? ==>
              && from <= r.index < |run.levels| && r.level.key == run.levels[r.index]
              && r.assignees != [] && NoRepeats(r.assignees) && requester !in r.assignees
    decreases |run.levels| - from, requester
  {
    if from >= |run.levels| then NoMore
    else
      var level := LevelDef(wf, run, run.levels[from]);
      if level.None? then NextLevel(wf, run, from + 1, requester, env)
      else
        var assignees := ApproversFor(level.value, requester, env);
        if assignees == [] then Nobody(level.value) else Next(from, level.value, assignees)
  }

  // ---- plans ----

  datatype Close = CloseNone | CloseAll(status: Status) | CloseLevel(level: string, status: Status)

  datatype Decision = Decision(task: nat, status: Status, who: Id)

  datatype Start = Start(level: Level, assignees: seq<Id>)

  /// The state fields a commit sets; what is not set stays.
  datatype Change =
    | Stay
    | Advance(run: ApprovalRun)
    | Move(state: string, approval: Option<ApprovalRun>, sync: Sync)

  datatype Plan = Plan(
    change: Change, entry: Entry, decision: Option<Decision>, close: Close, start: Option<Start>)

  function PlanAct(db: Db, wf: WorkflowDef, key: string, user: Option<Id>, hasComment: bool, env: Env): Result<Plan> {
    var found := FindAction(wf.actions, key);
    if found.None? then Err(ActionNotFound) else
    var action := found.value;
    var inst := db.inst;
    var state := if inst.state.Some? then inst.state.value else wf.initialState;
    if state !in action.from || (inst.approval.Some? && action.approval.Some?) then Err(NotAvailable)
    else if user.Some? && !env.mayAct then Err(Forbidden)
    else if action.commentRequired && !hasComment then Err(CommentNeeded)
    else if !env.holds(action.condition) then Err(ConditionNotMet)
    else
      var who := if user.Some? then user.value else SYSTEM;
      var close := if inst.approval.Some? then CloseAll(Cancelled) else CloseNone;
      if action.approval.None? then Ok(MovePlan(who, action.key, state, action.to, None, close, None))
      else
        var def := action.approval.value;
        var levels := Holding(def.levels, env);
        if levels == [] then Ok(MovePlan(who, action.key, state, def.approvedState, None, close, None))
        else
          var assignees := ApproversFor(levels[0], inst.requester, env);
          if assignees == [] then Err(NoApprover(levels[0].key))
          else
            var run := ApprovalRun(action.key, action.to, def.approvedState, def.rejectedState, Keys(levels), 0);
            Ok(MovePlan(who, action.key, state, action.to, Some(run), close, Some(Start(levels[0], assignees))))
  }

  function MovePlan(who: Id, action: string, from: string, to: string, run: Option<ApprovalRun>,
                    close: Close, start: Option<Start>): Plan {
    Plan(Move(to, run, Sync(Some(from), to, action)), Entry(who, None, action, Some(from), Some(to), None),
         None, close, start)
  }

  /// Another pending task of the same level.
  predicate OthersPending(tasks: seq<Task>, id: nat, level: string) {
    exists k :: 0 <= k < |tasks| && k != id && tasks[k].status == Pending && tasks[k].level == level
  }

  function PlanDecide(db: Db, wf: Option<WorkflowDef>, id: nat, me: Id, approve: bool, env: Env): Result<Plan> {
    if id >= |db.tasks| then Err(TaskNotFound) else
    var task, inst := db.tasks[id], db.inst;
    if task.status != Pending then Err(AlreadyDecided)
    else if task.assignee != me && env.delegateOf(task.assignee) != Some(me) then Err(NotAssigned)
    else if inst.requester == me then Err(OwnRequest)
    else if inst.approval.None? then Err(AlreadyDecided)
    else if wf.None? then Err(WorkflowNotFound)
    else
      var run := inst.approval.value;
      var onBehalfOf := if task.assignee != me then Some(task.assignee) else None;
      if !approve then
        Ok(Plan(Move(run.rejectedState, None, Sync(inst.state, run.rejectedState, "reject")),
                Entry(me, onBehalfOf, "reject", inst.state, Some(run.rejectedState), Some(task.level)),
                Some(Decision(id, Rejected, me)), CloseAll(Cancelled), None))
      else
        var entry := Entry(me, onBehalfOf, "approve", inst.state, inst.state, Some(task.level));
        var decision := Some(Decision(id, Approved, me));
        if task.mode == AllOf && OthersPending(db.tasks, id, task.level) then
          Ok(Plan(Stay, entry, decision, CloseNone, None))
        else
          match NextLevel(wf.value, run, run.current + 1, inst.requester, env)
          case Nobody(level) => Err(NoApprover(level.key))
          case Next(index, level, assignees) =>
            Ok(Plan(Advance(run.(current := index)), entry, decision, CloseLevel(task.level, Cancelled),
                    Some(Start(level, assignees))))
          case NoMore =>
            Ok(Plan(Move(run.approvedState, None, Sync(inst.state, run.approvedState, "approve")),
                    entry.(to := Some(run.approvedState)), decision, CloseAll(Cancelled), None))
  }

  /// What a due task timer leads to.
  datatype TimerPlan = Nothing | Remind | RemindLast | Escalate(plan: Plan)

  function PlanTimer(db: Db, wf: Option<WorkflowDef>, id: nat, env: Env): TimerPlan {
    if id >= |db.tasks| || db.tasks[id].status != Pending || db.inst.approval.None? then Nothing
    else
      var task := db.tasks[id];
      if task.escalateAt.Some? && task.escalateAt.value <= env.now then PlanEscalate(db, wf, id, env)
      else if task.remindAt.Some? && task.remindAt.value <= env.now && !task.reminded then Remind
      else Nothing
  }

  function PendingAssignees(tasks: seq<Task>, level: string): set<Id> {
    set k | 0 <= k < |tasks| && tasks[k].status == Pending && tasks[k].level == level :: tasks[k].assignee
  }

  /// The people a level escalates to, without the requester and whoever already has it.
  function EscalationTargets(db: Db, level: Level, env: Env): (r: seq<Id>)
    ensures NoRepeats(r) && db.inst.requester !in r
    ensures forall id :: id in r ==> id !in PendingAssignees(db.tasks, level.key)
  {
    Without(Resolve(level.escalateTo, env), {db.inst.requester} + PendingAssignees(db.tasks, level.key))
  }

  function EscalateEntry(inst: Instance, level: string): Entry {
    Entry(SYSTEM, None, "escalate", inst.state, inst.state, Some(level))
  }

  function PlanEscalate(db: Db, wf: Option<WorkflowDef>, id: nat, env: Env): TimerPlan
    requires id < |db.tasks| && db.inst.approval.Some?
  {
    var task, inst := db.tasks[id], db.inst;
    var run := inst.approval.value;
    var level := if wf.Some? then LevelDef(wf.value, run, task.level) else None;
    if level.Some? && level.value.escalateTo != [] then
      var targets := EscalationTargets(db, level.value, env);
      if targets != [] then Escalate(EscalateToPlan(inst, id, level.value, targets)) else RemindLast
    else if run.current + 1 < |run.levels| then
      if wf.None? || run.current >= |run.levels| || run.levels[run.current] != task.level then Nothing
      else
        var next := NextLevel(wf.value, run, run.current + 1, inst.requester, env);
        if next.Next? then Escalate(SkipPlan(inst, run, task.level, next)) else Nothing
    else RemindLast
  }

  /// Hands task `id` over to `targets`, whose own tasks never escalate.
  function EscalateToPlan(inst: Instance, id: nat, level: Level, targets: seq<Id>): Plan {
    Plan(Stay, EscalateEntry(inst, level.key), Some(Decision(id, Escalated, SYSTEM)), CloseNone,
         Some(Start(level.(escalateAfter := None), targets)))
  }

  function SkipPlan(inst: Instance, run: ApprovalRun, level: string, next: Next): Plan
    requires next.Next?
  {
    Plan(Advance(run.(current := next.index)), EscalateEntry(inst, level), None, CloseLevel(level, Escalated),
         Some(Start(next.level, next.assignees)))
  }

  // ---- committing ----

  function Decided(tasks: seq<Task>, d: Option<Decision>): (r: seq<Task>)
    ensures |r| == |tasks|
  {
    if d.Some? && d.value.task < |tasks| && tasks[d.value.task].status == Pending
    then tasks[d.value.task := tasks[d.value.task].(status := d.value.status, decidedBy := Some(d.value.who))]
    else tasks
  }

  predicate Closes(close: Close, task: Task) {
    task.status == Pending
    && match close
       case CloseNone => false
       case CloseAll(_) => true
       case CloseLevel(level, _) => task.level == level
  }

  function CloseTask(close: Close, task: Task): Task {
    if !Closes(close, task) then task
    else task.(status := close.status, decidedBy := if close.status == Escalated then Some(SYSTEM) else task.decidedBy)
  }

  function Closed(tasks: seq<Task>, close: Close): (r: seq<Task>)
    ensures |r| == |tasks| && forall k :: 0 <= k < |tasks| ==> r[k] == CloseTask(close, tasks[k])
  {
    seq(|tasks|, k requires 0 <= k < |tasks| => CloseTask(close, tasks[k]))
  }

  /// A time `hours` from now; no hours, or zero, means no time.
  function TimeAfter(hours: Option<int>, env: Env): Option<int> {
    if hours.Some? && hours.value != 0 then Some(env.after(hours.value)) else None
  }

  function NewTask(level: Level, assignee: Id, env: Env): Task {
    Task(level.key, level.mode, assignee, Pending, TimeAfter(level.remindAfter, env),
         TimeAfter(level.escalateAfter, env), false, None)
  }

  function NewTasks(start: Option<Start>, env: Env): (r: seq<Task>)
    ensures start.None? ==> r == []
    ensures start.Some? ==> |r| == |start.value.assignees|
    ensures start.Some? ==>
              forall k :: 0 <= k < |r| ==> r[k] == NewTask(start.value.level, start.value.assignees[k], env)
  {
    if start.None? then []
    else
      var s := start.value;
      seq(|s.assignees|, k requires 0 <= k < |s.assignees| => NewTask(s.level, s.assignees[k], env))
  }

  /// When a task's timer is first due.
  function DueAt(task: Task): Option<int> {
    if task.remindAt.None? then task.escalateAt
    else if task.escalateAt.None? || task.remindAt.value <= task.escalateAt.value then task.remindAt
    else task.escalateAt
  }

  function TasksAfter(tasks: seq<Task>, plan: Plan, env: Env): seq<Task> {
    Closed(Decided(tasks, plan.decision), plan.close) + NewTasks(plan.start, env)
  }

  /// Timers of tasks that are closed go, new tasks get theirs.
  function TimersAfter(db: Db, plan: Plan, env: Env): map<nat, int> {
    var tasks := TasksAfter(db.tasks, plan, env);
    map k: nat | k < |tasks|
        && (if k < |db.tasks| then k in db.timers && !TimerGoes(db.tasks, plan, k) else DueAt(tasks[k]).Some?)
      :: if k < |db.tasks| then db.timers[k] else DueAt(tasks[k]).value
  }

  /// The timer of a decided approval task is removed whatever the status it has by then.
  predicate TimerGoes(tasks: seq<Task>, plan: Plan, k: nat)
    requires k < |tasks|
  {
    || (plan.decision.Some? && plan.decision.value.task == k)
    || Closes(plan.close, Decided(tasks, plan.decision)[k])
  }

  function InstanceAfter(inst: Instance, plan: Plan): Instance {
    var next := inst.(history := inst.history + [plan.entry], version := inst.version + 1);
    match plan.change
    case Stay => next
    case Advance(run) => next.(approval := Some(run))
    case Move(state, approval, sync) => next.(state := Some(state), approval := approval, sync := Some(sync))
  }

  function Commit(db: Db, plan: Plan, env: Env): Db {
    Db(InstanceAfter(db.inst, plan), TasksAfter(db.tasks, plan, env), TimersAfter(db, plan, env),
       db.syncJob || plan.change.Move?, db.recordStatus)
  }

  // ---- reminders ----

  /// A reminder: the timer moves to the escalation time, or goes.
  function Reminded(db: Db, id: nat): Db
    requires id < |db.tasks|
  {
    var task := db.tasks[id];
    db.(tasks := db.tasks[id := task.(reminded := true)],
        timers := if task.escalateAt.Some? then db.timers[id := task.escalateAt.value] else db.timers - {id})
  }

  /// The last reminder: no further escalation.
  function RemindedLast(db: Db, id: nat): Db
    requires id < |db.tasks|
  {
    db.(tasks := db.tasks[id := db.tasks[id].(reminded := true, escalateAt := None)], timers := db.timers - {id})
  }

  // ---- the copy on the record ----

  /// How the call to the record goes: answered, done with the answer lost, or not reached.
  datatype Call = Answered | AnswerLost | Unreachable

  datatype Pushed = Pushed(db: Db, ok: bool)

  function PushStatus(db: Db, call: Call): Pushed {
    if db.inst.sync.None? then Pushed(db, true)
    else
      var sync := db.inst.sync.value;
      var moves := call != Unreachable && db.recordStatus == sync.from;
      var status := if moves then Some(sync.to) else db.recordStatus;
      if call == Answered && (moves || db.recordStatus == Some(sync.to))
      then Pushed(db.(inst := db.inst.(sync := None), syncJob := false, recordStatus := status), true)
      else Pushed(db.(recordStatus := status), false)
  }
}
