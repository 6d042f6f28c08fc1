/// Runs of the workflow service: clients act on snapshots, commits are guarded by the
/// version, and reminders and status copies happen in between.

module WorkflowRuns {
  import opened Basics
  import opened Workflow
  import opened WorkflowInvariant

  /// What a client means to do, decided from its snapshot.
  datatype Intent =
    | Act(wf: WorkflowDef, key: string, user: Option<Id>, hasComment: bool)
    | Decide(config: Option<WorkflowDef>, task: nat, me: Id, approve: bool)
    | Escalation(config: Option<WorkflowDef>, task: nat)

  function PlanOf(db: Db, intent: Intent, env: Env): Result<Plan> {
    match intent
    case Act(wf, key, user, hasComment) => PlanAct(db, wf, key, user, hasComment, env)
    case Decide(wf, id, me, approve) => PlanDecide(db, wf, id, me, approve, env)
    case Escalation(wf, id) =>
      if IsPending(db.tasks, id) && db.inst.approval.Some? && PlanEscalate(db, wf, id, env).Escalate?
      then Ok(PlanEscalate(db, wf, id, env).plan) else Err(NotAvailable)
  }

  datatype Step =
    | Read(client: nat)
    | Attempt(client: nat, intent: Intent, env: Env)
    | Reminder(task: nat, last: bool)
    | DropTimer(task: nat)
    | Push(call: Call)

  /// The stored data, and the snapshot each client read last.
  datatype World = World(db: Db, seen: map<nat, Db>)

  /// The attempt finds the version it read and goes through.
  predicate Commits(w: World, client: nat, intent: Intent, env: Env) {
    && client in w.seen && w.seen[client].inst.version == w.db.inst.version
    && PlanOf(w.seen[client], intent, env).Ok?
  }

  function Apply(w: World, s: Step): World {
    match s
    case Read(c) => w.(seen := w.seen[c := w.db])
    case Attempt(c, intent, env) =>
      if Commits(w, c, intent, env) then w.(db := Commit(w.db, PlanOf(w.seen[c], intent, env).value, env)) else w
    case Reminder(id, last) =>
      if !IsPending(w.db.tasks, id) then w
      else w.(db := if last then RemindedLast(w.db, id) else Reminded(w.db, id))
    case DropTimer(id) => w.(db := w.db.(timers := w.db.timers - {id}))
    case Push(call) => w.(db := PushStatus(w.db, call).db)
  }

  function After(w: World, steps: seq<Step>): World {
    if steps == [] then w else Apply(After(w, steps[..|steps| - 1]), steps[|steps| - 1])
  }

  // ---- what a version stands for ----

  /// Equal but for the waiting copy, the record, timers and reminder times.
  ghost predicate SameCore(a: Db, b: Db) {
    && a.inst.(sync := None) == b.inst.(sync := None)
    && |a.tasks| == |b.tasks|
    && forall k :: 0 <= k < |a.tasks| ==>
         && a.tasks[k].status == b.tasks[k].status && a.tasks[k].level == b.tasks[k].level
         && a.tasks[k].mode == b.tasks[k].mode && a.tasks[k].assignee == b.tasks[k].assignee
  }

  ghost predicate WorldFits(w: World) {
    && Inv(w.db)
    && forall c :: c in w.seen ==>
         && w.seen[c].inst.history <= w.db.inst.history
         && w.seen[c].inst.version == |w.seen[c].inst.history|
         && (w.seen[c].inst.version == w.db.inst.version ==> SameCore(w.seen[c], w.db))
  }

  /// Plans depend on nothing but the part a version stands for.
  lemma SamePlan(a: Db, b: Db, intent: Intent, env: Env)
    requires SameCore(a, b)
    ensures PlanOf(a, intent, env) == PlanOf(b, intent, env)
  {
    SameInstance(a.inst, b.inst);
    match intent
    case Act(wf, key, user, hasComment) =>
    case Decide(wf, id, me, approve) =>
      if id < |a.tasks| { SameOthers(a.tasks, b.tasks, id, a.tasks[id].level); }
    case Escalation(wf, id) =>
      if IsPending(a.tasks, id) && a.inst.approval.Some? { SameEscalation(a, b, wf, id, env); }
  }

  lemma SameInstance(a: Instance, b: Instance)
    requires a.(sync := None) == b.(sync := None)
    ensures a.requester == b.requester && a.state == b.state && a.approval == b.approval
    ensures a.history == b.history && a.version == b.version
  {
    assert a.(sync := None).requester == a.requester && b.(sync := None).requester == b.requester;
  }

  lemma SameOthers(a: seq<Task>, b: seq<Task>, id: nat, level: string)
    requires |a| == |b| && forall k :: 0 <= k < |a| ==> a[k].status == b[k].status && a[k].level == b[k].level
    ensures OthersPending(a, id, level) == OthersPending(b, id, level)
  {
  }

  lemma SameEscalation(a: Db, b: Db, wf: Option<WorkflowDef>, id: nat, env: Env)
    requires SameCore(a, b) && id < |a.tasks| && a.inst.approval.Some? && b.inst.approval == a.inst.approval
    ensures PlanEscalate(a, wf, id, env) == PlanEscalate(b, wf, id, env)
  {
    SameInstance(a.inst, b.inst);
    var level := a.tasks[id].level;
    assert PendingAssignees(a.tasks, level) == PendingAssignees(b.tasks, level) by {
      forall x ensures x in PendingAssignees(a.tasks, level) <==> x in PendingAssignees(b.tasks, level) {
        SameAssignee(a.tasks, b.tasks, level, x);
        SameAssignee(b.tasks, a.tasks, level, x);
      }
    }
  }

  lemma SameAssignee(a: seq<Task>, b: seq<Task>, level: string, x: Id)
    requires |a| == |b|
    requires forall k :: 0 <= k < |a| ==>
               a[k].status == b[k].status && a[k].level == b[k].level && a[k].assignee == b[k].assignee
    ensures x in PendingAssignees(a, level) ==> x in PendingAssignees(b, level)
  {
    if x in PendingAssignees(a, level) {
      var k :| 0 <= k < |a| && a[k].status == Pending && a[k].level == level && a[k].assignee == x;
      assert b[k].assignee in PendingAssignees(b, level);
    }
  }

  // ---- every step keeps the invariant ----

  lemma IntentKeeps(db: Db, intent: Intent, env: Env)
    requires Inv(db) && PlanOf(db, intent, env).Ok?
    ensures Inv(Commit(db, PlanOf(db, intent, env).value, env))
  {
    match intent
    case Act(wf, key, user, hasComment) => ActKeeps(db, wf, key, user, hasComment, env);
    case Decide(wf, id, me, approve) => DecideKeeps(db, wf, id, me, approve, env);
    case Escalation(wf, id) => EscalateKeeps(db, wf, id, env);
  }

  lemma StepKeeps(w: World, s: Step)
    requires WorldFits(w)
    ensures WorldFits(Apply(w, s)) && w.db.inst.history <= Apply(w, s).db.inst.history
  {
    match s
    case Read(c) =>
    case Attempt(c, intent, env) => AttemptKeeps(w, c, intent, env);
    case Reminder(id, last) => ReminderKeeps(w, id, last);
    case DropTimer(id) =>
    case Push(call) => PushKeeps(w.db, call);
  }

  lemma AttemptKeeps(w: World, c: nat, intent: Intent, env: Env)
    requires WorldFits(w)
    ensures WorldFits(Apply(w, Attempt(c, intent, env)))
    ensures w.db.inst.history <= Apply(w, Attempt(c, intent, env)).db.inst.history
  {
    if Commits(w, c, intent, env) {
      SamePlan(w.seen[c], w.db, intent, env);
      IntentKeeps(w.db, intent, env);
    }
  }

  lemma ReminderKeeps(w: World, id: nat, last: bool)
    requires WorldFits(w)
    ensures WorldFits(Apply(w, Reminder(id, last))) && Apply(w, Reminder(id, last)).db.inst == w.db.inst
  {
    if IsPending(w.db.tasks, id) {
      RemindKeeps(w.db, id);
      var db := if last then RemindedLast(w.db, id) else Reminded(w.db, id);
      assert SameCore(w.db, db);
      SameCoreFits(w, db);
    }
  }

  lemma SameCoreFits(w: World, db: Db)
    requires WorldFits(w) && Inv(db) && db.inst == w.db.inst && SameCore(w.db, db)
    ensures WorldFits(w.(db := db))
  {
    forall c | c in w.seen && w.seen[c].inst.version == db.inst.version ensures SameCore(w.seen[c], db) {
      assert SameCore(w.seen[c], w.db);
    }
  }

  // ---- main results ----

  /// In every reachable state of every run the invariant holds, and the history only grows.
  lemma {:induction false} RunKeeps(w: World, steps: seq<Step>)
    requires WorldFits(w)
    ensures WorldFits(After(w, steps)) && w.db.inst.history <= After(w, steps).db.inst.history
  {
    if steps != [] {
      var before := steps[..|steps| - 1];
      RunKeeps(w, before);
      StepKeeps(After(w, before), steps[|steps| - 1]);
    }
  }

  lemma ReachableFits(requester: Id, status: Option<string>, steps: seq<Step>)
    ensures Inv(After(World(NewDb(requester, status), map[]), steps).db)
  {
    NewDbFits(requester, status);
    RunKeeps(World(NewDb(requester, status), map[]), steps);
  }

  /// Interleaving is invisible: in every reachable state an attempt that goes through does
  /// exactly what the operation would do on the stored data, whatever happened since its read.
  lemma CommitsAreSerial(requester: Id, status: Option<string>, steps: seq<Step>, c: nat, intent: Intent, env: Env)
    ensures var w := After(World(NewDb(requester, status), map[]), steps);
            Commits(w, c, intent, env) ==>
              && PlanOf(w.db, intent, env).Ok?
              && Apply(w, Attempt(c, intent, env)).db == Commit(w.db, PlanOf(w.db, intent, env).value, env)
  {
    var w := After(World(NewDb(requester, status), map[]), steps);
    NewDbFits(requester, status);
    RunKeeps(World(NewDb(requester, status), map[]), steps);
    if Commits(w, c, intent, env) { SamePlan(w.seen[c], w.db, intent, env); }
  }

  /// While an approval runs, a step changes its level only if it is an approval that completes
  /// the level, or an escalation of a level that is gone or names nobody to escalate to; and
  /// then the run passes no level that is still in the configuration.
  lemma RunMovesOnlyBy(w: World, s: Step)
    requires WorldFits(w) && w.db.inst.approval.Some? && Apply(w, s).db.inst.approval.Some?
    ensures var run := w.db.inst.approval.value;
            Apply(w, s).db.inst.approval != Some(run) ==>
              && s.Attempt? && MovesRun(w.db, s.intent, run)
              && MovesOn(s.intent.config.value, run, Apply(w, s).db.inst.approval)
  {
    match s
    case Attempt(c, intent, env) =>
      if Commits(w, c, intent, env) {
        SamePlan(w.seen[c], w.db, intent, env);
        IntentMoves(w.db, intent, env);
      }
    case _ =>
  }

  ghost predicate MovesRun(db: Db, intent: Intent, run: ApprovalRun)
    requires Inv(db) && db.inst.approval == Some(run)
  {
    match intent
    case Act(_, _, _, _) => false
    case Decide(wf, id, me, approve) => approve && IsPending(db.tasks, id) && Completes(db, id) && wf.Some?
    case Escalation(wf, id) => wf.Some? && NamesNobody(LevelDef(wf.value, run, run.levels[run.current]))
  }

  predicate NamesNobody(level: Option<Level>) { level.None? || level.value.escalateTo == [] }

  lemma IntentMoves(db: Db, intent: Intent, env: Env)
    requires Inv(db) && db.inst.approval.Some? && PlanOf(db, intent, env).Ok?
    requires Commit(db, PlanOf(db, intent, env).value, env).inst.approval.Some?
    ensures var run := db.inst.approval.value;
            var after := Commit(db, PlanOf(db, intent, env).value, env).inst.approval;
            after != Some(run) ==> MovesRun(db, intent, run) && MovesOn(intent.config.value, run, after)
  {
    match intent
    case Act(wf, key, user, hasComment) =>
    case Decide(wf, id, me, approve) =>
      if approve {
        if Completes(db, id) { CompletingApproval(db, wf, id, me, env); } else { PartialApproval(db, wf, id, me, env); }
      } else {
        Rejection(db, wf, id, me, env);
      }
    case Escalation(wf, id) => EscalationMovesRun(db, wf, id, env);
  }

  // ---- the copy on the record ----

  /// An answered push succeeds exactly when the record still has the old state or already
  /// has the new one; then the record has the state and nothing waits.
  lemma PushSucceeds(db: Db)
    requires Inv(db) && db.inst.sync.Some?
    ensures var sync := db.inst.sync.value;
            PushStatus(db, Answered).ok <==> db.recordStatus == sync.from || db.recordStatus == Some(sync.to)
    ensures PushStatus(db, Answered).ok ==>
              var after := PushStatus(db, Answered).db;
              after.recordStatus == db.inst.state && after.inst.sync.None? && !after.syncJob
  {
  }

  /// A lost answer does no harm: pushing again finds the record already there.
  lemma PushAgain(db: Db)
    requires Inv(db) && db.inst.sync.Some? && PushStatus(db, Answered).ok
    ensures PushStatus(PushStatus(db, AnswerLost).db, Answered) == PushStatus(db, Answered)
  {
  }

  /// Otherwise no number of pushes changes anything.
  lemma {:induction false} PushStalls(db: Db, calls: seq<Call>)
    requires Inv(db) && db.inst.sync.Some? && !PushStatus(db, Answered).ok
    ensures After(World(db, map[]), Pushes(calls)).db == db
  {
    if calls != [] {
      var n := |calls| - 1;
      assert Pushes(calls)[..n] == Pushes(calls[..n]);
      PushStalls(db, calls[..n]);
      AfterSeen(World(db, map[]), Pushes(calls[..n]));
    }
  }

  function Pushes(calls: seq<Call>): (steps: seq<Step>)
    ensures |steps| == |calls| && forall i :: 0 <= i < |calls| ==> steps[i] == Push(calls[i])
  {
    seq(|calls|, i requires 0 <= i < |calls| => Push(calls[i]))
  }

  lemma {:induction false} AfterSeen(w: World, steps: seq<Step>)
    requires forall i :: 0 <= i < |steps| ==> steps[i].Push?
    ensures After(w, steps).seen == w.seen
  {
    if steps != [] { AfterSeen(w, steps[..|steps| - 1]); }
  }

  /// A state change of a settled instance reaches the record exactly when the instance had a
  /// state before: otherwise the copy names the initial state, which the record does not have.
  lemma SettledMoveReaches(db: Db, intent: Intent, env: Env)
    requires Inv(db) && db.inst.sync.None? && PlanOf(db, intent, env).Ok? && PlanOf(db, intent, env).value.change.Move?
    ensures PushStatus(Commit(db, PlanOf(db, intent, env).value, env), Answered).ok <==> db.inst.state.Some?
  {
  }

  /// A change made while an earlier copy waits replaces it. If the earlier one was never
  /// made, the new copy goes through only when it starts or ends at the record's old state.
  lemma OverlapReaches(db: Db, intent: Intent, env: Env)
    requires Inv(db) && db.inst.sync.Some? && PlanOf(db, intent, env).Ok? && PlanOf(db, intent, env).value.change.Move?
    ensures var to := PlanOf(db, intent, env).value.change.state;
            PushStatus(Commit(db, PlanOf(db, intent, env).value, env), Answered).ok
            <==> db.recordStatus == db.inst.state || db.recordStatus == Some(to)
  {
  }
}
