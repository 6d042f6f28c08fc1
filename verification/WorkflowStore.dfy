/// The workflow service as it works on the stored instance, tasks and jobs of one record.

module WorkflowStore {
  import opened Basics
  import opened Workflow
  import opened WorkflowInvariant
  import opened WorkflowRuns

  const MAX_TRIES: nat := 5

  /// What another commits from the data as it is.
  function OneRival(db: Db, other: (Intent, Env)): (after: Db)
    ensures db.inst.version <= after.inst.version
    ensures db.inst.version == after.inst.version ==> after == db
  {
    var plan := PlanOf(db, other.0, other.1);
    if plan.Ok? then Commit(db, plan.value, other.1) else db
  }

  /// What others commit, one after the other.
  function Rivals(db: Db, others: seq<(Intent, Env)>): (after: Db)
    ensures db.inst.version <= after.inst.version
    ensures db.inst.version == after.inst.version ==> after == db
    decreases |others|, db
  {
    if others == [] then db else Rivals(OneRival(db, others[0]), others[1..])
  }

  datatype Outcome = Outcome(db: Db, result: Result<Plan>)

  datatype OneTry = OneTry(db: Db, result: Result<Plan>, done: bool)

  /// One try: others commit between the read and the commit.
  function Tried(db: Db, intent: Intent, env: Env, others: seq<(Intent, Env)>): OneTry {
    var plan := PlanOf(db, intent, env);
    if plan.Err? then OneTry(db, plan, true)
    else
      var now := Rivals(db, others);
      if now.inst.version == db.inst.version then OneTry(Commit(now, plan.value, env), plan, true)
      else OneTry(now, plan, false)
  }

  function OthersAt(rivals: seq<seq<(Intent, Env)>>, i: nat): seq<(Intent, Env)> {
    if i < |rivals| then rivals[i] else []
  }

  /// Up to five tries, each planning from the data as it is; `rivals[i]` is what others
  /// commit between the read and the commit of try `i`.
  function Retried(db: Db, intent: Intent, env: Env, rivals: seq<seq<(Intent, Env)>>, i: nat): Outcome
    decreases MAX_TRIES - i, rivals
  {
    if i >= MAX_TRIES then Outcome(db, Err(Conflict))
    else
      var a := Tried(db, intent, env, OthersAt(rivals, i));
      if a.done then Outcome(a.db, a.result) else Retried(a.db, intent, env, rivals, i + 1)
  }

  lemma AfterTry(db: Db, intent: Intent, env: Env, rivals: seq<seq<(Intent, Env)>>, i: nat, a: OneTry)
    requires i < MAX_TRIES && a == Tried(db, intent, env, OthersAt(rivals, i))
    ensures Retried(db, intent, env, rivals, i)
         == if a.done then Outcome(a.db, a.result) else Retried(a.db, intent, env, rivals, i + 1)
  {
  }

  lemma {:induction false} RivalsKeep(db: Db, others: seq<(Intent, Env)>)
    requires Inv(db)
    ensures Inv(Rivals(db, others)) && db.inst.history <= Rivals(db, others).inst.history
    decreases |others|
  {
    if others != [] {
      OneRivalKeeps(db, others[0]);
      RivalsKeep(OneRival(db, others[0]), others[1..]);
    }
  }

  lemma OneRivalKeeps(db: Db, other: (Intent, Env))
    requires Inv(db)
    ensures Inv(OneRival(db, other)) && db.inst.history <= OneRival(db, other).inst.history
  {
    if PlanOf(db, other.0, other.1).Ok? { IntentKeeps(db, other.0, other.1); }
  }

  /// The operation done once on `found`, or nothing of it; it is given up as a conflict only
  /// after `tries` rival commits.
  ghost predicate DoneOnce(db: Db, found: Db, o: Outcome, intent: Intent, env: Env, tries: nat) {
    && Inv(found) && Inv(o.db) && db.inst.history <= found.inst.history
    && match o.result
       case Ok(plan) => PlanOf(found, intent, env) == Ok(plan) && o.db == Commit(found, plan, env)
       case Err(e) =>
         && o.db == found
         && (PlanOf(found, intent, env) == Err(e)
             || (e == Conflict && |found.inst.history| >= |db.inst.history| + tries))
  }

  /// However others interfere, the outcome is the operation done once on the data some try
  /// found.
  lemma {:induction false} RetriedOnce(db: Db, intent: Intent, env: Env, rivals: seq<seq<(Intent, Env)>>, i: nat) returns (found: Db)
    requires Inv(db) && i < MAX_TRIES
    ensures DoneOnce(db, found, Retried(db, intent, env, rivals, i), intent, env, MAX_TRIES - i)
    decreases MAX_TRIES - i
  {
    var a := Tried(db, intent, env, OthersAt(rivals, i));
    TriedOnce(db, intent, env, OthersAt(rivals, i), MAX_TRIES - i);
    AfterTry(db, intent, env, rivals, i, a);
    if a.done {
      found := db;
    } else if i + 1 == MAX_TRIES {
      found := a.db;
      GivenUp(db, a.db, intent, env);
    } else {
      found := RetriedOnce(a.db, intent, env, rivals, i + 1);
      DoneOnceLater(db, a.db, found, Retried(a.db, intent, env, rivals, i + 1), intent, env, MAX_TRIES - i - 1);
    }
  }

  lemma TriedOnce(db: Db, intent: Intent, env: Env, others: seq<(Intent, Env)>, tries: nat)
    requires Inv(db)
    ensures var a := Tried(db, intent, env, others);
            if a.done then DoneOnce(db, db, Outcome(a.db, a.result), intent, env, tries)
            else Inv(a.db) && db.inst.history <= a.db.inst.history && a.db.inst.version != db.inst.version
  {
    var plan := PlanOf(db, intent, env);
    if plan.Ok? {
      RivalsKeep(db, others);
      DoneNow(db, intent, env, tries);
    }
  }

  lemma DoneNow(db: Db, intent: Intent, env: Env, tries: nat)
    requires Inv(db) && PlanOf(db, intent, env).Ok?
    ensures var plan := PlanOf(db, intent, env);
            DoneOnce(db, db, Outcome(Commit(db, plan.value, env), plan), intent, env, tries)
  {
    IntentKeeps(db, intent, env);
  }

  lemma GivenUp(db: Db, now: Db, intent: Intent, env: Env)
    requires Inv(db) && Inv(now) && db.inst.history <= now.inst.history && now.inst.version != db.inst.version
    ensures DoneOnce(db, now, Outcome(now, Err(Conflict)), intent, env, 1)
  {
  }

  lemma DoneOnceLater(db: Db, now: Db, found: Db, o: Outcome, intent: Intent, env: Env, tries: nat)
    requires DoneOnce(now, found, o, intent, env, tries)
    requires Inv(db) && Inv(now) && db.inst.history <= now.inst.history && now.inst.version != db.inst.version
    ensures DoneOnce(db, found, o, intent, env, tries + 1)
  {
  }

  // ---- timers ----

  function AfterTimer(db: Db, wf: Option<WorkflowDef>, id: nat, env: Env): Db {
    match PlanTimer(db, wf, id, env)
    case Nothing => db
    case Remind => Reminded(db, id)
    case RemindLast => RemindedLast(db, id)
    case Escalate(plan) => Commit(db, plan, env)
  }

  /// A timer job that ran is removed unless it was moved meanwhile.
  function Finished(db: Db, id: nat, due: int): Db {
    if id in db.timers && db.timers[id] == due then db.(timers := db.timers - {id}) else db
  }

  lemma TimerKeeps(db: Db, wf: Option<WorkflowDef>, id: nat, due: int, env: Env)
    requires Inv(db)
    ensures Inv(AfterTimer(db, wf, id, env)) && Inv(Finished(AfterTimer(db, wf, id, env), id, due))
  {
    match PlanTimer(db, wf, id, env)
    case Nothing =>
    case Remind => RemindKeeps(db, id);
    case RemindLast => RemindKeeps(db, id);
    case Escalate(plan) => EscalateKeeps(db, wf, id, env);
  }

  // ---- timers of a commit, step by step ----

  function TimersClosed(tasks: seq<Task>, timers: map<nat, int>, close: Close, n: nat): map<nat, int>
    requires n <= |tasks|
  {
    map k | k in timers && !(k < n && Closes(close, tasks[k])) :: timers[k]
  }

  lemma TimerClosed(tasks: seq<Task>, timers: map<nat, int>, close: Close, n: nat)
    requires n < |tasks|
    ensures TimersClosed(tasks, timers, close, n + 1)
         == (if Closes(close, tasks[n]) then TimersClosed(tasks, timers, close, n) - {n}
             else TimersClosed(tasks, timers, close, n))
  {
  }

  function TimersAdded(timers: map<nat, int>, first: nat, added: seq<Task>): map<nat, int> {
    if added == [] then timers
    else
      var n := |added| - 1;
      var rest := TimersAdded(timers, first, added[..n]);
      if DueAt(added[n]).Some? then rest[first + n := DueAt(added[n]).value] else rest
  }

  lemma {:induction false} AddedTimer(timers: map<nat, int>, first: nat, added: seq<Task>, k: nat)
    requires forall j :: j in timers ==> j < first
    ensures k in TimersAdded(timers, first, added) <==>
              k in timers || (first <= k < first + |added| && DueAt(added[k - first]).Some?)
    ensures k in timers ==> k in TimersAdded(timers, first, added) && TimersAdded(timers, first, added)[k] == timers[k]
    ensures k >= first && k in TimersAdded(timers, first, added) ==>
              TimersAdded(timers, first, added)[k] == DueAt(added[k - first]).value
  {
    if added != [] { AddedTimer(timers, first, added[..|added| - 1], k); }
  }

  lemma TimersOfCommit(db: Db, plan: Plan, env: Env, dropped: map<nat, int>)
    requires TimersFit(db)
    requires dropped == if plan.decision.Some? then db.timers - {plan.decision.value.task} else db.timers
    ensures TimersAdded(TimersClosed(Decided(db.tasks, plan.decision), dropped, plan.close, |db.tasks|),
                        |db.tasks|, NewTasks(plan.start, env))
         == TimersAfter(db, plan, env)
  {
    var n := |db.tasks|;
    var closed := TimersClosed(Decided(db.tasks, plan.decision), dropped, plan.close, n);
    var all := TimersAdded(closed, n, NewTasks(plan.start, env));
    var after := TimersAfter(db, plan, env);
    forall k: nat ensures k in all <==> k in after
      ensures k in all ==> all[k] == after[k]
    {
      if k < n { OldTimer(db, plan, env, dropped, k); } else { NewTimer(db, plan, env, closed, k); }
    }
  }

  lemma OldTimer(db: Db, plan: Plan, env: Env, dropped: map<nat, int>, k: nat)
    requires TimersFit(db) && k < |db.tasks|
    requires dropped == if plan.decision.Some? then db.timers - {plan.decision.value.task} else db.timers
    ensures var all := TimersAdded(TimersClosed(Decided(db.tasks, plan.decision), dropped, plan.close, |db.tasks|),
                                   |db.tasks|, NewTasks(plan.start, env));
            && (k in all <==> k in TimersAfter(db, plan, env))
            && (k in all ==> all[k] == TimersAfter(db, plan, env)[k])
  {
    var n := |db.tasks|;
    AddedTimer(TimersClosed(Decided(db.tasks, plan.decision), dropped, plan.close, n), n, NewTasks(plan.start, env), k);
  }

  lemma NewTimer(db: Db, plan: Plan, env: Env, closed: map<nat, int>, k: nat)
    requires k >= |db.tasks| && forall j :: j in closed ==> j < |db.tasks|
    ensures var all := TimersAdded(closed, |db.tasks|, NewTasks(plan.start, env));
            && (k in all <==> k in TimersAfter(db, plan, env))
            && (k in all ==> all[k] == TimersAfter(db, plan, env)[k])
  {
    var n, added, tasks := |db.tasks|, NewTasks(plan.start, env), TasksAfter(db.tasks, plan, env);
    AddedTimer(closed, n, added, k);
    if k < |tasks| { assert tasks[k] == added[k - n]; }
  }

  // ---- the service ----

  /// The loop over the levels of a run.
  method FindNextLevel(wf: WorkflowDef, run: ApprovalRun, from: nat, requester: Id, env: Env) returns (r: Next)
    ensures r == NextLevel(wf, run, from, requester, env)
  {
    var i := from;
    while i < |run.levels|
      invariant from <= i
      invariant NextLevel(wf, run, from, requester, env) == NextLevel(wf, run, i, requester, env)
    {
      var level := LevelDef(wf, run, run.levels[i]);
      if level.Some? {
        var assignees := ApproversFor(level.value, requester, env);
        return if assignees == [] then Nobody(level.value) else Next(i, level.value, assignees);
      }
      i := i + 1;
    }
    r := NoMore;
  }

  class Store {
    var inst: Instance
    var tasks: seq<Task>
    var timers: map<nat, int>
    var syncJob: bool
    var recordStatus: Option<string>

    function Current(): Db
      reads this
    {
      Db(inst, tasks, timers, syncJob, recordStatus)
    }

    ghost predicate Valid()
      reads this
    {
      Inv(Current())
    }

    constructor (requester: Id, status: Option<string>)
      ensures Valid() && Current() == NewDb(requester, status)
    {
      inst := Instance(requester, status, None, [], None, 0);
      tasks := [];
      timers := map[];
      syncJob := false;
      recordStatus := status;
    }

    method DecideTask(d: Decision)
      modifies this`tasks, this`timers
      ensures tasks == Decided(old(tasks), Some(d)) && timers == old(timers) - {d.task}
    {
      if d.task < |tasks| && tasks[d.task].status == Pending {
        tasks := tasks[d.task := tasks[d.task].(status := d.status, decidedBy := Some(d.who))];
      }
      timers := timers - {d.task};
    }

    /// Closes the open tasks a filter selects and removes their timers.
    method CloseOpen(close: Close)
      modifies this`tasks, this`timers
      ensures tasks == Closed(old(tasks), close)
      ensures timers == TimersClosed(old(tasks), old(timers), close, |old(tasks)|)
    {
      var k := 0;
      while k < |tasks|
        invariant k <= |tasks| == |old(tasks)|
        invariant forall j :: 0 <= j < k ==> tasks[j] == CloseTask(close, old(tasks)[j])
        invariant forall j :: k <= j < |tasks| ==> tasks[j] == old(tasks)[j]
        invariant timers == TimersClosed(old(tasks), old(timers), close, k)
      {
        TimerClosed(old(tasks), old(timers), close, k);
        if Closes(close, tasks[k]) {
          tasks := tasks[k := CloseTask(close, tasks[k])];
          timers := timers - {k};
        }
        k := k + 1;
      }
    }

    /// One approval task for each assignee comes in, and its timer with it.
    method StartLevel(level: Level, assignees: seq<Id>, env: Env)
      modifies this`tasks, this`timers
      ensures tasks == old(tasks) + NewTasks(Some(Start(level, assignees)), env)
      ensures timers == TimersAdded(old(timers), |old(tasks)|, NewTasks(Some(Start(level, assignees)), env))
    {
      ghost var created := NewTasks(Some(Start(level, assignees)), env);
      var i := 0;
      while i < |assignees|
        invariant i <= |assignees|
        invariant tasks == old(tasks) + created[..i]
        invariant timers == TimersAdded(old(timers), |old(tasks)|, created[..i])
      {
        var task := NewTask(level, assignees[i], env);
        assert created[..i + 1] == created[..i] + [task];
        assert created[..i + 1][..i] == created[..i];
        var due := DueAt(task);
        if due.Some? { timers := timers[|tasks| := due.value]; }
        tasks := tasks + [task];
        i := i + 1;
      }
      assert created[..i] == created;
    }

    method CommitInstance(plan: Plan)
      modifies this`inst, this`syncJob
      ensures inst == InstanceAfter(old(inst), plan) && syncJob == (old(syncJob) || plan.change.Move?)
    {
      match plan.change {
        case Stay =>
        case Advance(run) => inst := inst.(approval := Some(run));
        case Move(state, approval, sync) =>
          inst := inst.(state := Some(state), approval := approval, sync := Some(sync));
          syncJob := true;
      }
      inst := inst.(history := inst.history + [plan.entry], version := inst.version + 1);
    }

    /// Guarded by the version: conflicting writers get `false` and change nothing.
    method CommitPlan(version: nat, plan: Plan, env: Env) returns (ok: bool)
      requires TimersFit(Current())
      modifies this
      ensures ok <==> old(inst.version) == version
      ensures Current() == if ok then Commit(old(Current()), plan, env) else old(Current())
    {
      if inst.version != version { return false; }
      ok := true;
      ghost var db := Current();
      CommitInstance(plan);
      if plan.decision.Some? { DecideTask(plan.decision.value); }
      TimersOfCommit(db, plan, env, timers);
      CloseOpen(plan.close);
      if plan.start.Some? { StartLevel(plan.start.value.level, plan.start.value.assignees, env); }
      assert tasks == TasksAfter(db.tasks, plan, env);
    }

    method InterfereOnce(other: (Intent, Env))
      requires Valid()
      modifies this
      ensures Valid() && Current() == OneRival(old(Current()), other)
    {
      OneRivalKeeps(Current(), other);
      var plan := PlanOf(Current(), other.0, other.1);
      if plan.Ok? {
        var done := CommitPlan(inst.version, plan.value, other.1);
      }
    }

    /// Others at work between a read and a commit.
    method Interfere(others: seq<(Intent, Env)>)
      requires Valid()
      modifies this
      ensures Valid() && Current() == Rivals(old(Current()), others)
    {
      var i := 0;
      while i < |others|
        invariant i <= |others| && Valid()
        invariant Rivals(Current(), others[i..]) == Rivals(old(Current()), others)
      {
        assert others[i..][1..] == others[i + 1..];
        InterfereOnce(others[i]);
        i := i + 1;
      }
    }

    /// One read and one commit, with others at work in between.
    method TryOnce(intent: Intent, env: Env, others: seq<(Intent, Env)>) returns (r: Result<Plan>, done: bool)
      requires Valid()
      modifies this
      ensures Valid() && OneTry(Current(), r, done) == Tried(old(Current()), intent, env, others)
    {
      var version := inst.version;
      r := PlanOf(Current(), intent, env);
      done := true;
      if r.Ok? {
        IntentKeeps(Current(), intent, env);
        Interfere(others);
        done := CommitPlan(version, r.value, env);
      }
    }

    method Retrying(intent: Intent, env: Env, rivals: seq<seq<(Intent, Env)>>) returns (r: Result<Plan>)
      requires Valid()
      modifies this
      ensures Valid() && Outcome(Current(), r) == Retried(old(Current()), intent, env, rivals, 0)
    {
      var i: nat := 0;
      while true
        invariant i < MAX_TRIES && Valid()
        invariant Retried(Current(), intent, env, rivals, i) == Retried(old(Current()), intent, env, rivals, 0)
        decreases MAX_TRIES - i
      {
        ghost var before := Current();
        var done: bool;
        r, done := TryOnce(intent, env, OthersAt(rivals, i));
        AfterTry(before, intent, env, rivals, i, OneTry(Current(), r, done));
        if done { return; }
        if i + 1 == MAX_TRIES { return Err(Conflict); }
        i := i + 1;
      }
    }

    /// A user's or automation's action, or a decision on a task.
    method Perform(intent: Intent, env: Env, rivals: seq<seq<(Intent, Env)>>, call: Call) returns (r: Result<Plan>)
      requires Valid()
      modifies this
      ensures Valid()
      ensures var o := Retried(old(Current()), intent, env, rivals, 0);
              && r == o.result
              && Current() == if r.Ok? && r.value.change.Move? then PushStatus(o.db, call).db else o.db
    {
      r := Retrying(intent, env, rivals);
      if r.Ok? && r.value.change.Move? {
        var copied := CopyStatus(call);
      }
    }

    /// One push of the waiting copy, if there is one; after a failure the job stays for another.
    method CopyStatus(call: Call) returns (ok: bool)
      requires Valid()
      modifies this
      ensures Valid() && PushStatus(old(Current()), call) == Pushed(Current(), ok)
    {
      PushKeeps(Current(), call);
      if inst.sync.None? { return true; }
      var sync := inst.sync.value;
      var moves := call != Unreachable && recordStatus == sync.from;
      if moves { recordStatus := Some(sync.to); }
      var alreadyThere := call == Answered && recordStatus == Some(sync.to);
      if call != Answered || (!moves && !alreadyThere) { return false; }
      inst := inst.(sync := None);
      syncJob := false;
      ok := true;
    }

    /// Runs the timer of task `id` as it was due at `due`.
    method RunTaskTimer(wf: Option<WorkflowDef>, id: nat, due: int, env: Env)
      requires Valid()
      modifies this
      ensures Valid() && Current() == Finished(AfterTimer(old(Current()), wf, id, env), id, due)
    {
      TimerKeeps(Current(), wf, id, due, env);
      var plan := PlanTimer(Current(), wf, id, env);
      match plan {
        case Nothing =>
        case Remind =>
          var escalateAt := tasks[id].escalateAt;
          tasks := tasks[id := tasks[id].(reminded := true)];
          timers := if escalateAt.Some? then timers[id := escalateAt.value] else timers - {id};
        case RemindLast =>
          tasks := tasks[id := tasks[id].(reminded := true, escalateAt := None)];
          timers := timers - {id};
        case Escalate(p) =>
          var done := CommitPlan(inst.version, p, env);
      }
      if id in timers && timers[id] == due { timers := timers - {id}; }
    }
  }
}
