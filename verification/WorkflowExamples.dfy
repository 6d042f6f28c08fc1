/// Concrete runs in which an approval gets stuck or a status copy does not arrive.

module WorkflowExamples {
  import opened Basics
  import opened Workflow
  import opened WorkflowInvariant
  import opened WorkflowRuns
  import opened WorkflowEscalation

  /// For example: one approver, one deputy to escalate to, and the approver approves between
  /// the escalation's read and its retry.
  lemma LateHandOverExample() returns (early: Db, later: Db, level: Level, env: Env)
    ensures Inv(early) && Inv(later) && IsPending(early.tasks, 0) && early.inst.approval.Some?
    ensures EscalationTargets(early, level, env) == ["deputy"]
    ensures !Inv(LateHandOver(early, later, 0, level, ["deputy"], env))
  {
    level := Level("l", AnyOf, "", [Spec("head")], [Spec("stand-in")], None, Some(24));
    var def := ApprovalDef([level], "approved", "rejected");
    var submit := Action("submit", {"draft"}, "waiting", false, "", Some(def));
    var wf := WorkflowDef("draft", [submit]);
    env := Env(0, (h: int) => h, specs => if specs == [Spec("head")] then ["boss"] else ["deputy"],
               {"boss", "deputy"}, (id: Id) => None, (c: string) => true, true);
    var start := NewDb("clerk", Some("draft"));
    NewDbFits("clerk", Some("draft"));
    ExamplePeople(level, env);
    assert Holding([level], env) == [level] by { assert [level][..0] == []; }
    ActKeeps(start, wf, "submit", Some("clerk"), false, env);
    var plan := PlanAct(start, wf, "submit", Some("clerk"), false, env).value;
    assert plan.start == Some(Start(level, ["boss"]));
    early := Commit(start, plan, env);
    assert early.tasks == [NewTask(level, "boss", env)];
    ExampleTargets(early, level, env);
    assert NextLevel(wf, early.inst.approval.value, 1, "clerk", env) == NoMore;
    var approval := PlanDecide(early, Some(wf), 0, "boss", true, env).value;
    later := Commit(early, approval, env);
    LateHandOverAfterDecision(early, Some(wf), 0, level, env, 0, "boss", true);
  }

  lemma ExamplePeople(level: Level, env: Env)
    requires env.named(level.approvers) == ["boss"] && env.active == {"boss", "deputy"}
    ensures ApproversFor(level, "clerk", env) == ["boss"]
  {
    OnePerson("boss", env.active, {"clerk"});
  }

  lemma ExampleTargets(db: Db, level: Level, env: Env)
    requires env.named(level.escalateTo) == ["deputy"] && env.active == {"boss", "deputy"}
    requires db.inst.requester == "clerk" && db.tasks == [NewTask(level, "boss", env)]
    ensures EscalationTargets(db, level, env) == ["deputy"]
  {
    OnePerson("deputy", env.active, {"clerk"} + PendingAssignees(db.tasks, level.key));
  }

  lemma OnePerson(id: Id, active: set<Id>, banned: set<Id>)
    requires id in active && id !in banned
    ensures Without(Keep(Distinct([id]), active), banned) == [id]
  {
    assert [id][..0] == [];
    assert Distinct([id]) == [id];
    assert Keep([id], active) == [id];
  }

  // ---- nobody new to escalate to ----

  /// The head may decide, and is also the one to escalate to; a second level waits.
  function HeadLevel(): Level { Level("head", AnyOf, "", [Spec("head")], [Spec("head")], None, Some(24)) }

  function LastLevel(): Level { Level("last", AnyOf, "", [Spec("last")], [], None, None) }

  function TwoLevels(): WorkflowDef {
    WorkflowDef("draft", [Action("submit", {"draft"}, "waiting", false, "",
                                 Some(ApprovalDef([HeadLevel(), LastLevel()], "approved", "rejected")))])
  }

  function Office(): Env {
    Env(0, (h: int) => h, specs => if specs == [Spec("head")] then ["boss"] else ["deputy"],
        {"boss", "deputy"}, (id: Id) => None, (c: string) => true, true)
  }

  // ---- short runs ----

  lemma AfterOne(w: World, steps: seq<Step>, s: Step)
    ensures After(w, steps + [s]) == Apply(After(w, steps), s)
  {
    assert (steps + [s])[..|steps|] == steps;
  }

  /// Reading and then acting, with nobody in between.
  function Doing(intent: Intent, env: Env): seq<Step> { [Read(0)] + [Attempt(0, intent, env)] }

  lemma Done(w: World, steps: seq<Step>, intent: Intent, env: Env)
    requires PlanOf(After(w, steps).db, intent, env).Ok?
    ensures After(w, steps + Doing(intent, env)).db
         == Commit(After(w, steps).db, PlanOf(After(w, steps).db, intent, env).value, env)
  {
    var read := steps + [Read(0)];
    AfterOne(w, steps, Read(0));
    AfterOne(w, read, Attempt(0, intent, env));
    assert steps + Doing(intent, env) == read + [Attempt(0, intent, env)];
  }

  const SUBMIT: Intent := Act(TwoLevels(), "submit", Some("clerk"), false)

  function Start0(): World { World(NewDb("clerk", Some("draft")), map[]) }

  lemma SubmitPlan()
    ensures var r := PlanOf(Start0().db, SUBMIT, Office());
            && r.Ok? && r.value.close == CloseNone && r.value.start == Some(Start(HeadLevel(), ["boss"])) && r.value.decision == None
            && r.value.change.Move? && r.value.change.state == "waiting"
            && r.value.change.approval == Some(ApprovalRun("submit", "waiting", "approved", "rejected", ["head", "last"], 0))
  {
    assert TwoLevels().actions[0].key == "submit";
    LevelsHold();
    BossApproves();
  }

  lemma LevelsHold()
    ensures Holding([HeadLevel(), LastLevel()], Office()) == [HeadLevel(), LastLevel()]
    ensures Keys([HeadLevel(), LastLevel()]) == ["head", "last"]
  {
    var levels := [HeadLevel(), LastLevel()];
    assert levels[..1] == [HeadLevel()] && levels[..1][..0] == [];
    assert Holding([], Office()) == [];
    assert Holding(levels[..1], Office()) == [] + [HeadLevel()];
    assert Holding(levels, Office()) == [HeadLevel()] + [LastLevel()];
    assert Keys(levels) == ["head", "last"];
  }

  lemma BossApproves()
    ensures ApproversFor(HeadLevel(), "clerk", Office()) == ["boss"]
  {
    OnePerson("boss", Office().active, {"clerk"});
  }

  /// The head has the task and is the only one to escalate to. The next level could start, but
  /// the escalation reminds the head and the run stays.
  lemma StuckEscalationExample()
    ensures var db := After(Start0(), [] + Doing(SUBMIT, Office())).db;
            && Inv(db) && IsPending(db.tasks, 0) && db.inst.approval.Some?
            && !HasTargets(db, Some(TwoLevels()), Office()) && CanSkip(db, Some(TwoLevels()), Office())
            && PlanEscalate(db, Some(TwoLevels()), 0, Office()) == RemindLast
  {
    ReachableFits("clerk", Some("draft"), [] + Doing(SUBMIT, Office()));
    SubmittedIs();
    StuckAt(After(Start0(), [] + Doing(SUBMIT, Office())).db);
  }

  lemma StuckAt(db: Db)
    requires Inv(db) && db.tasks == [NewTask(HeadLevel(), "boss", Office())] && db.inst.requester == "clerk"
    requires db.inst.approval == Some(ApprovalRun("submit", "waiting", "approved", "rejected", ["head", "last"], 0))
    ensures IsPending(db.tasks, 0)
    ensures !HasTargets(db, Some(TwoLevels()), Office()) && CanSkip(db, Some(TwoLevels()), Office())
    ensures PlanEscalate(db, Some(TwoLevels()), 0, Office()) == RemindLast
  {
    NobodyNew(db);
    LastCanStart(db.inst.approval.value);
    EscalationOutcome(db, Some(TwoLevels()), 0, Office());
  }

  lemma SubmittedIs()
    ensures var db := After(Start0(), [] + Doing(SUBMIT, Office())).db;
            && db.tasks == [NewTask(HeadLevel(), "boss", Office())] && db.inst.requester == "clerk"
            && db.inst.approval == Some(ApprovalRun("submit", "waiting", "approved", "rejected", ["head", "last"], 0))
  {
    SubmitPlan();
    Done(Start0(), [], SUBMIT, Office());
  }

  lemma NobodyNew(db: Db)
    requires db.tasks == [NewTask(HeadLevel(), "boss", Office())]
    ensures EscalationTargets(db, HeadLevel(), Office()) == []
  {
    assert db.tasks[0].assignee in PendingAssignees(db.tasks, "head");
    forall x | x in Resolve([Spec("head")], Office()) ensures x == "boss" {
      assert x in Distinct(["boss"]) && x in ["boss"];
    }
    SomeMember(EscalationTargets(db, HeadLevel(), Office()));
  }

  lemma SomeMember(ids: seq<Id>)
    ensures ids != [] ==> exists id :: id in ids
  {
    if ids != [] { assert ids[0] in ids; }
  }

  lemma LastCanStart(run: ApprovalRun)
    requires run == ApprovalRun("submit", "waiting", "approved", "rejected", ["head", "last"], 0)
    ensures LevelDef(TwoLevels(), run, "head") == Some(HeadLevel())
    ensures NextLevel(TwoLevels(), run, 1, "clerk", Office()).Next?
  {
    var levels := [HeadLevel(), LastLevel()];
    assert "head" != "last" by { assert "head"[0] != "last"[0]; }
    assert levels[1..] == [LastLevel()];
    assert FindLevel(levels, "last") == Some(LastLevel());
    OnePerson("deputy", Office().active, {"clerk"});
    assert ApproversFor(LastLevel(), "clerk", Office()) == ["deputy"];
  }

  // ---- copies that do not arrive ----

  function Steps3(): WorkflowDef {
    WorkflowDef("open", [Action("check", {"open"}, "checked", false, "", None), Action("close", {"checked"}, "closed", false, "", None)])
  }

  const CHECK: Intent := Act(Steps3(), "check", Some("clerk"), false)
  const CLOSE: Intent := Act(Steps3(), "close", Some("clerk"), false)

  lemma ActionsFound()
    ensures FindAction(Steps3().actions, "check") == Some(Action("check", {"open"}, "checked", false, "", None))
    ensures FindAction(Steps3().actions, "close") == Some(Action("close", {"checked"}, "closed", false, "", None))
  {
    assert "check" != "close" by { assert "check"[1] != "close"[1]; }
    assert Steps3().actions[1..] == [Action("close", {"checked"}, "closed", false, "", None)];
  }

  lemma Checking(db: Db)
    requires db.inst.approval == None && (db.inst.state == None || db.inst.state == Some("open"))
    ensures var p := PlanOf(db, CHECK, Office());
            && p.Ok?
            && var after := Commit(db, p.value, Office());
               && after.inst.state == Some("checked") && after.inst.approval == None && after.recordStatus == db.recordStatus
               && after.inst.sync == Some(Sync(Some("open"), "checked", "check"))
  {
    ActionsFound();
  }

  lemma Closing(db: Db)
    requires db.inst.approval == None && db.inst.state == Some("checked")
    ensures var p := PlanOf(db, CLOSE, Office());
            && p.Ok?
            && var after := Commit(db, p.value, Office());
               && after.inst.state == Some("closed") && after.recordStatus == db.recordStatus
               && after.inst.sync == Some(Sync(Some("checked"), "closed", "close"))
  {
    ActionsFound();
  }

  /// A copy that is refused, or does not get through, leaves everything as it is.
  lemma NotCopied(w: World, steps: seq<Step>, call: Call, sync: Sync)
    requires After(w, steps).db.inst.sync == Some(sync)
    requires call == Unreachable
             || (After(w, steps).db.recordStatus != sync.from && After(w, steps).db.recordStatus != Some(sync.to))
    ensures After(w, steps + [Push(call)]).db == After(w, steps).db
    ensures !PushStatus(After(w, steps).db, call).ok
  {
    AfterOne(w, steps, Push(call));
  }

  /// A record without a state: the first action moves the instance, the copy is refused.
  lemma NoStateExample()
    ensures var db := After(World(NewDb("clerk", None), map[]), [] + Doing(CHECK, Office()) + [Push(Answered)]).db;
            db.inst.state == Some("checked") && db.recordStatus == None && !PushStatus(db, Answered).ok
  {
    var w := World(NewDb("clerk", None), map[]);
    assert After(w, []).db == w.db;
    Checking(w.db);
    Done(w, [], CHECK, Office());
    NotCopied(w, [] + Doing(CHECK, Office()), Answered, Sync(Some("open"), "checked", "check"));
  }

  lemma CheckedButNotCopied()
    ensures var w := World(NewDb("clerk", Some("open")), map[]);
            var db := After(w, [] + Doing(CHECK, Office()) + [Push(Unreachable)]).db;
            db.inst.state == Some("checked") && db.recordStatus == Some("open") && db.inst.approval == None
  {
    var w := World(NewDb("clerk", Some("open")), map[]);
    assert After(w, []).db == w.db;
    Checking(w.db);
    Done(w, [], CHECK, Office());
    NotCopied(w, [] + Doing(CHECK, Office()), Unreachable, Sync(Some("open"), "checked", "check"));
  }

  /// The first copy is not made before the second action: the second copy starts from a state
  /// the record never had.
  lemma OverlapExample()
    ensures var w := World(NewDb("clerk", Some("open")), map[]);
            var db := After(w, [] + Doing(CHECK, Office()) + [Push(Unreachable)] + Doing(CLOSE, Office()) + [Push(Answered)]).db;
            db.inst.state == Some("closed") && db.recordStatus == Some("open") && !PushStatus(db, Answered).ok
  {
    var w := World(NewDb("clerk", Some("open")), map[]);
    CheckedButNotCopied();
    ClosedButNotCopied(w, [] + Doing(CHECK, Office()) + [Push(Unreachable)]);
  }

  lemma ClosedButNotCopied(w: World, first: seq<Step>)
    requires var db := After(w, first).db;
             db.inst.state == Some("checked") && db.recordStatus == Some("open") && db.inst.approval == None
    ensures var db := After(w, first + Doing(CLOSE, Office()) + [Push(Answered)]).db;
            db.inst.state == Some("closed") && db.recordStatus == Some("open") && !PushStatus(db, Answered).ok
  {
    Closing(After(w, first).db);
    Done(w, first, CLOSE, Office());
    NotCopied(w, first + Doing(CLOSE, Office()), Answered, Sync(Some("checked"), "closed", "close"));
  }
}
