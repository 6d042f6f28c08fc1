/// How long a row stays locked, and how long a failed one waits.

module EventTimes {
  import opened Basics
  import opened AuditChain
  import opened EventBus
  import opened EventPipeline

  /// A relay that holds the row fails, which sets a new time for the row.
  predicate Unlocks(p: Pipe, s: Step, id: string) {
    s.Fail? && s.relay in p.relays && p.relays[s.relay].event.eventId == id
  }

  ghost predicate NoneUnlocks(p: Pipe, steps: seq<Step>, id: string) {
    forall i :: 0 <= i < |steps| ==> !Unlocks(Run(p, steps[..i]), steps[i], id)
  }

  /// The row is gone, handed over, or locked until then.
  predicate KeptUntil(p: Pipe, id: string, until: int) {
    id in p.rows ==> p.rows[id].published || p.rows[id].lockedUntil >= until
  }

  lemma {:induction false} StepKeepsLock(p: Pipe, s: Step, id: string, until: int)
    requires Fits(p) && Enabled(p, s) && KeptUntil(p, id, until) && !IsNew(p, id)
    requires p.now < until && !Unlocks(p, s, id)
    ensures KeptUntil(Apply(p, s), id, until) && !IsNew(Apply(p, s), id) && Apply(p, s).now >= p.now
  {
    if s.CommitEvent? {
      CommitKeepsLock(p, s.event, id, until);
    } else {
      OtherKeepsLock(p, s, id, until);
    }
  }

  lemma {:induction false} CommitKeepsLock(p: Pipe, e: Envelope, id: string, until: int)
    requires Enabled(p, CommitEvent(e)) && KeptUntil(p, id, until) && !IsNew(p, id)
    ensures var q := Apply(p, CommitEvent(e)); KeptUntil(q, id, until) && !IsNew(q, id) && q.now == p.now
  {
    var x :| x in p.committed && x.eventId == id;
    assert x in Apply(p, CommitEvent(e)).committed;
  }

  lemma {:induction false} OtherKeepsLock(p: Pipe, s: Step, id: string, until: int)
    requires Fits(p) && Enabled(p, s) && KeptUntil(p, id, until) && !s.CommitEvent?
    requires p.now < until && !Unlocks(p, s, id)
    ensures var q := Apply(p, s); KeptUntil(q, id, until) && q.committed == p.committed && q.now >= p.now
  {
    match s
    case Publish(r, answered) => HandingKeepsRows(p, r);
    case Mark(r) => MarkingKeepsLock(p, p.relays[r].event, id, until);
    case _ =>
  }

  lemma {:induction false} MarkingKeepsLock(p: Pipe, e: Envelope, id: string, until: int)
    requires KeptUntil(p, id, until)
    ensures KeptUntil(Marked(p, e), id, until) && Marked(p, e).committed == p.committed && Marked(p, e).now == p.now
  {
  }

  lemma {:induction false} HandingKeepsRows(p: Pipe, r: nat)
    requires r in p.relays
    ensures Handed(p, r).rows == p.rows && HandedAndAnswered(p, r).rows == p.rows
    ensures Handed(p, r).committed == p.committed && HandedAndAnswered(p, r).committed == p.committed
    ensures Handed(p, r).now == p.now && HandedAndAnswered(p, r).now == p.now
  {
  }

  lemma {:induction false} RunKeepsLock(p: Pipe, steps: seq<Step>, id: string, until: int)
    requires Fits(p) && KeptUntil(p, id, until) && !IsNew(p, id)
    requires Run(p, steps).now < until && NoneUnlocks(p, steps, id)
    ensures KeptUntil(Run(p, steps), id, until) && !IsNew(Run(p, steps), id)
  {
    if steps != [] {
      var before, last := steps[..|steps| - 1], steps[|steps| - 1];
      ShorterUnlocks(p, steps, id);
      RunKeeps(p, before);
      TimePasses(Run(p, before), last);
      RunKeepsLock(p, before, id, until);
      if Enabled(Run(p, before), last) { StepKeepsLock(Run(p, before), last, id, until); }
    }
  }

  lemma {:induction false} ShorterUnlocks(p: Pipe, steps: seq<Step>, id: string)
    requires steps != [] && NoneUnlocks(p, steps, id)
    ensures NoneUnlocks(p, steps[..|steps| - 1], id)
    ensures !Unlocks(Run(p, steps[..|steps| - 1]), steps[|steps| - 1], id)
  {
    var before := steps[..|steps| - 1];
    forall i | 0 <= i < |before| ensures !Unlocks(Run(p, before[..i]), before[i], id) {
      assert before[..i] == steps[..i] && before[i] == steps[i];
    }
  }

  lemma {:induction false} TimePasses(p: Pipe, s: Step)
    ensures Enabled(p, s) ==> Apply(p, s).now >= p.now
  {
    if Enabled(p, s) && s.Publish? { HandingKeepsRows(p, s.relay); }
  }

  /// A row that was just locked cannot be locked by anybody within the half minute, whatever
  /// happens meanwhile, unless a relay that holds it fails.
  lemma {:induction false} LockHolds(p: Pipe, r: nat, id: string, steps: seq<Step>, other: nat)
    requires Fits(p) && Enabled(p, Lock(r, id))
    requires NoneUnlocks(Apply(p, Lock(r, id)), steps, id)
    requires Run(Apply(p, Lock(r, id)), steps).now < p.now + 30_000
    ensures !Enabled(Run(Apply(p, Lock(r, id)), steps), Lock(other, id))
  {
    var q := Apply(p, Lock(r, id));
    StepKeeps(p, Lock(r, id));
    assert p.rows[id].event in q.committed;
    RunKeepsLock(q, steps, id, p.now + 30_000);
  }

  /// If nothing else happens, it can be locked again when the half minute is over, and no sooner.
  lemma {:induction false} LockEnds(p: Pipe, r: nat, id: string, other: nat, ms: nat)
    requires Enabled(p, Lock(r, id)) && other != r && other !in p.relays
    ensures var q := Apply(Apply(p, Lock(r, id)), Tick(ms));
            Enabled(q, Lock(other, id)) <==> ms >= 30_000
  {
  }

  // ---- waiting after a failure ----

  const WAITS: seq<int> := [500, 1_000, 2_000, 4_000, 8_000, 16_000, 32_000]

  /// How long a row waits whose relay has locked it for the n-th time: a second after the
  /// first, twice as long each time, and never longer than a minute.
  function WaitAfter(n: nat): int { if n < |WAITS| then WAITS[n] else 60_000 }

  lemma {:induction false} BackoffIsWait(n: nat)
    ensures Backoff(n) == WaitAfter(n)
  {
    assert Pow2(0) == 1 && Pow2(1) == 2 && Pow2(2) == 4 && Pow2(3) == 8;
    assert Pow2(4) == 16 && Pow2(5) == 32 && Pow2(6) == 64 && Pow2(7) == 128;
  }

  lemma {:induction false} FailedRowWaits(p: Pipe, r: nat, other: nat, ms: nat)
    requires Enabled(p, Fail(r)) && p.relays[r].event.eventId in p.rows
    requires !p.rows[p.relays[r].event.eventId].published && other !in p.relays
    ensures var q := Apply(Apply(p, Fail(r)), Tick(ms));
            Enabled(q, Lock(other, p.relays[r].event.eventId)) <==> ms >= WaitAfter(p.relays[r].attempts)
  {
    BackoffIsWait(p.relays[r].attempts);
  }

  /// How often the row was locked in a run.
  function Locks(p: Pipe, steps: seq<Step>, id: string): nat {
    if steps == [] then 0
    else
      var before, last := steps[..|steps| - 1], steps[|steps| - 1];
      Locks(p, before, id)
      + if last.Lock? && last.id == id && Enabled(Run(p, before), last) then 1 else 0
  }

  /// The attempts of a row are the times it was locked.
  lemma {:induction false} AttemptsAreLocks(steps: seq<Step>, id: string)
    ensures var p := Run(EMPTY, steps);
            && (id in p.rows ==> p.rows[id].attempts == Locks(EMPTY, steps, id))
            && (IsNew(p, id) ==> Locks(EMPTY, steps, id) == 0)
  {
    EmptyFits();
    if steps != [] {
      var before, last := steps[..|steps| - 1], steps[|steps| - 1];
      var p := Run(EMPTY, before);
      RunKeeps(EMPTY, before);
      AttemptsAreLocks(before, id);
      if Enabled(p, last) { StepCounts(p, last, id); }
    }
  }

  lemma {:induction false} StepCounts(p: Pipe, s: Step, id: string)
    requires Fits(p) && Enabled(p, s)
    ensures var q := Apply(p, s);
            && (id in q.rows ==>
                  if id in p.rows then q.rows[id].attempts == p.rows[id].attempts + if s.Lock? && s.id == id then 1 else 0
                  else IsNew(p, id) && q.rows[id].attempts == 0)
            && (IsNew(q, id) ==> IsNew(p, id) && !(s.Lock? && s.id == id))
  {
    match s
    case Publish(r, answered) => HandingKeepsRows(p, r);
    case Mark(r) => MarkingCounts(p, p.relays[r].event, id);
    case _ =>
  }

  lemma {:induction false} MarkingCounts(p: Pipe, e: Envelope, id: string)
    ensures var q := Marked(p, e);
            q.committed == p.committed && (id in q.rows ==> id in p.rows && q.rows[id].attempts == p.rows[id].attempts)
  {
  }

  // ---- deliveries ----

  ghost predicate FewDeliveries(p: Pipe) { forall m <- p.stream :: m.deliveries <= 20 }

  lemma {:induction false} StepDelivers(p: Pipe, s: Step)
    requires FewDeliveries(p) && Enabled(p, s)
    ensures FewDeliveries(Apply(p, s))
  {
    match s
    case Publish(r, answered) => SentOnce(p, p.relays[r].event);
    case Mark(r) => assert Marked(p, p.relays[r].event).stream == p.stream;
    case Handle(i, succeeds, acked, recordedAt) => assert p.stream[i] in p.stream;
    case _ =>
  }

  /// No message is delivered more than twenty times.
  lemma {:induction false} DeliveriesEnd(steps: seq<Step>)
    ensures FewDeliveries(Run(EMPTY, steps))
  {
    if steps != [] {
      var before, last := steps[..|steps| - 1], steps[|steps| - 1];
      DeliveriesEnd(before);
      if Enabled(Run(EMPTY, before), last) { StepDelivers(Run(EMPTY, before), last); }
    }
  }

  /// The stream takes an event once while it remembers its id.
  lemma {:induction false} SentOnce(p: Pipe, e: Envelope)
    ensures e.eventId in p.window ==> Sent(p, e) == p
    ensures e.eventId !in p.window ==>
              Sent(p, e).stream == p.stream + [Message(e, 0, false)] && Sent(p, e).window == p.window + {e.eventId}
  {
  }

  /// A notification is gone from the outbox once it is handed over, any other row stays, marked.
  lemma {:induction false} HandedRows(p: Pipe, r: nat)
    requires Fits(p) && Enabled(p, Mark(r))
    ensures var e, q := p.relays[r].event, Apply(p, Mark(r));
            && (StartsWith(e.kind, "notify.") ==> e.eventId !in q.rows)
            && (!StartsWith(e.kind, "notify.") && e.eventId in p.rows ==> e.eventId in q.rows && q.rows[e.eventId].published)
            && forall id :: id != e.eventId ==> (id in q.rows <==> id in p.rows) && (id in p.rows ==> q.rows[id] == p.rows[id])
  {
    NotificationKinds(p.relays[r].event);
  }

  lemma {:induction false} NotificationKinds(e: Envelope)
    ensures IsNotification(e) <==> StartsWith(e.kind, "notify.")
  {
    var subject := SubjectFor(e.kind);
    assert |NOTIFY_PREFIX| == 7 && NOTIFY_PREFIX[0] == 'n' && EVENTS_PREFIX[0] == 'e';
    if |subject| >= 7 { assert subject[..7][0] == subject[0]; }
  }

  // ---- a lock that does not hold ----

  /// A relay whose lock has run out and that fails only now takes the new lock away: the row
  /// waits as its own attempts say.
  lemma {:induction false} LateFailureUnlocks(p: Pipe, r: nat, late: nat, other: nat, id: string, ms: nat)
    requires Fits(p) && Enabled(p, Lock(r, id)) && late in p.relays && p.relays[late].event.eventId == id
    requires other !in p.relays && other != r
    ensures var q := Apply(Apply(Apply(p, Lock(r, id)), Fail(late)), Tick(ms));
            Enabled(q, Lock(other, id)) <==> ms >= WaitAfter(p.relays[late].attempts)
  {
    BackoffIsWait(p.relays[late].attempts);
    FailureSets(Apply(p, Lock(r, id)), late);
  }

  lemma {:induction false} FailureSets(p: Pipe, r: nat)
    requires Enabled(p, Fail(r)) && p.relays[r].event.eventId in p.rows
    ensures var id, q := p.relays[r].event.eventId, Apply(p, Fail(r));
            && q.rows == p.rows[id := p.rows[id].(lockedUntil := p.now + Backoff(p.relays[r].attempts))]
            && q.now == p.now && q.relays == p.relays - {r}
  {
  }

  /// The relay holds the row, and the row is there to be locked again.
  predicate Holding(p: Pipe, r: nat, e: Envelope) {
    && r in p.relays && p.relays[r].event == e
    && e.eventId in p.rows && p.rows[e.eventId].event == e
  }

  lemma {:induction false} LockedByTwo(p: Pipe, r: nat, late: nat, e: Envelope)
    requires Enabled(p, Lock(r, e.eventId)) && Holding(p, late, e)
    ensures var q := Apply(p, Lock(r, e.eventId)); Holding(q, r, e) && Holding(q, late, e)
  {
  }

  lemma {:induction false} HoldingStays(p: Pipe, late: nat, r: nat, e: Envelope, ms: nat)
    requires Holding(p, r, e) && Enabled(p, Fail(late)) && late != r
    ensures Holding(Apply(p, Fail(late)), r, e) && Holding(Apply(Apply(p, Fail(late)), Tick(ms)), r, e)
  {
  }

  lemma {:induction false} RunFour(p: Pipe, a: Step, b: Step, c: Step, d: Step)
    requires Enabled(p, a) && Enabled(Apply(p, a), b) && Enabled(Apply(Apply(p, a), b), c)
    requires Enabled(Apply(Apply(Apply(p, a), b), c), d)
    ensures Run(p, [a, b, c, d]) == Apply(Apply(Apply(Apply(p, a), b), c), d)
  {
    RunThree(p, a, b, c);
    RunLast(p, [a, b, c], d, Apply(Apply(Apply(p, a), b), c));
    assert [a, b, c] + [d] == [a, b, c, d];
  }

  lemma {:induction false} RunLast(p: Pipe, steps: seq<Step>, s: Step, q: Pipe)
    requires Run(p, steps) == q && Enabled(q, s)
    ensures Run(p, steps + [s]) == Apply(q, s)
  {
    assert (steps + [s])[..|steps|] == steps;
  }

  /// So two relays can come to hold a row at once, a second after one of them locked it.
  lemma {:induction false} TwoHolders(p: Pipe, r: nat, late: nat, other: nat, e: Envelope)
    requires Fits(p) && Enabled(p, Lock(r, e.eventId)) && Holding(p, late, e) && p.relays[late].attempts == 1
    requires other !in p.relays && other != r
    ensures var q := Run(p, [Lock(r, e.eventId), Fail(late), Tick(1_000), Lock(other, e.eventId)]);
            Holding(q, r, e) && Holding(q, other, e)
  {
    var id := e.eventId;
    LockedByTwo(p, r, late, e);
    HoldingStays(Apply(p, Lock(r, id)), late, r, e, 1_000);
    LateFailureUnlocks(p, r, late, other, id, 1_000);
    var waited := Apply(Apply(Apply(p, Lock(r, id)), Fail(late)), Tick(1_000));
    LockedByTwo(waited, other, r, e);
    RunFour(p, Lock(r, id), Fail(late), Tick(1_000), Lock(other, id));
  }

  /// The relay that is late: it locked the row first and has not come back since.
  lemma {:induction false} LateExample(e: Envelope)
    requires Sendable(e)
    ensures var p := Run(EMPTY, [CommitEvent(e), Lock(1, e.eventId), Tick(30_000)]);
            && Fits(p) && Enabled(p, Lock(2, e.eventId)) && Holding(p, 1, e) && p.relays[1].attempts == 1
            && 3 !in p.relays
  {
    var commit, lock, tick := CommitEvent(e), Lock(1, e.eventId), Tick(30_000);
    EmptyFits();
    StepKeeps(EMPTY, commit);
    var first := Apply(EMPTY, commit);
    FirstLock(first, e);
    RunThree(EMPTY, commit, lock, tick);
  }

  lemma {:induction false} RunThree(p: Pipe, a: Step, b: Step, c: Step)
    requires Enabled(p, a) && Enabled(Apply(p, a), b) && Enabled(Apply(Apply(p, a), b), c)
    ensures Run(p, [a, b, c]) == Apply(Apply(Apply(p, a), b), c)
  {
    RunLast(p, [], a, p);
    assert [] + [a] == [a];
    RunLast(p, [a], b, Apply(p, a));
    assert [a] + [b] == [a, b];
    RunLast(p, [a, b], c, Apply(Apply(p, a), b));
    assert [a, b] + [c] == [a, b, c];
  }

  lemma {:induction false} FirstLock(p: Pipe, e: Envelope)
    requires Fits(p) && p.relays == map[] && p.now == 0
    requires e.eventId in p.rows && p.rows[e.eventId] == Row(e, 0, 0, false)
    ensures Enabled(p, Lock(1, e.eventId))
    ensures var q := Apply(Apply(p, Lock(1, e.eventId)), Tick(30_000));
            && Fits(q) && Enabled(q, Lock(2, e.eventId)) && Holding(q, 1, e) && q.relays[1].attempts == 1 && 3 !in q.relays
  {
    StepKeeps(p, Lock(1, e.eventId));
    StepKeeps(Apply(p, Lock(1, e.eventId)), Tick(30_000));
  }
}
