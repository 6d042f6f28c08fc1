/// From committed outbox rows to the audit chain: relays that may crash or overlap, a bus
/// that forgets message ids after a while, redelivery, and a handler that runs once.

module EventPipeline {
  import opened Basics
  import opened AuditChain
  import opened EventBus

  const LOCK_MS: int := 30_000
  const MAX_DELIVER: nat := 20

  datatype Row = Row(event: Envelope, lockedUntil: int, attempts: nat, published: bool)

  /// The row a relay has locked, and whether the bus has taken its event.
  datatype Hold = Hold(event: Envelope, attempts: nat, sent: bool)

  /// A message of the stream as the audit consumer sees it.
  datatype Message = Message(event: Envelope, deliveries: nat, acked: bool)

  datatype Pipe = Pipe(
    now: int,
    committed: seq<Envelope>,
    rows: map<string, Row>,
    relays: map<nat, Hold>,
    window: set<string>,
    stream: seq<Message>,
    processed: set<string>,
    chains: map<string, Chain>)

  const EMPTY: Pipe := Pipe(0, [], map[], map[], {}, [], {}, map[])

  const NO_RECORDS: Chain := Chain([], None)

  function ChainOf(p: Pipe, tenant: string): Chain {
    if tenant in p.chains then p.chains[tenant] else NO_RECORDS
  }

  predicate IsAudited(e: Envelope) { Matches("erp.>", SubjectFor(e.kind)) }

  predicate IsNotification(e: Envelope) { StartsWith(SubjectFor(e.kind), NOTIFY_PREFIX) }

  /// Half a second, doubling with each attempt, up to a minute.
  function Backoff(attempts: nat): int {
    var ms := 500 * Pow2(if attempts < 7 then attempts else 7);
    if ms < 60_000 then ms else 60_000
  }

  function Pow2(n: nat): nat { if n == 0 then 1 else 2 * Pow2(n - 1) }

  // ---- steps ----

  datatype Step =
    | CommitEvent(event: Envelope)
    | Tick(ms: nat)
    | Lock(relay: nat, id: string)
    | Publish(relay: nat, answered: bool)
    | Mark(relay: nat)
    | Fail(relay: nat)
    | Crash(relay: nat)
    | Forget(id: string)
    | Handle(index: nat, succeeds: bool, acked: bool, recordedAt: string)

  predicate IsNew(p: Pipe, id: string) { forall e :: e in p.committed ==> e.eventId != id }

  predicate Lockable(p: Pipe, id: string) {
    id in p.rows && !p.rows[id].published && p.rows[id].lockedUntil <= p.now
  }

  /// Whether a step can be taken.
  predicate Enabled(p: Pipe, s: Step) {
    match s
    case CommitEvent(e) => IsNew(p, e.eventId) && Sendable(e)
    case Tick(_) => true
    case Lock(r, id) => r !in p.relays && Lockable(p, id)
    case Publish(r, _) => r in p.relays && !p.relays[r].sent
    case Mark(r) => r in p.relays && p.relays[r].sent
    case Fail(r) => r in p.relays
    case Crash(r) => r in p.relays
    case Forget(_) => true
    case Handle(i, _, _, _) =>
      && i < |p.stream| && !p.stream[i].acked && p.stream[i].deliveries < MAX_DELIVER
      && IsAudited(p.stream[i].event) && Sendable(p.stream[i].event)
  }

  function Sent(p: Pipe, e: Envelope): Pipe {
    if e.eventId in p.window then p
    else p.(window := p.window + {e.eventId}, stream := p.stream + [Message(e, 0, false)])
  }

  function Marked(p: Pipe, e: Envelope): Pipe {
    if IsNotification(e) then p.(rows := p.rows - {e.eventId})
    else if e.eventId in p.rows then p.(rows := p.rows[e.eventId := p.rows[e.eventId].(published := true)])
    else p
  }

  function Handed(p: Pipe, r: nat): (q: Pipe)
    requires r in p.relays
    ensures q.relays == p.relays
  {
    Sent(p, p.relays[r].event)
  }

  function Answered(p: Pipe, r: nat): Pipe
    requires r in p.relays
  {
    p.(relays := p.relays[r := p.relays[r].(sent := true)])
  }

  function HandedAndAnswered(p: Pipe, r: nat): Pipe
    requires r in p.relays
  {
    Answered(Handed(p, r), r)
  }

  function LetGo(p: Pipe, r: nat): Pipe { p.(relays := p.relays - {r}) }

  function Delayed(p: Pipe, id: string, until: int): Pipe {
    if id in p.rows then p.(rows := p.rows[id := p.rows[id].(lockedUntil := until)]) else p
  }

  function RetryAt(p: Pipe, r: nat): int
    requires r in p.relays
  {
    p.now + Backoff(p.relays[r].attempts)
  }

  function BackedOff(p: Pipe, r: nat): Pipe
    requires r in p.relays
  {
    Delayed(p, p.relays[r].event.eventId, RetryAt(p, r))
  }

  /// Appends the event and marks it as processed at once; nothing happens if it is marked already.
  function HandleOnce(p: Pipe, e: Envelope, recordedAt: string): Pipe
    requires Sendable(e)
  {
    if e.eventId in p.processed then p
    else p.(processed := p.processed + {e.eventId},
            chains := p.chains[e.tenantId := Append(ChainOf(p, e.tenantId), e, recordedAt)])
  }

  function Apply(p: Pipe, s: Step): Pipe
    requires Enabled(p, s)
  {
    match s
    case CommitEvent(e) =>
      p.(committed := p.committed + [e], rows := p.rows[e.eventId := Row(e, 0, 0, false)])
    case Tick(ms) => p.(now := p.now + ms)
    case Lock(r, id) =>
      var row := p.rows[id];
      p.(rows := p.rows[id := row.(lockedUntil := p.now + LOCK_MS, attempts := row.attempts + 1)],
         relays := p.relays[r := Hold(row.event, row.attempts + 1, false)])
    case Publish(r, answered) => if answered then HandedAndAnswered(p, r) else Handed(p, r)
    case Mark(r) => LetGo(Marked(p, p.relays[r].event), r)
    case Fail(r) => LetGo(BackedOff(p, r), r)
    case Crash(r) => LetGo(p, r)
    case Forget(id) => p.(window := p.window - {id})
    case Handle(i, succeeds, acked, recordedAt) =>
      var m := p.stream[i];
      var q := if succeeds then HandleOnce(p, m.event, recordedAt) else p;
      q.(stream := q.stream[i := Message(m.event, m.deliveries + 1, succeeds && acked)])
  }

  // ---- the invariant ----

  predicate InStream(p: Pipe, id: string) { exists i :: 0 <= i < |p.stream| && p.stream[i].event.eventId == id }

  ghost predicate OutboxFits(p: Pipe) {
    && (forall i, k :: 0 <= i < k < |p.committed| ==> p.committed[i].eventId != p.committed[k].eventId)
    && (forall e :: e in p.committed ==> Sendable(e) && (e.eventId in p.rows || InStream(p, e.eventId)))
    && (forall id :: id in p.rows ==>
          && p.rows[id].event.eventId == id && p.rows[id].event in p.committed
          && (p.rows[id].published ==> InStream(p, id)))
    && (forall r :: r in p.relays ==>
          p.relays[r].event in p.committed && (p.relays[r].sent ==> InStream(p, p.relays[r].event.eventId)))
    && (forall id :: id in p.window ==> InStream(p, id))
    && (forall m :: m in p.stream ==> m.event in p.committed)
  }

  /// The ids of a chain's records, in order.
  function EventIds(c: Chain): (ids: seq<string>)
    ensures |ids| == |c.records| && forall i :: 0 <= i < |ids| ==> ids[i] == c.records[i].fields.eventId
  {
    seq(|c.records|, i requires 0 <= i < |c.records| => c.records[i].fields.eventId)
  }

  /// The record tells of an audited event of the tenant as it was committed.
  ghost predicate Recorded(committed: seq<Envelope>, tenant: string, r: Record) {
    exists e :: e in committed && IsAudited(e) && e.tenantId == tenant && Tells(r.fields, e)
  }

  ghost predicate IdsDiffer(rs: seq<Record>) {
    forall i, k :: 0 <= i < k < |rs| ==> rs[i].fields.eventId != rs[k].fields.eventId
  }

  /// A tenant's chain holds its processed events, each once.
  ghost predicate Holds(c: Chain, tenant: string, committed: seq<Envelope>, processed: set<string>) {
    && ChainFits(c) && IdsDiffer(c.records)
    && (forall r :: r in c.records ==> r.fields.eventId in processed && Recorded(committed, tenant, r))
    && (forall e :: e in committed && e.tenantId == tenant && e.eventId in processed ==> e.eventId in EventIds(c))
  }

  ghost predicate ChainHolds(p: Pipe, tenant: string) { Holds(ChainOf(p, tenant), tenant, p.committed, p.processed) }

  ghost predicate AuditFits(p: Pipe) {
    && (forall tenant :: ChainHolds(p, tenant))
    && (forall m :: m in p.stream && m.acked ==> IsAudited(m.event) && m.event.eventId in p.processed)
  }

  ghost predicate PipeFits(p: Pipe) { OutboxFits(p) && AuditFits(p) }

  lemma EmptyFits()
    ensures PipeFits(EMPTY)
  {
    assert ChainFits(NO_RECORDS);
  }

  // ---- steps that leave the audit side alone ----

  lemma SameEvent(p: Pipe, a: Envelope, b: Envelope)
    requires OutboxFits(p) && a in p.committed && b in p.committed && a.eventId == b.eventId
    ensures a == b
  {
  }

  /// Chains and markers stay, committed events only grow by new ones.
  lemma AuditUntouched(p: Pipe, q: Pipe)
    requires AuditFits(p) && q.processed == p.processed && q.chains == p.chains
    requires forall e :: e in p.committed ==> e in q.committed
    requires forall e :: e in q.committed && e.eventId in p.processed ==> e in p.committed
    requires forall m :: m in q.stream && m.acked ==> m in p.stream
    ensures AuditFits(q)
  {
    forall tenant ensures ChainHolds(q, tenant) {
      assert ChainHolds(p, tenant) && ChainOf(q, tenant) == ChainOf(p, tenant);
    }
  }

  /// Everything processed was committed.
  ghost predicate ProcessedFits(p: Pipe) {
    forall id :: id in p.processed ==> exists e :: e in p.committed && e.eventId == id
  }

  ghost predicate Fits(p: Pipe) { PipeFits(p) && ProcessedFits(p) }

  lemma CommitKeeps(p: Pipe, e: Envelope)
    requires Fits(p) && IsNew(p, e.eventId) && Sendable(e)
    ensures Fits(Apply(p, CommitEvent(e)))
  {
    var q := Apply(p, CommitEvent(e));
    CommitOutbox(p, q, e);
    AuditUntouched(p, q);
  }

  lemma CommitOutbox(p: Pipe, q: Pipe, e: Envelope)
    requires OutboxFits(p) && IsNew(p, e.eventId) && Sendable(e)
    requires q == p.(committed := p.committed + [e], rows := p.rows[e.eventId := Row(e, 0, 0, false)])
    ensures OutboxFits(q)
  {
    assert q.committed[|p.committed|] == e;
    assert forall x :: x in q.committed <==> x in p.committed || x == e;
    SameStreamIds(p, q);
  }

  /// A step on rows and relays only.
  lemma RelayKeeps(p: Pipe, q: Pipe)
    requires Fits(p) && OutboxFits(q)
    requires q.committed == p.committed && q.stream == p.stream && q.processed == p.processed && q.chains == p.chains
    ensures Fits(q)
  {
    AuditUntouched(p, q);
  }

  lemma SameStreamIds(p: Pipe, q: Pipe)
    requires q.stream == p.stream
    ensures forall id :: InStream(q, id) <==> InStream(p, id)
  {
  }

  lemma LockKeeps(p: Pipe, r: nat, id: string)
    requires Fits(p) && Lockable(p, id) && r !in p.relays
    ensures Fits(Apply(p, Lock(r, id)))
  {
    SameStreamIds(p, Apply(p, Lock(r, id)));
    RelayKeeps(p, Apply(p, Lock(r, id)));
  }

  lemma MarkedFits(p: Pipe, e: Envelope)
    requires Fits(p) && InStream(p, e.eventId)
    ensures Fits(Marked(p, e))
  {
    if IsNotification(e) {
      RowGone(p, e.eventId);
    } else if e.eventId in p.rows {
      RowPublished(p, e.eventId);
    }
  }

  lemma RowGone(p: Pipe, id: string)
    requires Fits(p) && InStream(p, id)
    ensures Fits(p.(rows := p.rows - {id}))
  {
    var q := p.(rows := p.rows - {id});
    SameStreamIds(p, q);
    RelayKeeps(p, q);
  }

  lemma RowPublished(p: Pipe, id: string)
    requires Fits(p) && InStream(p, id) && id in p.rows
    ensures Fits(p.(rows := p.rows[id := p.rows[id].(published := true)]))
  {
    var q := p.(rows := p.rows[id := p.rows[id].(published := true)]);
    SameStreamIds(p, q);
    RelayKeeps(p, q);
  }

  lemma RelayGone(p: Pipe, r: nat)
    requires Fits(p)
    ensures Fits(LetGo(p, r))
  {
    var q := LetGo(p, r);
    SameStreamIds(p, q);
    RelayKeeps(p, q);
  }

  lemma BackedOffFits(p: Pipe, r: nat)
    requires Fits(p) && r in p.relays
    ensures Fits(BackedOff(p, r))
  {
    RowDelayed(p, p.relays[r].event.eventId, RetryAt(p, r));
  }

  lemma RowDelayed(p: Pipe, id: string, until: int)
    requires Fits(p)
    ensures Fits(Delayed(p, id, until))
  {
    var q := Delayed(p, id, until);
    SameStreamIds(p, q);
    RelayKeeps(p, q);
  }

  lemma ForgetKeeps(p: Pipe, id: string, ms: nat)
    requires Fits(p)
    ensures Fits(Apply(p, Forget(id))) && Fits(Apply(p, Tick(ms)))
  {
    SameStreamIds(p, Apply(p, Forget(id)));
    SameStreamIds(p, Apply(p, Tick(ms)));
    RelayKeeps(p, Apply(p, Forget(id)));
    RelayKeeps(p, Apply(p, Tick(ms)));
  }

  lemma AnsweredFits(p: Pipe, r: nat)
    requires Fits(p) && r in p.relays
    ensures Fits(HandedAndAnswered(p, r))
  {
    HandedFits(p, r);
    RelaySent(Handed(p, r), r);
  }

  lemma HandedFits(p: Pipe, r: nat)
    requires Fits(p) && r in p.relays
    ensures Fits(Handed(p, r)) && InStream(Handed(p, r), p.relays[r].event.eventId)
  {
    SentFits(p, p.relays[r].event);
  }

  lemma RelaySent(p: Pipe, r: nat)
    requires Fits(p) && r in p.relays && InStream(p, p.relays[r].event.eventId)
    ensures Fits(Answered(p, r))
  {
    var q := Answered(p, r);
    SameStreamIds(p, q);
    RelayKeeps(p, q);
  }

  lemma SentFits(p: Pipe, e: Envelope)
    requires Fits(p) && e in p.committed
    ensures Fits(Sent(p, e)) && InStream(Sent(p, e), e.eventId)
  {
    if e.eventId !in p.window {
      var q := Sent(p, e);
      StreamGrows(p, q, Message(e, 0, false));
      SentOutbox(p, q, e);
      AuditUntouched(p, q);
    }
  }

  lemma StreamGrows(p: Pipe, q: Pipe, m: Message)
    requires q.stream == p.stream + [m]
    ensures forall id :: InStream(p, id) ==> InStream(q, id)
    ensures InStream(q, m.event.eventId)
  {
    forall id | InStream(p, id) ensures InStream(q, id) {
      var i :| 0 <= i < |p.stream| && p.stream[i].event.eventId == id;
      assert q.stream[i] == p.stream[i];
    }
    assert q.stream[|p.stream|] == m;
  }

  lemma SentOutbox(p: Pipe, q: Pipe, e: Envelope)
    requires OutboxFits(p) && e in p.committed
    requires q == p.(window := p.window + {e.eventId}, stream := p.stream + [Message(e, 0, false)])
    requires InStream(q, e.eventId) && forall id :: InStream(p, id) ==> InStream(q, id)
    ensures OutboxFits(q)
  {
  }

  // ---- handling ----

  lemma HandleKeeps(p: Pipe, i: nat, succeeds: bool, acked: bool, recordedAt: string)
    requires Fits(p) && Enabled(p, Handle(i, succeeds, acked, recordedAt))
    ensures Fits(Apply(p, Handle(i, succeeds, acked, recordedAt)))
  {
    var m := p.stream[i];
    var done := if succeeds then HandleOnce(p, m.event, recordedAt) else p;
    var q := Apply(p, Handle(i, succeeds, acked, recordedAt));
    if succeeds { HandledOnceFits(p, m.event, recordedAt); }
    assert q == done.(stream := done.stream[i := Message(m.event, m.deliveries + 1, succeeds && acked)]);
    DeliveredFits(done, i, Message(m.event, m.deliveries + 1, succeeds && acked));
  }

  /// Counting a delivery, and acknowledging it once the event is processed.
  lemma DeliveredFits(p: Pipe, i: nat, m: Message)
    requires PipeFits(p) && ProcessedFits(p) && i < |p.stream| && m.event == p.stream[i].event
    requires m.acked ==> IsAudited(m.event) && m.event.eventId in p.processed
    ensures PipeFits(p.(stream := p.stream[i := m])) && ProcessedFits(p.(stream := p.stream[i := m]))
  {
    var q := p.(stream := p.stream[i := m]);
    forall k | 0 <= k < |p.stream| ensures q.stream[k].event == p.stream[k].event {
    }
    forall id ensures InStream(q, id) <==> InStream(p, id) {
      SameStream(p, q, id);
      SameStream(q, p, id);
    }
    forall x | x in q.stream ensures x == m || x in p.stream {
    }
    assert p.stream[i] in p.stream;
    assert OutboxFits(q);
    forall tenant ensures ChainHolds(q, tenant) {
      assert ChainHolds(p, tenant);
    }
  }

  lemma SameStream(p: Pipe, q: Pipe, id: string)
    requires |p.stream| == |q.stream| && forall k :: 0 <= k < |p.stream| ==> q.stream[k].event == p.stream[k].event
    ensures InStream(p, id) ==> InStream(q, id)
  {
    if InStream(p, id) {
      var k :| 0 <= k < |p.stream| && p.stream[k].event.eventId == id;
      assert q.stream[k].event.eventId == id;
    }
  }

  lemma HandledOnceFits(p: Pipe, e: Envelope, recordedAt: string)
    requires PipeFits(p) && ProcessedFits(p) && e in p.committed && IsAudited(e) && Sendable(e)
    ensures PipeFits(HandleOnce(p, e, recordedAt)) && ProcessedFits(HandleOnce(p, e, recordedAt))
    ensures e.eventId in HandleOnce(p, e, recordedAt).processed
  {
    var q := HandleOnce(p, e, recordedAt);
    if e.eventId !in p.processed {
      forall id ensures InStream(q, id) <==> InStream(p, id) {
      }
      forall tenant ensures ChainHolds(q, tenant) {
        assert ChainHolds(p, tenant);
        if tenant == e.tenantId {
          AppendedHolds(p, e, recordedAt);
        } else {
          OtherTenantHolds(p, q, e, tenant);
        }
      }
    }
  }

  lemma OtherTenantHolds(p: Pipe, q: Pipe, e: Envelope, tenant: string)
    requires OutboxFits(p) && ChainHolds(p, tenant) && e in p.committed && e.tenantId != tenant
    requires q.committed == p.committed && q.processed == p.processed + {e.eventId}
    requires ChainOf(q, tenant) == ChainOf(p, tenant)
    ensures ChainHolds(q, tenant)
  {
    forall x | x in q.committed && x.tenantId == tenant && x.eventId in q.processed
      ensures x.eventId in p.processed
    {
      if x.eventId == e.eventId { SameEvent(p, x, e); }
    }
  }

  lemma AppendedHolds(p: Pipe, e: Envelope, recordedAt: string)
    requires ChainHolds(p, e.tenantId) && e in p.committed && IsAudited(e) && Sendable(e)
    requires e.eventId !in p.processed
    ensures ChainHolds(HandleOnce(p, e, recordedAt), e.tenantId)
  {
    var q := HandleOnce(p, e, recordedAt);
    var before, after := ChainOf(p, e.tenantId), ChainOf(q, e.tenantId);
    AppendKeeps(before, e, recordedAt);
    var r := after.records[|before.records|];
    assert after.records == before.records + [r];
    FieldsTell(e, r.fields.seqNo, recordedAt);
    assert Tells(r.fields, e);
    assert Recorded(p.committed, e.tenantId, r);
    AppendedIds(before, after, r, p.committed, p.processed, e);
  }

  lemma AppendedIds(before: Chain, after: Chain, r: Record, committed: seq<Envelope>, processed: set<string>, e: Envelope)
    requires Holds(before, e.tenantId, committed, processed) && ChainFits(after)
    requires e.eventId !in processed && after.records == before.records + [r] && r.fields.eventId == e.eventId
    requires Recorded(committed, e.tenantId, r)
    ensures Holds(after, e.tenantId, committed, processed + {e.eventId})
  {
    IdsStillDiffer(before.records, r, processed);
    forall x | x in committed && x.tenantId == e.tenantId && x.eventId in processed + {e.eventId}
      ensures x.eventId in EventIds(after)
    {
      IdFound(before, after, r, x.eventId);
    }
  }

  lemma IdFound(before: Chain, after: Chain, r: Record, id: string)
    requires after.records == before.records + [r] && (id in EventIds(before) || id == r.fields.eventId)
    ensures id in EventIds(after)
  {
    if id == r.fields.eventId {
      assert EventIds(after)[|before.records|] == id;
    } else {
      var i :| 0 <= i < |before.records| && EventIds(before)[i] == id;
      assert EventIds(after)[i] == id;
    }
  }

  lemma IdsStillDiffer(rs: seq<Record>, r: Record, processed: set<string>)
    requires IdsDiffer(rs) && r.fields.eventId !in processed
    requires forall x :: x in rs ==> x.fields.eventId in processed
    ensures IdsDiffer(rs + [r])
  {
    forall i | 0 <= i < |rs| ensures rs[i].fields.eventId in processed {
      assert rs[i] in rs;
    }
  }

  // ---- main results ----

  lemma StepKeeps(p: Pipe, s: Step)
    requires Fits(p) && Enabled(p, s)
    ensures Fits(Apply(p, s))
  {
    match s
    case CommitEvent(e) => CommitKeeps(p, e);
    case Tick(ms) => ForgetKeeps(p, "", ms);
    case Lock(r, id) => LockKeeps(p, r, id);
    case Publish(r, answered) => HandedFits(p, r); AnsweredFits(p, r);
    case Mark(r) => MarkedFits(p, p.relays[r].event); RelayGone(Marked(p, p.relays[r].event), r);
    case Fail(r) => BackedOffFits(p, r); RelayGone(BackedOff(p, r), r);
    case Crash(r) => RelayGone(p, r);
    case Forget(id) => ForgetKeeps(p, id, 0);
    case Handle(i, succeeds, acked, recordedAt) => HandleKeeps(p, i, succeeds, acked, recordedAt);
  }

  /// A run: steps that cannot be taken are left out.
  function Run(p: Pipe, steps: seq<Step>): Pipe {
    if steps == [] then p
    else
      var before, last := Run(p, steps[..|steps| - 1]), steps[|steps| - 1];
      if Enabled(before, last) then Apply(before, last) else before
  }

  lemma {:induction false} RunKeeps(p: Pipe, steps: seq<Step>)
    requires Fits(p)
    ensures Fits(Run(p, steps))
  {
    if steps != [] {
      var before, last := steps[..|steps| - 1], steps[|steps| - 1];
      RunKeeps(p, before);
      if Enabled(Run(p, before), last) { StepKeeps(Run(p, before), last); }
    }
  }

  /// Over every run with crashes, republishing and redelivery, each company's chain verifies,
  /// never holds an event twice, and holds only committed events of that company.
  lemma ChainsAreSound(steps: seq<Step>, tenant: string)
    ensures var p := Run(EMPTY, steps);
            var c := ChainOf(p, tenant);
            && AllStorable(c.records) && Verified(c.records, c.head)
            && IdsDiffer(c.records) && forall r :: r in c.records ==> Recorded(p.committed, tenant, r)
  {
    EmptyFits();
    RunKeeps(EMPTY, steps);
    assert ChainHolds(Run(EMPTY, steps), tenant);
  }

  /// All rows are handed over and every delivery of an audited event is acknowledged.
  ghost predicate Settled(p: Pipe) {
    && (forall id :: id in p.rows ==> p.rows[id].published)
    && (forall m :: m in p.stream && IsAudited(m.event) ==> m.acked)
  }

  /// Once settled, a company's chain holds exactly its committed events other than
  /// notifications.
  lemma SettledChainsAreComplete(steps: seq<Step>, e: Envelope)
    requires Settled(Run(EMPTY, steps)) && e in Run(EMPTY, steps).committed
    ensures IsAudited(e) <==> e.eventId in EventIds(ChainOf(Run(EMPTY, steps), e.tenantId))
    ensures IsAudited(e) <==> !StartsWith(e.kind, NOTIFY_PREFIX)
  {
    EmptyFits();
    RunKeeps(EMPTY, steps);
    AuditHears(e.kind);
    SettledHolds(Run(EMPTY, steps), e);
  }

  lemma SettledHolds(p: Pipe, e: Envelope)
    requires Fits(p) && Settled(p) && e in p.committed
    ensures IsAudited(e) <==> e.eventId in EventIds(ChainOf(p, e.tenantId))
  {
    assert ChainHolds(p, e.tenantId);
    if IsAudited(e) { SettledProcessed(p, e); }
    if e.eventId in EventIds(ChainOf(p, e.tenantId)) { RecordedAudited(p, e); }
  }

  lemma SettledProcessed(p: Pipe, e: Envelope)
    requires Fits(p) && Settled(p) && e in p.committed && IsAudited(e)
    ensures e.eventId in p.processed
  {
    assert InStream(p, e.eventId);
    var i :| 0 <= i < |p.stream| && p.stream[i].event.eventId == e.eventId;
    assert p.stream[i] in p.stream;
    SameEvent(p, p.stream[i].event, e);
  }

  lemma RecordedAudited(p: Pipe, e: Envelope)
    requires OutboxFits(p) && ChainHolds(p, e.tenantId) && e in p.committed && e.eventId in EventIds(ChainOf(p, e.tenantId))
    ensures IsAudited(e)
  {
    var c := ChainOf(p, e.tenantId);
    var i :| 0 <= i < |c.records| && EventIds(c)[i] == e.eventId;
    var x :| x in p.committed && IsAudited(x) && x.tenantId == e.tenantId && Tells(c.records[i].fields, x);
    SameEvent(p, x, e);
  }

  // ---- the relay ----

  /// How a publish call goes: taken, taken with the answer lost, or not taken.
  datatype Reply = Taken | TakenUnanswered | NotTaken

  function CountMarks(steps: seq<Step>): nat {
    if steps == [] then 0
    else CountMarks(steps[..|steps| - 1]) + (if steps[|steps| - 1].Mark? then 1 else 0)
  }

  /// The row of `id` is the one that was committed first of those that can be locked.
  ghost predicate IsOldest(p: Pipe, id: string) {
    exists n :: 0 <= n < |p.committed| && FirstLockable(p, n) && p.committed[n].eventId == id
  }

  predicate FirstLockable(p: Pipe, n: nat)
    requires n < |p.committed|
  {
    Lockable(p, p.committed[n].eventId) && forall k :: 0 <= k < n ==> !Lockable(p, p.committed[k].eventId)
  }

  /// Rows are locked oldest first.
  ghost predicate OldestFirst(p: Pipe, steps: seq<Step>) {
    steps == []
    || (var n := |steps| - 1;
        OldestFirst(p, steps[..n]) && (steps[n].Lock? ==> IsOldest(Run(p, steps[..n]), steps[n].id)))
  }

  lemma RunOne(p: Pipe, steps: seq<Step>, s: Step)
    requires Enabled(Run(p, steps), s)
    ensures Run(p, steps + [s]) == Apply(Run(p, steps), s)
    ensures CountMarks(steps + [s]) == CountMarks(steps) + if s.Mark? then 1 else 0
    ensures OldestFirst(p, steps) && (s.Lock? ==> IsOldest(Run(p, steps), s.id)) ==> OldestFirst(p, steps + [s])
  {
    assert (steps + [s])[..|steps|] == steps;
  }

  lemma PublishedHold(p: Pipe, r: nat, answered: bool)
    requires Enabled(p, Publish(r, answered))
    ensures var q := Apply(p, Publish(r, answered));
            r in q.relays && (answered ==> q.relays[r].sent)
  {
    if answered {
      assert Apply(p, Publish(r, answered)) == HandedAndAnswered(p, r);
    } else {
      assert Apply(p, Publish(r, answered)) == Handed(p, r);
    }
  }

  predicate NeverFails(steps: seq<Step>) { forall i :: 0 <= i < |steps| ==> !steps[i].Fail? }

  /// Nothing comes after a failure.
  predicate FailsLast(steps: seq<Step>) { forall i :: 0 <= i < |steps| - 1 ==> !steps[i].Fail? }

  /// The steps of a relay that hands over one row.
  predicate IsHanding(steps: seq<Step>, relay: nat, id: string, reply: Reply) {
    steps == [Lock(relay, id)] + (if reply.NotTaken? then [] else [Publish(relay, reply.Taken?)])
             + [if reply.Taken? then Mark(relay) else Fail(relay)]
  }

  lemma HandingFailsLast(steps: seq<Step>, more: seq<Step>, relay: nat, id: string, reply: Reply)
    requires NeverFails(steps) && IsHanding(more, relay, id, reply)
    ensures FailsLast(steps + more) && (reply.Taken? ==> NeverFails(steps + more))
  {
  }

  class OutboxRelay {
    const relay: nat
    var running: bool
    var pipe: Pipe

    constructor (relay: nat, pipe: Pipe)
      ensures this.relay == relay && this.pipe == pipe && !running
    {
      this.relay := relay;
      this.pipe := pipe;
      running := false;
    }

    ghost predicate Valid()
      reads this
    {
      Fits(pipe) && relay !in pipe.relays
    }

    /// The oldest pending row that is not locked.
    method FindOldest() returns (found: Option<string>)
      ensures found.Some? ==> Lockable(pipe, found.value) && IsOldest(pipe, found.value)
      ensures found.None? ==> forall e :: e in pipe.committed ==> !Lockable(pipe, e.eventId)
    {
      var i := 0;
      while i < |pipe.committed|
        invariant i <= |pipe.committed|
        invariant forall k :: 0 <= k < i ==> !Lockable(pipe, pipe.committed[k].eventId)
      {
        var id := pipe.committed[i].eventId;
        if Lockable(pipe, id) {
          assert FirstLockable(pipe, i);
          return Some(id);
        }
        i := i + 1;
      }
      found := None;
    }

    /// Takes a step after the steps taken so far.
    method Take(s: Step, ghost before: Pipe, ghost steps: seq<Step>)
      requires Fits(pipe) && Enabled(pipe, s) && pipe == Run(before, steps) && OldestFirst(before, steps)
      requires s.Lock? ==> IsOldest(pipe, s.id)
      modifies this`pipe
      ensures Fits(pipe) && pipe == Apply(old(pipe), s)
      ensures pipe == Run(before, steps + [s]) && OldestFirst(before, steps + [s])
      ensures CountMarks(steps + [s]) == CountMarks(steps) + if s.Mark? then 1 else 0
    {
      StepKeeps(pipe, s);
      RunOne(before, steps, s);
      pipe := Apply(pipe, s);
    }

    method LockRow(id: string, ghost before: Pipe) returns (ghost steps: seq<Step>)
      requires Valid() && IsOldest(pipe, id) && pipe == before
      modifies this`pipe
      ensures Fits(pipe) && pipe == Run(before, steps) && OldestFirst(before, steps) && CountMarks(steps) == 0
      ensures steps == [Lock(relay, id)] && relay in pipe.relays && !pipe.relays[relay].sent
    {
      Take(Lock(relay, id), before, []);
      steps := [] + [Lock(relay, id)];
    }

    method PublishRow(answered: bool, ghost before: Pipe, ghost so: seq<Step>) returns (ghost steps: seq<Step>)
      requires Fits(pipe) && pipe == Run(before, so) && OldestFirst(before, so)
      requires relay in pipe.relays && !pipe.relays[relay].sent
      modifies this`pipe
      ensures Fits(pipe) && pipe == Run(before, steps) && OldestFirst(before, steps) && CountMarks(steps) == CountMarks(so)
      ensures steps == so + [Publish(relay, answered)]
      ensures relay in pipe.relays && (answered ==> pipe.relays[relay].sent)
    {
      PublishedHold(pipe, relay, answered);
      Take(Publish(relay, answered), before, so);
      steps := so + [Publish(relay, answered)];
    }

    /// Marks the row, or unlocks it later.
    method Finish(ok: bool, ghost before: Pipe, ghost so: seq<Step>) returns (ghost steps: seq<Step>)
      requires Fits(pipe) && pipe == Run(before, so) && OldestFirst(before, so)
      requires relay in pipe.relays && (ok ==> pipe.relays[relay].sent)
      modifies this`pipe
      ensures Valid() && pipe == Run(before, steps) && OldestFirst(before, steps)
      ensures steps == so + [if ok then Mark(relay) else Fail(relay)]
      ensures CountMarks(steps) == CountMarks(so) + if ok then 1 else 0
    {
      var last := if ok then Mark(relay) else Fail(relay);
      Take(last, before, so);
      steps := so + [last];
    }

    /// Locks, publishes and marks one row; a failed call unlocks it later.
    method Hand(id: string, reply: Reply) returns (ok: bool, ghost steps: seq<Step>)
      requires Valid() && IsOldest(pipe, id)
      modifies this`pipe
      ensures Valid() && pipe == Run(old(pipe), steps) && OldestFirst(old(pipe), steps)
      ensures IsHanding(steps, relay, id, reply) && (ok <==> reply.Taken?)
      ensures CountMarks(steps) == if ok then 1 else 0
    {
      ghost var before := pipe;
      steps := LockRow(id, before);
      if !reply.NotTaken? {
        steps := PublishRow(reply.Taken?, before, steps);
      }
      ok := reply.Taken?;
      steps := Finish(ok, before, steps);
    }

    /// Hands rows over one by one, up to `max`, and counts those marked; it stops at the first failure.
    method Flush(max: nat, replies: seq<Reply>) returns (count: nat, ghost steps: seq<Step>)
      requires Valid()
      modifies this
      ensures Valid() && running == old(running)
      ensures pipe == Run(old(pipe), steps) && OldestFirst(old(pipe), steps) && count == CountMarks(steps) <= max
      ensures old(running) ==> steps == []
      ensures FailsLast(steps)
      ensures !running && count < max && (forall r :: r in replies ==> r.Taken?) ==> forall id :: !Lockable(pipe, id)
    {
      count, steps := 0, [];
      if running { return; }
      running := true;
      ghost var before := pipe;
      while count < max
        invariant Valid() && pipe == Run(before, steps) && OldestFirst(before, steps) && count == CountMarks(steps) <= max
        invariant NeverFails(steps)
      {
        var row := FindOldest();
        if row.None? {
          RowsCommitted(pipe);
          break;
        }
        var ok: bool;
        ghost var more: seq<Step>;
        ok, more := Hand(row.value, if count < |replies| then replies[count] else Taken);
        RunMore(before, steps, more);
        HandingFailsLast(steps, more, relay, row.value, if count < |replies| then replies[count] else Taken);
        steps := steps + more;
        if !ok { break; }
        count := count + 1;
      }
      running := false;
    }
  }

  lemma RowsCommitted(p: Pipe)
    requires OutboxFits(p) && forall e :: e in p.committed ==> !Lockable(p, e.eventId)
    ensures forall id :: !Lockable(p, id)
  {
    forall id ensures !Lockable(p, id) {
      if id in p.rows { assert p.rows[id].event in p.committed; }
    }
  }

  lemma {:induction false} RunMore(p: Pipe, steps: seq<Step>, more: seq<Step>)
    ensures Run(p, steps + more) == Run(Run(p, steps), more)
    ensures CountMarks(steps + more) == CountMarks(steps) + CountMarks(more)
    ensures OldestFirst(p, steps) && OldestFirst(Run(p, steps), more) ==> OldestFirst(p, steps + more)
    decreases |more|
  {
    if more == [] {
      assert steps + more == steps;
    } else {
      var n := |more| - 1;
      assert (steps + more)[..|steps + more| - 1] == steps + more[..n];
      RunMore(p, steps, more[..n]);
    }
  }
}
