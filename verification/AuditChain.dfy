/// The audit chain of one company: each record's hash covers its content and the hash of
/// the record before it.

module AuditChain {
  import opened Basics
  import opened Text
  import opened CanonicalJson
  import opened CanonicalText

  // ---- redaction ----

  function LowerChar(c: char): char { if 'A' <= c <= 'Z' then (c as int + 32) as char else c }

  function Lower(s: string): string { seq(|s|, i requires 0 <= i < |s| => LowerChar(s[i])) }

  predicate Contains(s: string, part: string) {
    exists i: nat :: i <= |s| && SepAt(s, i, part)
  }

  predicate IsSecretKey(key: string) {
    var k := Lower(key);
    Contains(k, "password") || Contains(k, "secret") || Contains(k, "token") || k == "otp" || k == "code"
  }

  const REDACTED := Str("[redacted]")

  /// Secrets are replaced at every level. A date has no members of its own, so it becomes
  /// an empty object.
  function Redact(j: Json): Json
    decreases j
  {
    match j
    case Arr(items) => Arr(seq(|items|, i requires 0 <= i < |items| => Redact(items[i])))
    case Obj(ms) =>
      Obj(seq(|ms|, i requires 0 <= i < |ms| =>
        Member(ms[i].key, if IsSecretKey(ms[i].key) then REDACTED else Redact(ms[i].value))))
    case Date(_) => Obj([])
    case _ => j
  }

  predicate HoldsNoSecret(j: Json)
    decreases j
  {
    match j
    case Arr(items) => forall i :: 0 <= i < |items| ==> HoldsNoSecret(items[i])
    case Obj(ms) =>
      forall i :: 0 <= i < |ms| ==>
        if IsSecretKey(ms[i].key) then ms[i].value == REDACTED else HoldsNoSecret(ms[i].value)
    case Date(_) => false
    case _ => true
  }

  /// Redaction removes every secret and changes nothing else.
  lemma {:induction false} RedactRemoves(j: Json)
    ensures HoldsNoSecret(Redact(j)) && (WellFormed(j) ==> WellFormed(Redact(j)))
    ensures HoldsNoSecret(j) <==> Redact(j) == j
    decreases j
  {
    match j
    case Arr(items) =>
      forall i | 0 <= i < |items|
        ensures HoldsNoSecret(Redact(items[i])) && (WellFormed(items[i]) ==> WellFormed(Redact(items[i])))
        ensures HoldsNoSecret(items[i]) <==> Redact(items[i]) == items[i]
      {
        RedactRemoves(items[i]);
      }
      assert HoldsNoSecret(j) ==> Redact(j).items == items;
    case Obj(ms) =>
      forall i | 0 <= i < |ms|
        ensures HoldsNoSecret(Redact(ms[i].value)) && (WellFormed(ms[i].value) ==> WellFormed(Redact(ms[i].value)))
        ensures HoldsNoSecret(ms[i].value) <==> Redact(ms[i].value) == ms[i].value
      {
        RedactRemoves(ms[i].value);
      }
      assert HoldsNoSecret(j) ==> Redact(j).members == ms;
    case _ =>
  }

  /// `r` is `j` with every secret replaced: the same members in the same order, and the same
  /// items, at every depth.
  predicate IsRedaction(j: Json, r: Json)
    decreases j
  {
    match j
    case Arr(items) =>
      r.Arr? && |r.items| == |items| && forall i :: 0 <= i < |items| ==> IsRedaction(items[i], r.items[i])
    case Obj(ms) =>
      && r.Obj? && |r.members| == |ms|
      && forall i :: 0 <= i < |ms| ==>
           && r.members[i].key == ms[i].key
           && if IsSecretKey(ms[i].key) then r.members[i].value == Str("[redacted]")
              else IsRedaction(ms[i].value, r.members[i].value)
    case Date(_) => r == Obj([])
    case _ => r == j
  }

  lemma {:induction false} RedactIsRedaction(j: Json)
    ensures IsRedaction(j, Redact(j))
    decreases j
  {
    match j
    case Arr(items) =>
      forall i | 0 <= i < |items| ensures IsRedaction(items[i], Redact(items[i])) { RedactIsRedaction(items[i]); }
    case Obj(ms) =>
      forall i | 0 <= i < |ms| ensures IsRedaction(ms[i].value, Redact(ms[i].value)) { RedactIsRedaction(ms[i].value); }
    case _ =>
  }

  // ---- records ----

  datatype Fields = Fields(
    tenantId: string, seqNo: nat, eventId: string, kind: string, source: string,
    actorType: string, actorId: string, occurredAt: string, recordedAt: string,
    correlationId: Option<string>, payload: Json)

  /// A hash function without collisions.
  datatype Hash = Genesis | Sha(prev: Hash, text: string)

  datatype Record = Record(fields: Fields, prevHash: Hash, hash: Hash)

  datatype Head = Head(seqNo: nat, hash: Hash)

  /// A stored payload may be missing altogether.
  predicate Storable(f: Fields) { WellFormed(f.payload) }

  function MembersOf(f: Fields): seq<Member> {
    [Member("tenantId", Str(f.tenantId)), Member("seq", Number(f.seqNo)), Member("eventId", Str(f.eventId)),
     Member("type", Str(f.kind)), Member("source", Str(f.source)),
     Member("actor", Obj([Member("type", Str(f.actorType)), Member("id", Str(f.actorId))])),
     Member("occurredAt", Str(f.occurredAt)), Member("recordedAt", Str(f.recordedAt)),
     Member("correlationId", if f.correlationId.Some? then Str(f.correlationId.value) else Undefined),
     Member("payload", f.payload)]
  }

  const KEYS: seq<string> :=
    ["tenantId", "seq", "eventId", "type", "source", "actor", "occurredAt", "recordedAt", "correlationId", "payload"]

  lemma KeysDiffer()
    ensures forall i, k :: 0 <= i < k < |KEYS| ==> KEYS[i] != KEYS[k]
    ensures forall i :: 0 <= i < |KEYS| ==> KEYS[i] != "__proto__"
    ensures "type" != "id" && "type" != "__proto__" && "id" != "__proto__"
  {
    assert forall i, k :: 0 <= i < k < |KEYS| ==> |KEYS[i]| != |KEYS[k]| || KEYS[i][0] != KEYS[k][0];
    assert forall i :: 0 <= i < |KEYS| ==> |KEYS[i]| != |"__proto__"|;
    assert |"type"| == 4 && |"id"| == 2 && |"__proto__"| == 9;
  }

  lemma FieldsWellFormed(f: Fields)
    requires Storable(f)
    ensures WellFormed(Obj(MembersOf(f)))
    ensures forall i :: 0 <= i < 10 ==> MembersOf(f)[i].key == KEYS[i]
  {
    KeysDiffer();
  }

  function ChainHash(prev: Hash, f: Fields): Hash
    requires Storable(f)
  {
    FieldsWellFormed(f);
    Sha(prev, Canonical(Obj(MembersOf(f))))
  }

  // ---- verification ----

  datatype Reason = Missing | BadLink | Changed | TailMissing

  datatype VerifyResult = VerifyResult(valid: bool, records: nat, headSeq: nat, brokenAt: Option<(nat, Reason)>)

  predicate AllStorable(rs: seq<Record>) { forall i :: 0 <= i < |rs| ==> Storable(rs[i].fields) }

  /// The hash before record `i`.
  function HashBefore(rs: seq<Record>, i: nat): Hash
    requires i <= |rs|
  {
    if i == 0 then Genesis else rs[i - 1].hash
  }

  /// What is wrong with record `i`, if anything.
  function Fault(rs: seq<Record>, i: nat): Option<Reason>
    requires i < |rs| && AllStorable(rs)
  {
    if rs[i].fields.seqNo != i + 1 then Some(Missing)
    else if rs[i].prevHash != HashBefore(rs, i) then Some(BadLink)
    else if ChainHash(HashBefore(rs, i), rs[i].fields) != rs[i].hash then Some(Changed)
    else None
  }

  predicate HeadFits(rs: seq<Record>, head: Option<Head>) {
    if head.None? then rs == []
    else head.value.seqNo == |rs| && head.value.hash == HashBefore(rs, |rs|)
  }

  predicate Verified(rs: seq<Record>, head: Option<Head>)
    requires AllStorable(rs)
  {
    (forall i :: 0 <= i < |rs| ==> Fault(rs, i).None?) && HeadFits(rs, head)
  }

  /// The records come in the order of their positions.
  method Verify(rs: seq<Record>, head: Option<Head>) returns (r: VerifyResult)
    requires AllStorable(rs)
    ensures r.valid <==> Verified(rs, head)
    ensures r.valid <==> r.brokenAt.None?
    ensures r.headSeq == if head.Some? then head.value.seqNo else 0
    ensures r.records <= |rs| && forall i :: 0 <= i < r.records ==> Fault(rs, i).None?
    ensures r.records < |rs| ==>
              Fault(rs, r.records).Some?
              && r.brokenAt == Some((if Fault(rs, r.records) == Some(Missing) then r.records + 1 else rs[r.records].fields.seqNo,
                                     Fault(rs, r.records).value))
    ensures r.records == |rs| && !r.valid ==> r.brokenAt == Some((|rs| + 1, TailMissing))
  {
    var headSeq := if head.Some? then head.value.seqNo else 0;
    var prevHash := Genesis;
    var expected := 1;
    var count := 0;
    while count < |rs|
      invariant count <= |rs| && expected == count + 1 && prevHash == HashBefore(rs, count)
      invariant forall i :: 0 <= i < count ==> Fault(rs, i).None?
    {
      var record := rs[count];
      ghost var fault := Fault(rs, count);
      if record.fields.seqNo != expected {
        return VerifyResult(false, count, headSeq, Some((expected, Missing)));
      }
      if record.prevHash != prevHash {
        return VerifyResult(false, count, headSeq, Some((record.fields.seqNo, BadLink)));
      }
      if ChainHash(prevHash, record.fields) != record.hash {
        return VerifyResult(false, count, headSeq, Some((record.fields.seqNo, Changed)));
      }
      prevHash := record.hash;
      expected := expected + 1;
      count := count + 1;
    }
    if headSeq != count || (head.Some? && head.value.hash != prevHash) {
      return VerifyResult(false, count, headSeq, Some((count + 1, TailMissing)));
    }
    r := VerifyResult(true, count, headSeq, None);
  }

  // ---- appending ----

  datatype Envelope = Envelope(
    eventId: string, kind: string, tenantId: string, actorType: string, actorId: string,
    occurredAt: string, correlationId: Option<string>, source: string, payload: Json)

  predicate Sendable(e: Envelope) { WellFormed(e.payload) }

  function FieldsOf(e: Envelope, seqNo: nat, recordedAt: string): (f: Fields)
    requires Sendable(e)
    ensures Storable(f)
  {
    var payload := if e.payload == Undefined then Null else e.payload;
    RedactRemoves(payload);
    Fields(e.tenantId, seqNo, e.eventId, e.kind, e.source, e.actorType, e.actorId, e.occurredAt, recordedAt,
           e.correlationId, Redact(payload))
  }

  /// A missing payload is stored as null, any other with its secrets replaced.
  predicate TellsPayload(payload: Json, stored: Json) {
    if payload == Undefined then stored == Null else IsRedaction(payload, stored)
  }

  /// What a record keeps of its event, each value in its place.
  predicate Tells(f: Fields, e: Envelope) {
    && f.tenantId == e.tenantId && f.eventId == e.eventId && f.kind == e.kind && f.source == e.source
    && f.actorType == e.actorType && f.actorId == e.actorId && f.occurredAt == e.occurredAt
    && f.correlationId == e.correlationId && TellsPayload(e.payload, f.payload)
  }

  lemma {:induction false} FieldsTell(e: Envelope, seqNo: nat, recordedAt: string)
    requires Sendable(e)
    ensures var f := FieldsOf(e, seqNo, recordedAt);
            Tells(f, e) && f.seqNo == seqNo && f.recordedAt == recordedAt
  {
    RedactIsRedaction(e.payload);
  }

  /// A chain: its records by position, and its head.
  datatype Chain = Chain(records: seq<Record>, head: Option<Head>)

  ghost predicate ChainFits(c: Chain) { AllStorable(c.records) && Verified(c.records, c.head) }

  function Append(c: Chain, e: Envelope, recordedAt: string): Chain
    requires Sendable(e)
  {
    var seqNo := if c.head.Some? then c.head.value.seqNo + 1 else 1;
    var prevHash := if c.head.Some? then c.head.value.hash else Genesis;
    var fields := FieldsOf(e, seqNo, recordedAt);
    var hash := ChainHash(prevHash, fields);
    Chain(c.records + [Record(fields, prevHash, hash)], Some(Head(seqNo, hash)))
  }

  lemma AppendKeeps(c: Chain, e: Envelope, recordedAt: string)
    requires ChainFits(c) && Sendable(e)
    ensures ChainFits(Append(c, e, recordedAt))
  {
    var n := |c.records|;
    var rs := Append(c, e, recordedAt).records;
    forall i | 0 <= i < |rs| ensures Storable(rs[i].fields) {
      if i < n { assert rs[i] == c.records[i]; }
    }
    forall i | 0 <= i < |rs| ensures Fault(rs, i).None? {
      assert HashBefore(rs, i) == if i < n then HashBefore(c.records, i) else HashBefore(c.records, n);
      if i < n { assert Fault(c.records, i).None?; }
    }
  }

  class AuditStore {
    var records: seq<Record>
    var head: Option<Head>

    ghost predicate Valid()
      reads this
    {
      ChainFits(Chain(records, head))
    }

    constructor ()
      ensures Valid() && records == [] && head == None
    {
      records := [];
      head := None;
    }

    /// Makes the event the last record and moves the head to it.
    method AppendEvent(e: Envelope, recordedAt: string)
      requires Valid() && Sendable(e)
      modifies this
      ensures Valid() && Chain(records, head) == Append(old(Chain(records, head)), e, recordedAt)
      ensures |records| == |old(records)| + 1 && records[..|old(records)|] == old(records)
      ensures var f := records[|old(records)|].fields;
              Tells(f, e) && f.seqNo == |records| && f.recordedAt == recordedAt
    {
      FieldsTell(e, |records| + 1, recordedAt);
      AppendKeeps(Chain(records, head), e, recordedAt);
      var seqNo := (if head.Some? then head.value.seqNo else 0) + 1;
      var prevHash := if head.Some? then head.value.hash else Genesis;
      var fields := FieldsOf(e, seqNo, recordedAt);
      var hash := ChainHash(prevHash, fields);
      records := records + [Record(fields, prevHash, hash)];
      head := Some(Head(seqNo, hash));
    }
  }

  // ---- tampering shows ----

  /// Equal but for the order of keys in the payload and the like.
  ghost predicate SameFields(f: Fields, g: Fields) {
    f.(payload := Null) == g.(payload := Null) && SameMeaning(f.payload, g.payload)
  }

  ghost predicate SameRecord(r: Record, s: Record) {
    SameFields(r.fields, s.fields) && r.prevHash == s.prevHash && r.hash == s.hash
  }

  /// Objects with the same keys in the same places mean the same member by member.
  lemma MemberByMember(xs: seq<Member>, ys: seq<Member>, i: nat)
    requires |xs| == |ys| && WellFormed(Obj(xs)) && WellFormed(Obj(ys))
    requires forall k :: 0 <= k < |xs| ==> xs[k].key == ys[k].key && xs[k].key != "__proto__"
    requires SameMeaning(Obj(xs), Obj(ys)) && i < |xs|
    ensures SameMeaning(xs[i].value, ys[i].value)
  {
    if !Dropped(xs[i]) { assert HasMatch(xs[i], ys); }
    if !Dropped(ys[i]) { assert KeepsKey(xs, ys[i].key); }
  }

  /// Hashes are equal exactly when they come from equal predecessors and fields.
  lemma SameHashSameFields(f: Fields, g: Fields, p: Hash, q: Hash)
    requires Storable(f) && Storable(g)
    ensures ChainHash(p, f) == ChainHash(q, g) <==> p == q && SameFields(f, g)
  {
    if ChainHash(p, f) == ChainHash(q, g) { SameHashFields(f, g, p, q); }
    if SameFields(f, g) { SameFieldsSameText(f, g); }
  }

  lemma SameFieldsSameText(f: Fields, g: Fields)
    requires Storable(f) && Storable(g) && SameFields(f, g)
    ensures Canonical(Obj(MembersOf(f))) == Canonical(Obj(MembersOf(g)))
  {
    var xs, ys := MembersOf(f), MembersOf(g);
    FieldsWellFormed(f);
    FieldsWellFormed(g);
    forall i | 0 <= i < 10 ensures xs[i].key == ys[i].key && SameMeaning(xs[i].value, ys[i].value) {
      if i < 9 {
        assert xs[i] == ys[i];
        SameNormalForm(xs[i].value, ys[i].value);
      }
    }
    SamePlaces(xs, ys);
    SameCanonical(Obj(xs), Obj(ys));
  }

  /// Members that mean the same, place by place, make objects that do.
  lemma SamePlaces(xs: seq<Member>, ys: seq<Member>)
    requires |xs| == |ys|
    requires forall i :: 0 <= i < |xs| ==> xs[i].key == ys[i].key && SameMeaning(xs[i].value, ys[i].value)
    ensures SameMeaning(Obj(xs), Obj(ys))
  {
    forall i | 0 <= i < |xs| && !Dropped(xs[i]) ensures HasMatch(xs[i], ys) {
      assert SameMeaning(xs[i].value, ys[i].value) && !Dropped(ys[i]);
    }
    forall k | 0 <= k < |ys| && !Dropped(ys[k]) ensures KeepsKey(xs, ys[k].key) {
      assert SameMeaning(xs[k].value, ys[k].value) && !Dropped(xs[k]);
    }
  }

  lemma SameHashFields(f: Fields, g: Fields, p: Hash, q: Hash)
    requires Storable(f) && Storable(g) && ChainHash(p, f) == ChainHash(q, g)
    ensures p == q && SameFields(f, g)
  {
    var xs, ys := MembersOf(f), MembersOf(g);
    KeysDiffer();
    FieldsWellFormed(f);
    FieldsWellFormed(g);
    SameCanonical(Obj(xs), Obj(ys));
    forall i | 0 <= i < 10 ensures SameMeaning(xs[i].value, ys[i].value) {
      MemberByMember(xs, ys, i);
    }
    SameMembersSameFields(f, g);
  }

  lemma SameMembersSameFields(f: Fields, g: Fields)
    requires Storable(f) && Storable(g)
    requires forall i :: 0 <= i < 10 ==> SameMeaning(MembersOf(f)[i].value, MembersOf(g)[i].value)
    ensures SameFields(f, g)
  {
    var xs, ys := MembersOf(f), MembersOf(g);
    assert SameMeaning(xs[0].value, ys[0].value) && SameMeaning(xs[1].value, ys[1].value);
    assert SameMeaning(xs[2].value, ys[2].value) && SameMeaning(xs[3].value, ys[3].value);
    assert SameMeaning(xs[4].value, ys[4].value) && SameMeaning(xs[6].value, ys[6].value);
    assert SameMeaning(xs[7].value, ys[7].value) && SameMeaning(xs[9].value, ys[9].value);
    assert SameMeaning(xs[8].value, ys[8].value);
    SameActor(f, g, xs[5].value, ys[5].value);
  }

  lemma SameActor(f: Fields, g: Fields, a: Json, b: Json)
    requires a == Obj([Member("type", Str(f.actorType)), Member("id", Str(f.actorId))])
    requires b == Obj([Member("type", Str(g.actorType)), Member("id", Str(g.actorId))])
    requires SameMeaning(a, b)
    ensures f.actorType == g.actorType && f.actorId == g.actorId
  {
    KeysDiffer();
    MemberByMember(a.members, b.members, 0);
    MemberByMember(a.members, b.members, 1);
  }

  /// Chains that end in the same hash are the same.
  lemma {:induction false} SameHashSameChain(a: seq<Record>, b: seq<Record>)
    requires AllStorable(a) && AllStorable(b) && |a| == |b|
    requires forall i :: 0 <= i < |a| ==> Fault(a, i).None?
    requires forall i :: 0 <= i < |b| ==> Fault(b, i).None?
    requires HashBefore(a, |a|) == HashBefore(b, |b|)
    ensures forall i :: 0 <= i < |a| ==> SameRecord(a[i], b[i])
  {
    if a != [] {
      var n := |a| - 1;
      assert Fault(a, n).None? && Fault(b, n).None?;
      SameHashSameFields(a[n].fields, b[n].fields, HashBefore(a, n), HashBefore(b, n));
      ShorterFits(a, n);
      ShorterFits(b, n);
      SameHashSameChain(a[..n], b[..n]);
      forall i | 0 <= i < |a| ensures SameRecord(a[i], b[i]) {
        if i < n { assert SameRecord(a[..n][i], b[..n][i]); }
      }
    }
  }

  lemma ShorterFits(a: seq<Record>, n: nat)
    requires AllStorable(a) && n <= |a| && forall i :: 0 <= i < |a| ==> Fault(a, i).None?
    ensures AllStorable(a[..n]) && HashBefore(a[..n], n) == HashBefore(a, n)
    ensures forall i :: 0 <= i < n ==> Fault(a[..n], i).None?
  {
    forall i | 0 <= i < n ensures Storable(a[..n][i].fields) {
      assert a[..n][i] == a[i];
    }
    forall i | 0 <= i < n ensures Fault(a[..n], i).None? {
      assert Fault(a, i).None? && HashBefore(a[..n], i) == HashBefore(a, i);
    }
  }

  /// Next to a record list that verifies, another one verifies against the same head exactly
  /// when it has the same records: any edit, insertion, deletion, reordering or truncation
  /// with the head intact shows, but for what the canonical text leaves out.
  lemma TamperEvident(a: seq<Record>, b: seq<Record>, head: Option<Head>)
    requires AllStorable(a) && AllStorable(b) && Verified(a, head)
    ensures Verified(b, head) <==> |a| == |b| && forall i :: 0 <= i < |a| ==> SameRecord(a[i], b[i])
  {
    if Verified(b, head) { SameHashSameChain(a, b); }
    if |a| == |b| && forall i :: 0 <= i < |a| ==> SameRecord(a[i], b[i]) { SameRecordsVerify(a, b, head); }
  }

  lemma SameRecordsVerify(a: seq<Record>, b: seq<Record>, head: Option<Head>)
    requires AllStorable(a) && AllStorable(b) && Verified(a, head)
    requires |a| == |b| && forall i :: 0 <= i < |a| ==> SameRecord(a[i], b[i])
    ensures Verified(b, head)
  {
    forall i | 0 <= i <= |a| ensures HashBefore(a, i) == HashBefore(b, i) {
      if i > 0 { assert SameRecord(a[i - 1], b[i - 1]); }
    }
    forall i | 0 <= i < |b| ensures Fault(b, i).None? {
      assert SameRecord(a[i], b[i]) && Fault(a, i).None?;
      SameHashSameFields(a[i].fields, b[i].fields, HashBefore(a, i), HashBefore(b, i));
    }
  }

  /// What the text leaves out: a member named `__proto__` can be added to a stored payload,
  /// with any value, and the chain still verifies.
  lemma ProtoUnseen(a: seq<Record>, i: nat, v: Json, head: Option<Head>)
    requires AllStorable(a) && Verified(a, head) && i < |a| && a[i].fields.payload.Obj? && WellFormed(v)
    requires !HasKey(a[i].fields.payload.members, "__proto__")
    ensures var b := WithProto(a, i, v);
            AllStorable(b) && b != a && Verified(b, head)
  {
    var ms := a[i].fields.payload.members;
    var b := WithProto(a, i, v);
    assert |b[i].fields.payload.members| == |ms| + 1;
    ProtoSameMeaning(ms, v);
    forall k | 0 <= k < |a| ensures SameRecord(a[k], b[k]) {
      SameNormalForm(a[k].fields.payload, a[k].fields.payload);
    }
    TamperEvident(a, b, head);
  }

  function WithProto(a: seq<Record>, i: nat, v: Json): seq<Record>
    requires i < |a| && a[i].fields.payload.Obj?
  {
    var f := a[i].fields;
    a[i := a[i].(fields := f.(payload := Obj(f.payload.members + [Member("__proto__", v)])))]
  }

  lemma ProtoSameMeaning(ms: seq<Member>, v: Json)
    requires WellFormed(Obj(ms)) && WellFormed(v) && !HasKey(ms, "__proto__")
    ensures WellFormed(Obj(ms + [Member("__proto__", v)])) && SameMeaning(Obj(ms), Obj(ms + [Member("__proto__", v)]))
  {
    var more := ms + [Member("__proto__", v)];
    forall i | 0 <= i < |ms| ensures SameMeaning(ms[i].value, ms[i].value) { SameNormalForm(ms[i].value, ms[i].value); }
    forall i | 0 <= i < |ms| && !Dropped(ms[i]) ensures HasMatch(ms[i], more) {
      assert more[i] == ms[i] && SameMeaning(ms[i].value, more[i].value);
    }
    forall k | 0 <= k < |more| && !Dropped(more[k]) ensures KeepsKey(ms, more[k].key) {
      assert k < |ms| && more[k] == ms[k];
    }
  }

  /// With payloads stored in normal form, they are identical.
  lemma TamperEvidentExactly(a: seq<Record>, b: seq<Record>, head: Option<Head>)
    requires AllStorable(a) && AllStorable(b) && Verified(a, head) && Verified(b, head)
    requires forall r :: r in a || r in b ==> Normalize(r.fields.payload) == r.fields.payload
    ensures a == b
  {
    TamperEvident(a, b, head);
    forall i | 0 <= i < |a| ensures a[i] == b[i] {
      assert a[i] in a && b[i] in b && SameRecord(a[i], b[i]);
      SameNormalForm(a[i].fields.payload, b[i].fields.payload);
      SameButPayload(a[i].fields, b[i].fields);
    }
  }

  lemma SameButPayload(f: Fields, g: Fields)
    requires f.(payload := Null) == g.(payload := Null) && f.payload == g.payload
    ensures f == g
  {
    assert f == f.(payload := Null).(payload := f.payload);
    assert g == g.(payload := Null).(payload := g.payload);
  }
}
