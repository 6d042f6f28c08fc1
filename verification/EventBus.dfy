/// Subjects and the in-process event bus: at-least-once delivery to named subscriptions.

module EventBus {
  import opened Basics
  import opened Text

  // ---- subjects ----

  const NOTIFY_PREFIX := "notify."
  const EVENTS_PREFIX := "erp."

  function SubjectFor(kind: string): string {
    if StartsWith(kind, NOTIFY_PREFIX) then kind else EVENTS_PREFIX + kind
  }

  predicate TokenFits(pattern: string, token: string) { pattern == "*" || pattern == token }

  /// The first `>` of a pattern, or its length.
  function RestAt(p: seq<string>): (i: nat)
    ensures i <= |p| && (i < |p| ==> p[i] == ">") && forall k :: 0 <= k < i ==> p[k] != ">"
  {
    if p == [] || p[0] == ">" then 0 else 1 + RestAt(p[1..])
  }

  /// Every token before `>` fits, and `>` stands for one token or more.
  predicate TokensMatch(p: seq<string>, s: seq<string>) {
    var i := RestAt(p);
    && (if i < |p| then i < |s| else |s| == |p|)
    && forall k :: 0 <= k < i ==> TokenFits(p[k], s[k])
  }

  predicate Matches(pattern: string, subject: string) { TokensMatch(Split(pattern, "."), Split(subject, ".")) }

  method SubjectMatches(pattern: string, subject: string) returns (r: bool)
    ensures r <==> Matches(pattern, subject)
  {
    var p := Split(pattern, ".");
    var s := Split(subject, ".");
    var i := 0;
    while i < |p|
      invariant i <= |p| && i <= |s|
      invariant forall k :: 0 <= k < i ==> p[k] != ">" && TokenFits(p[k], s[k])
    {
      if p[i] == ">" {
        return |s| > i;
      }
      if i >= |s| { return false; }
      if p[i] != "*" && p[i] != s[i] { return false; }
      i := i + 1;
    }
    r := |p| == |s|;
  }

  /// The audit subscription `erp.>` gets exactly the events that are not notifications.
  lemma AuditHears(kind: string)
    ensures Matches("erp.>", SubjectFor(kind)) <==> !StartsWith(kind, NOTIFY_PREFIX)
  {
    SplitHead("erp", ">", ".", 0);
    assert "erp" + "." + ">" == "erp.>";
    SplitNone(">", 0, ".");
    assert Split("erp.>", ".") == ["erp", ">"];
    assert RestAt(["erp", ">"][1..]) == 0;
    assert RestAt(["erp", ">"]) == 1;
    if StartsWith(kind, NOTIFY_PREFIX) {
      var rest := kind[7..];
      SplitHead("notify", rest, ".", 0);
      assert kind == "notify" + "." + rest;
      assert |"notify"| != |"erp"|;
    } else {
      SplitHead("erp", kind, ".", 0);
      assert SubjectFor(kind) == "erp" + "." + kind;
    }
  }

  // ---- the in-process bus ----

  datatype Subscription = Subscription(durable: string, subjects: seq<string>)

  /// A queued event; attempts per subscription, -1 once it succeeded.
  datatype Item = Item(subject: string, eventId: string, attempts: map<string, int>)

  predicate Wants(sub: Subscription, item: Item) { exists p :: p in sub.subjects && Matches(p, item.subject) }

  function Tried(item: Item, sub: Subscription): int {
    if sub.durable in item.attempts then item.attempts[sub.durable] else 0
  }

  /// The subscription still has to get the event and may be tried again.
  predicate Live(item: Item, sub: Subscription, max: nat) {
    Wants(sub, item) && Tried(item, sub) != -1 && Tried(item, sub) < max
  }

  /// What one try changes for one subscription.
  function TriedAfter(item: Item, sub: Subscription, max: nat, fails: bool): int {
    if !Live(item, sub, max) then Tried(item, sub) else if fails then Tried(item, sub) + 1 else -1
  }

  ghost predicate DurablesDiffer(subs: seq<Subscription>) {
    forall i, k :: 0 <= i < k < |subs| ==> subs[i].durable != subs[k].durable
  }

  /// Of the subscriptions that have not succeeded, earlier ones were tried at least as often.
  ghost predicate TriedInOrder(item: Item, subs: seq<Subscription>) {
    && (forall i :: 0 <= i < |subs| ==> Tried(item, subs[i]) >= -1)
    && forall i, k :: 0 <= i < k < |subs| && Waiting(item, subs[i]) && Waiting(item, subs[k]) ==>
         Tried(item, subs[i]) >= Tried(item, subs[k])
  }

  predicate Waiting(item: Item, sub: Subscription) { Wants(sub, item) && Tried(item, sub) != -1 }

  /// Attempts are counted for known subscriptions only.
  ghost predicate Counted(item: Item, subs: seq<Subscription>) {
    forall d :: d in item.attempts ==> exists i :: 0 <= i < |subs| && subs[i].durable == d
  }

  ghost predicate ItemFits(item: Item, subs: seq<Subscription>) { TriedInOrder(item, subs) && Counted(item, subs) }

  /// `after` is `before` after one pass.
  ghost predicate Passed(before: Item, after: Item, subs: seq<Subscription>, max: nat, fails: seq<bool>) {
    && after.subject == before.subject && after.eventId == before.eventId && |fails| == |subs|
    && forall k :: 0 <= k < |subs| ==> Tried(after, subs[k]) == TriedAfter(before, subs[k], max, fails[k])
  }

  ghost predicate SomeLive(item: Item, subs: seq<Subscription>, n: nat, max: nat)
    requires n <= |subs|
  {
    exists i :: 0 <= i < n && Live(item, subs[i], max)
  }

  /// One pass over the subscriptions; `fails[k]` says whether handler `k` throws.
  method Deliver(item: Item, subs: seq<Subscription>, max: nat, fails: seq<bool>) returns (r: Item, failed: bool)
    requires DurablesDiffer(subs) && ItemFits(item, subs) && |fails| == |subs|
    ensures Passed(item, r, subs, max, fails) && ItemFits(r, subs)
    ensures failed <==> SomeLive(r, subs, |subs|, max)
  {
    r := item;
    failed := false;
    var n := 0;
    while n < |subs|
      invariant n <= |subs| && r.subject == item.subject && r.eventId == item.eventId
      invariant forall k :: 0 <= k < n ==> Tried(r, subs[k]) == TriedAfter(item, subs[k], max, fails[k])
      invariant forall k :: n <= k < |subs| ==> Tried(r, subs[k]) == Tried(item, subs[k])
      invariant failed <==> SomeLive(r, subs, n, max)
      invariant Counted(r, subs)
    {
      var sub := subs[n];
      ghost var before := r;
      var wanted := Wanted(sub, item);
      if wanted {
        var attempts := Tried(r, sub);
        if attempts != -1 && attempts < max {
          if !fails[n] {
            r := r.(attempts := r.attempts[sub.durable := -1]);
          } else {
            r := r.(attempts := r.attempts[sub.durable := attempts + 1]);
            failed := attempts + 1 < max;
          }
        }
      }
      OthersSame(before, r, subs, n);
      LiveStep(item, before, r, subs, max, fails, n);
      n := n + 1;
    }
    OrderKept(item, r, subs, max, fails);
  }

  method Wanted(sub: Subscription, item: Item) returns (r: bool)
    ensures r <==> Wants(sub, item)
  {
    var i := 0;
    while i < |sub.subjects|
      invariant i <= |sub.subjects|
      invariant forall k :: 0 <= k < i ==> !Matches(sub.subjects[k], item.subject)
    {
      var m := SubjectMatches(sub.subjects[i], item.subject);
      if m { return true; }
      i := i + 1;
    }
    r := false;
  }

  lemma OthersSame(before: Item, after: Item, subs: seq<Subscription>, n: nat)
    requires n < |subs| && DurablesDiffer(subs)
    requires forall d :: d != subs[n].durable ==>
               && (d in after.attempts <==> d in before.attempts)
               && (d in before.attempts ==> after.attempts[d] == before.attempts[d])
    ensures forall k :: 0 <= k < |subs| && k != n ==> Tried(after, subs[k]) == Tried(before, subs[k])
  {
  }

  /// A later subscription that runs out of tries means that all earlier ones have.
  lemma LiveStep(item: Item, before: Item, after: Item, subs: seq<Subscription>, max: nat, fails: seq<bool>, n: nat)
    requires n < |subs| == |fails| && TriedInOrder(item, subs)
    requires before.subject == after.subject == item.subject
    requires forall k :: 0 <= k < n ==> Tried(before, subs[k]) == TriedAfter(item, subs[k], max, fails[k])
    requires forall k :: 0 <= k < |subs| && k != n ==> Tried(after, subs[k]) == Tried(before, subs[k])
    requires Tried(after, subs[n]) == TriedAfter(item, subs[n], max, fails[n])
    ensures SomeLive(after, subs, n + 1, max) <==>
              if Live(item, subs[n], max) && fails[n] then Tried(item, subs[n]) + 1 < max else SomeLive(before, subs, n, max)
  {
    SameWants(item, before, after, subs);
    if Live(item, subs[n], max) && fails[n] {
      if Tried(item, subs[n]) + 1 < max {
        assert Live(after, subs[n], max);
      } else {
        forall i | 0 <= i < n + 1 ensures !Live(after, subs[i], max) {
        }
      }
    } else {
      assert !Live(after, subs[n], max);
      if SomeLive(before, subs, n, max) {
        var i :| 0 <= i < n && Live(before, subs[i], max);
        assert Live(after, subs[i], max);
      }
    }
  }

  lemma SameWants(item: Item, before: Item, after: Item, subs: seq<Subscription>)
    requires before.subject == after.subject == item.subject
    ensures forall i :: 0 <= i < |subs| ==>
              (Wants(subs[i], before) <==> Wants(subs[i], item)) && (Wants(subs[i], after) <==> Wants(subs[i], item))
  {
  }

  lemma OrderKept(item: Item, r: Item, subs: seq<Subscription>, max: nat, fails: seq<bool>)
    requires |fails| == |subs| && TriedInOrder(item, subs) && r.subject == item.subject
    requires forall k :: 0 <= k < |subs| ==> Tried(r, subs[k]) == TriedAfter(item, subs[k], max, fails[k])
    ensures TriedInOrder(r, subs)
  {
    SameWants(item, item, r, subs);
  }

  lemma NewSubscription(item: Item, subs: seq<Subscription>, sub: Subscription)
    requires ItemFits(item, subs) && forall s :: s in subs ==> s.durable != sub.durable
    ensures ItemFits(item, subs + [sub]) && Tried(item, sub) == 0
  {
    var all := subs + [sub];
    forall d | d in item.attempts ensures exists i :: 0 <= i < |all| && all[i].durable == d {
      var i :| 0 <= i < |subs| && subs[i].durable == d;
      assert all[i].durable == d;
    }
    assert sub.durable !in item.attempts;
  }

  const NO_ATTEMPTS: map<string, int> := map[]

  class InMemoryBus {
    const max: nat
    var subs: seq<Subscription>
    var seen: set<string>
    var queue: seq<Item>
    /// The message ids published, in order.
    var published: seq<string>

    ghost predicate Valid()
      reads this
    {
      && DurablesDiffer(subs)
      && (forall i :: 0 <= i < |queue| ==> ItemFits(queue[i], subs))
      && (forall id :: id in seen <==> id in published)
      && forall i, k :: 0 <= i < k < |published| ==> published[i] != published[k]
    }

    constructor (maxAttempts: nat)
      ensures Valid() && max == maxAttempts && subs == [] && queue == [] && published == []
    {
      max := maxAttempts;
      subs, seen, queue, published := [], {}, [], [];
    }

    /// The same message id is published once.
    method Publish(subject: string, eventId: string, msgId: string)
      requires Valid()
      modifies this
      ensures Valid() && subs == old(subs)
      ensures published == if msgId in old(published) then old(published) else old(published) + [msgId]
      ensures queue == if msgId in old(published) then old(queue)
                       else old(queue) + [Item(subject, eventId, NO_ATTEMPTS)]
    {
      if msgId in seen { return; }
      seen := seen + {msgId};
      published := published + [msgId];
      queue := queue + [Item(subject, eventId, NO_ATTEMPTS)];
    }

    /// Everything still queued that the subscription wants is yet to be delivered to it, with
    /// all its tries.
    method Subscribe(sub: Subscription)
      requires Valid() && forall s :: s in subs ==> s.durable != sub.durable
      modifies this
      ensures Valid() && subs == old(subs) + [sub] && queue == old(queue) && published == old(published)
      ensures forall i :: 0 <= i < |queue| ==>
                Tried(queue[i], sub) == 0 && (Live(queue[i], sub, max) <==> Wants(sub, queue[i]) && max > 0)
    {
      forall i | 0 <= i < |queue| ensures ItemFits(queue[i], subs + [sub]) && Tried(queue[i], sub) == 0 {
        NewSubscription(queue[i], subs, sub);
      }
      subs := subs + [sub];
    }

    /// Delivers everything queued once; `fails[i][k]` says whether handler `k` throws for
    /// item `i`. What is left queued is exactly what some subscription still has to get.
    method DrainOnce(fails: seq<seq<bool>>)
      requires Valid() && |fails| == |queue| && forall i :: 0 <= i < |fails| ==> |fails[i]| == |subs|
      modifies this`queue
      ensures Valid()
      ensures exists passed ::
                AllPassed(old(queue), passed, subs, max, fails) && queue == StillLive(passed, subs, max)
    {
      var pending := queue;
      queue := [];
      ghost var passed: seq<Item> := [];
      var i := 0;
      while i < |pending|
        invariant i <= |pending|
        invariant AllPassed(pending[..i], passed, subs, max, fails)
        invariant queue == StillLive(passed, subs, max)
        invariant forall j :: 0 <= j < |queue| ==> ItemFits(queue[j], subs)
      {
        var item, failed := Deliver(pending[i], subs, max, fails[i]);
        if failed { queue := queue + [item]; }
        assert (passed + [item])[..i] == passed;
        OneMore(pending, passed, item, subs, max, fails, i);
        passed := passed + [item];
        i := i + 1;
      }
      assert pending[..i] == pending;
    }
  }

  ghost predicate AllPassed(before: seq<Item>, after: seq<Item>, subs: seq<Subscription>, max: nat, fails: seq<seq<bool>>) {
    |before| == |after| <= |fails| && forall i :: 0 <= i < |before| ==> Passed(before[i], after[i], subs, max, fails[i])
  }

  lemma OneMore(pending: seq<Item>, passed: seq<Item>, item: Item, subs: seq<Subscription>, max: nat,
                fails: seq<seq<bool>>, i: nat)
    requires i < |pending| <= |fails| && AllPassed(pending[..i], passed, subs, max, fails)
    requires Passed(pending[i], item, subs, max, fails[i])
    ensures AllPassed(pending[..i + 1], passed + [item], subs, max, fails)
  {
  }

  /// The items some subscription still has to get.
  ghost function StillLive(items: seq<Item>, subs: seq<Subscription>, max: nat): seq<Item> {
    if items == [] then []
    else
      var rest, last := StillLive(items[..|items| - 1], subs, max), items[|items| - 1];
      if SomeLive(last, subs, |subs|, max) then rest + [last] else rest
  }
}
