/// What a record's hash covers, and which keys hold secrets.

module AuditContent {
  import opened Basics
  import opened Text
  import opened CanonicalJson
  import opened CanonicalText
  import opened AuditChain

  // ---- the hashed text ----

  /// An object with exactly the values of a record under their names, in any order.
  ghost predicate Lists(ms: seq<Member>, f: Fields) {
    && Member("tenantId", Str(f.tenantId)) in ms && Member("seq", Number(f.seqNo)) in ms
    && Member("eventId", Str(f.eventId)) in ms && Member("type", Str(f.kind)) in ms
    && Member("source", Str(f.source)) in ms
    && Member("actor", Obj([Member("type", Str(f.actorType)), Member("id", Str(f.actorId))])) in ms
    && Member("occurredAt", Str(f.occurredAt)) in ms && Member("recordedAt", Str(f.recordedAt)) in ms
    && Member("correlationId", if f.correlationId.Some? then Str(f.correlationId.value) else Undefined) in ms
    && Member("payload", f.payload) in ms
    && (forall m <- ms :: m.key in {"tenantId", "seq", "eventId", "type", "source", "actor", "occurredAt",
                                    "recordedAt", "correlationId", "payload"})
  }

  lemma {:induction false} SameMembersSameMeaning(xs: seq<Member>, ys: seq<Member>)
    requires WellFormed(Obj(xs)) && forall m :: m in xs <==> m in ys
    ensures SameMeaning(Obj(xs), Obj(ys))
  {
    forall i | 0 <= i < |xs| && !Dropped(xs[i]) ensures HasMatch(xs[i], ys) {
      assert xs[i] in ys;
      var k :| 0 <= k < |ys| && ys[k] == xs[i];
      SameNormalForm(xs[i].value, xs[i].value);
    }
    forall k | 0 <= k < |ys| && !Dropped(ys[k]) ensures KeepsKey(xs, ys[k].key) {
      assert ys[k] in xs;
    }
  }

  lemma {:induction false} KeyedTwice(ms: seq<Member>, a: Member, b: Member)
    requires WellFormed(Obj(ms)) && a in ms && b in ms && a.key == b.key
    ensures a == b
  {
  }

  lemma {:induction false} ListedIsMember(ms: seq<Member>, f: Fields, m: Member)
    requires Lists(ms, f) && WellFormed(Obj(ms))
    ensures m in ms <==> m in MembersOf(f)
  {
    if m in ms {
      var own := OfKey(f, m.key);
      KeyedTwice(ms, m, own);
    }
  }

  lemma {:induction false} OfKey(f: Fields, key: string) returns (m: Member)
    requires key in {"tenantId", "seq", "eventId", "type", "source", "actor", "occurredAt", "recordedAt",
                     "correlationId", "payload"}
    ensures m in MembersOf(f) && m.key == key
  {
    var own := MembersOf(f);
    m := if key == "tenantId" then own[0] else if key == "seq" then own[1] else if key == "eventId" then own[2]
      else if key == "type" then own[3] else if key == "source" then own[4] else if key == "actor" then own[5]
      else if key == "occurredAt" then own[6] else if key == "recordedAt" then own[7]
      else if key == "correlationId" then own[8] else own[9];
  }

  /// The hash of a record is that of the hash before it and the canonical text of such an object.
  lemma {:induction false} HashCovers(prev: Hash, f: Fields, ms: seq<Member>)
    requires Storable(f) && WellFormed(Obj(ms)) && Lists(ms, f)
    ensures ChainHash(prev, f) == Sha(prev, Canonical(Obj(ms)))
  {
    FieldsWellFormed(f);
    forall m ensures m in ms <==> m in MembersOf(f) { ListedIsMember(ms, f, m); }
    SameMembersSameMeaning(ms, MembersOf(f));
    SameCanonical(Obj(ms), Obj(MembersOf(f)));
  }

  // ---- secret keys ----

  /// A small letter, or the capital of one.
  predicate IsLetter(c: char, l: char) { c == l || ('a' <= l <= 'z' && c as int == l as int - 32) }

  /// The word stands at `i`, in whatever case.
  predicate StandsAt(s: string, i: nat, word: string) {
    i + |word| <= |s| && forall k :: 0 <= k < |word| ==> IsLetter(s[i + k], word[k])
  }

  predicate Mentions(s: string, word: string) { exists i: nat :: i <= |s| && StandsAt(s, i, word) }

  predicate IsSmall(word: string) { forall c <- word :: 'a' <= c <= 'z' }

  lemma {:induction false} StandsInLower(s: string, i: nat, word: string)
    requires IsSmall(word)
    ensures StandsAt(s, i, word) <==> SepAt(Lower(s), i, word)
  {
    if i + |word| <= |s| {
      forall k | 0 <= k < |word| ensures IsLetter(s[i + k], word[k]) <==> Lower(s)[i..i + |word|][k] == word[k] {
        assert word[k] in word && Lower(s)[i..i + |word|][k] == LowerChar(s[i + k]);
      }
    }
  }

  lemma {:induction false} MentionsIsContains(s: string, word: string)
    requires IsSmall(word)
    ensures Mentions(s, word) <==> Contains(Lower(s), word)
  {
    if i: nat :| i <= |s| && StandsAt(s, i, word) { StandsInLower(s, i, word); }
    if i: nat :| i <= |Lower(s)| && SepAt(Lower(s), i, word) { StandsInLower(s, i, word); }
  }

  lemma {:induction false} SpelledIsLower(s: string, word: string)
    requires IsSmall(word) && |s| == |word|
    ensures StandsAt(s, 0, word) <==> Lower(s) == word
  {
    StandsInLower(s, 0, word);
    assert Lower(s)[0..|word|] == Lower(s);
  }

  /// A key is secret when it mentions a password, a secret or a token, or is just "otp" or
  /// "code", in whatever case.
  lemma {:induction false} SecretKeys(key: string)
    ensures IsSecretKey(key) <==>
              || Mentions(key, "password") || Mentions(key, "secret") || Mentions(key, "token")
              || (|key| == 3 && StandsAt(key, 0, "otp")) || (|key| == 4 && StandsAt(key, 0, "code"))
  {
    MentionsIsContains(key, "password");
    MentionsIsContains(key, "secret");
    MentionsIsContains(key, "token");
    if |key| == 3 { SpelledIsLower(key, "otp"); }
    if |key| == 4 { SpelledIsLower(key, "code"); }
  }

  // ---- keys that sort as numbers ----

  lemma {:induction false} DecOfNum(s: string)
    requires s != "" && IsDigits(s) && (s[0] == '0' ==> |s| == 1)
    ensures Dec(Num(s)) == s && (|s| > 1 ==> Num(s) >= 10)
  {
    var n := |s| - 1;
    if n > 0 {
      DecOfNum(s[..n]);
      NotZero(s[..n]);
      DecStep(Num(s[..n]), DigitValue(s[n]));
      assert s == s[..n] + [s[n]];
    } else {
      assert s[..0] == "" && Num(s) == DigitValue(s[0]);
    }
  }

  lemma {:induction false} DecStep(m: nat, d: nat)
    requires m > 0 && d < 10
    ensures Dec(10 * m + d) == Dec(m) + [Digit(d)]
  {
  }

  lemma {:induction false} NotZero(s: string)
    requires s != "" && IsDigits(s) && s[0] != '0'
    ensures Num(s) > 0
  {
    var n := |s| - 1;
    if n > 0 { NotZero(s[..n]); } else { assert s[..0] == ""; }
  }

  lemma {:induction false} DecLeads(n: nat)
    ensures Dec(n)[0] == '0' ==> n == 0
  {
    if n >= 10 { DecLeads(n / 10); }
  }

  /// The keys an object lists first, in the order of their values: the decimal texts of the
  /// numbers up to 4294967294.
  lemma {:induction false} ArrayIndices(s: string)
    ensures IsArrayIndex(s) <==> exists n: nat :: n <= 4_294_967_294 && s == Dec(n)
  {
    if IsArrayIndex(s) { DecOfNum(s); }
    if n: nat :| n <= 4_294_967_294 && s == Dec(n) {
      NumDec(n);
      DecLeads(n);
    }
  }
}
