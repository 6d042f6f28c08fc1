/// Which part of a formula gives its value: the connectives, the lazy functions and names.

module FormulaChoices {
  import opened Basics
  import opened FormulaSyntax
  import opened FormulaEval
  import opened FormulaLaws

  /// Null, false, zero and the empty text count as false, everything else as true.
  predicate CountsAsFalse(v: Val) { v in {VNull, VBool(false), VNum(0.0), VStr("")} }

  function Not(n: Node): Node { Unary(Bang, n) }

  function Literal(b: bool): Node { Const(if b then TrueWord else FalseWord) }

  // ---- connectives ----

  lemma {:induction false} NotOf(a: Node, v: Val, ctx: Context, lib: Library)
    requires Is(a, v, ctx, lib)
    ensures Is(Not(a), VBool(CountsAsFalse(v)), ctx, lib)
  {
  }

  /// An error on the left is the error of the whole; a left side that decides hides the right one.
  lemma {:induction false} LeftDecides(a: Node, b: Node, ctx: Context, lib: Library)
    ensures Eval(a, ctx, lib).Error? ==>
              SameValue(Binary(And, a, b), a, ctx, lib) && SameValue(Binary(Or, a, b), a, ctx, lib)
    ensures Eval(a, ctx, lib).Value? && CountsAsFalse(Eval(a, ctx, lib).value) ==>
              Is(Binary(And, a, b), VBool(false), ctx, lib) && SameValue(Binary(Or, a, b), Not(Not(b)), ctx, lib)
    ensures Eval(a, ctx, lib).Value? && !CountsAsFalse(Eval(a, ctx, lib).value) ==>
              Is(Binary(Or, a, b), VBool(true), ctx, lib) && SameValue(Binary(And, a, b), Not(Not(b)), ctx, lib)
  {
  }

  /// De Morgan's laws, errors included.
  lemma {:induction false} DeMorgan(a: Node, b: Node, ctx: Context, lib: Library)
    ensures SameValue(Not(Binary(And, a, b)), Binary(Or, Not(a), Not(b)), ctx, lib)
    ensures SameValue(Not(Binary(Or, a, b)), Binary(And, Not(a), Not(b)), ctx, lib)
  {
    LeftDecides(a, b, ctx, lib);
    LeftDecides(Not(a), Not(b), ctx, lib);
  }

  // ---- lazy functions ----

  lemma {:induction false} Arguments(a: Node, rest: seq<Node>, ctx: Context, lib: Library)
    ensures EvalArgs([a] + rest, ctx, lib) == [Eval(a, ctx, lib)] + EvalArgs(rest, ctx, lib)
  {
    assert ([a] + rest)[1..] == rest;
  }

  lemma {:induction false} CallOf(fn: Fn, args: seq<Node>, ctx: Context, lib: Library)
    requires fn != CHANGED && !IsAggregate(fn)
    ensures Eval(Call(fn, args), ctx, lib) == EvalCall(fn, EvalArgs(args, ctx, lib), ctx, lib)
  {
  }

  lemma {:induction false} AllGivesBool(rs: seq<Outcome<Val>>)
    ensures EvalAll(rs).Error? || EvalAll(rs).value.VBool?
    ensures EvalAny(rs).Error? || EvalAny(rs).value.VBool?
  {
    if rs != [] { AllGivesBool(rs[1..]); }
  }

  lemma {:induction false} BoolTwice(n: Node, ctx: Context, lib: Library)
    requires Eval(n, ctx, lib).Error? || Eval(n, ctx, lib).value.VBool?
    ensures SameValue(Not(Not(n)), n, ctx, lib)
  {
  }

  /// `AND` of several arguments is `&&` of the first and the rest.
  lemma {:induction false} AndIsConjunction(a: Node, rest: seq<Node>, ctx: Context, lib: Library)
    ensures SameValue(Call(AND, [a] + rest),
                      if rest == [] then Not(Not(a)) else Binary(And, a, Call(AND, rest)), ctx, lib)
  {
    Arguments(a, rest, ctx, lib);
    CallOf(AND, [a] + rest, ctx, lib);
    CallOf(AND, rest, ctx, lib);
    AllGivesBool(EvalArgs(rest, ctx, lib));
    BoolTwice(Call(AND, rest), ctx, lib);
    LeftDecides(a, Call(AND, rest), ctx, lib);
    AllOf(Eval(a, ctx, lib), EvalArgs(rest, ctx, lib));
  }

  lemma {:induction false} AllOf(first: Outcome<Val>, rest: seq<Outcome<Val>>)
    ensures EvalAll([first] + rest) ==
            if first.Error? then first
            else if CountsAsFalse(first.value) then Value(VBool(false)) else EvalAll(rest)
    ensures EvalAny([first] + rest) ==
            if first.Error? then first
            else if CountsAsFalse(first.value) then EvalAny(rest) else Value(VBool(true))
  {
    assert ([first] + rest)[1..] == rest;
  }

  /// `OR` of several arguments is `||` of the first and the rest.
  lemma {:induction false} OrIsDisjunction(a: Node, rest: seq<Node>, ctx: Context, lib: Library)
    ensures SameValue(Call(OR, [a] + rest),
                      if rest == [] then Not(Not(a)) else Binary(Or, a, Call(OR, rest)), ctx, lib)
  {
    Arguments(a, rest, ctx, lib);
    CallOf(OR, [a] + rest, ctx, lib);
    CallOf(OR, rest, ctx, lib);
    AllGivesBool(EvalArgs(rest, ctx, lib));
    BoolTwice(Call(OR, rest), ctx, lib);
    LeftDecides(a, Call(OR, rest), ctx, lib);
    AllOf(Eval(a, ctx, lib), EvalArgs(rest, ctx, lib));
  }

  /// `IF` gives the argument its condition asks for, and null when there is none.
  lemma {:induction false} IfChooses(c: Node, a: Node, b: Node, v: Val, ctx: Context, lib: Library)
    requires Is(c, v, ctx, lib)
    ensures SameValue(Call(IF, [c, a, b]), if CountsAsFalse(v) then b else a, ctx, lib)
    ensures SameValue(Call(IF, [c, a]), if CountsAsFalse(v) then Const(NullWord) else a, ctx, lib)
  {
    CallOf(IF, [c, a, b], ctx, lib);
    CallOf(IF, [c, a], ctx, lib);
    TwoArguments(c, a, ctx, lib);
    ThreeArguments(c, a, b, ctx, lib);
  }

  lemma {:induction false} TwoArguments(a: Node, b: Node, ctx: Context, lib: Library)
    ensures EvalArgs([a, b], ctx, lib) == [Eval(a, ctx, lib), Eval(b, ctx, lib)]
  {
    Arguments(a, [b], ctx, lib);
    OneArgument(b, ctx, lib);
    assert [a] + [b] == [a, b];
  }

  lemma {:induction false} ThreeArguments(a: Node, b: Node, c: Node, ctx: Context, lib: Library)
    ensures EvalArgs([a, b, c], ctx, lib) == [Eval(a, ctx, lib), Eval(b, ctx, lib), Eval(c, ctx, lib)]
  {
    Arguments(a, [b, c], ctx, lib);
    TwoArguments(b, c, ctx, lib);
    assert [a] + [b, c] == [a, b, c];
  }

  /// An error in the condition is the error of the whole.
  lemma {:induction false} IfFails(c: Node, a: Node, b: Node, ctx: Context, lib: Library)
    requires Eval(c, ctx, lib).Error?
    ensures SameValue(Call(IF, [c, a, b]), c, ctx, lib) && SameValue(Call(IF, [c, a]), c, ctx, lib)
  {
    CallOf(IF, [c, a, b], ctx, lib);
    CallOf(IF, [c, a], ctx, lib);
    TwoArguments(c, a, ctx, lib);
    ThreeArguments(c, a, b, ctx, lib);
  }

  /// A condition turned round chooses the other branch.
  lemma {:induction false} IfNot(c: Node, a: Node, b: Node, ctx: Context, lib: Library)
    ensures SameValue(Call(IF, [Not(c), a, b]), Call(IF, [c, b, a]), ctx, lib)
  {
    var v := Eval(c, ctx, lib);
    if v.Error? {
      IfFails(c, b, a, ctx, lib);
      IfFails(Not(c), a, b, ctx, lib);
    } else {
      NotOf(c, v.value, ctx, lib);
      IfChooses(c, b, a, v.value, ctx, lib);
      IfChooses(Not(c), a, b, VBool(CountsAsFalse(v.value)), ctx, lib);
    }
  }

  /// `COALESCE` gives its first argument unless that is null or the empty text, then what the
  /// others give; an error stops the search.
  lemma {:induction false} CoalesceChooses(a: Node, rest: seq<Node>, ctx: Context, lib: Library)
    ensures var v := Eval(a, ctx, lib);
            SameValue(Call(COALESCE, [a] + rest),
                      if v.Error? || v.value !in {VNull, VStr("")} then a
                      else if rest == [] then Const(NullWord) else Call(COALESCE, rest), ctx, lib)
  {
    Arguments(a, rest, ctx, lib);
    CallOf(COALESCE, [a] + rest, ctx, lib);
    CallOf(COALESCE, rest, ctx, lib);
    FilledOf(Eval(a, ctx, lib), EvalArgs(rest, ctx, lib));
  }

  lemma {:induction false} FilledOf(first: Outcome<Val>, rest: seq<Outcome<Val>>)
    ensures FirstFilled([first] + rest) ==
            if first.Error? || first.value !in {VNull, VStr("")} then first else FirstFilled(rest)
  {
    assert ([first] + rest)[1..] == rest;
  }

  // ---- names ----

  /// What a stored number, text or truth value reads as.
  predicate StoredAs(raw: Raw, v: Val) {
    match v
    case VNull => raw == RNull
    case VNum(r) => raw == RNum(r) || raw == RMoney(v)
    case VStr(s) => raw == RStr(s)
    case VBool(b) => raw == RBool(b)
  }

  /// A plain name reads its own stored value, `old.` before it the value before the save; a
  /// key that is not stored reads as null.
  lemma {:induction false} NameReadsItself(name: string, v: Val, ctx: Context, lib: Library)
    requires '.' !in name
    requires if name in ctx.fields then StoredAs(ctx.fields[name], v) else v == VNull
    ensures Is(Field(name), v, ctx, lib)
  {
    ContextNamesDotted(name);
  }

  lemma {:induction false} OldNameReadsBefore(name: string, v: Val, ctx: Context, lib: Library)
    requires if ctx.before.Some? && name in ctx.before.value then StoredAs(ctx.before.value[name], v) else v == VNull
    ensures Is(Field("old." + name), v, ctx, lib)
  {
    var full := "old." + name;
    assert full[..4] == "old." && full[4..] == name;
  }

  /// Of the user a formula reads the id only.
  lemma {:induction false} UserNames(name: string, ctx: Context, lib: Library)
    ensures Is(Field("user." + name),
               if name == "id" && ctx.user.Some? then VStr(ctx.user.value.id) else VNull, ctx, lib)
  {
    var full := "user." + name;
    assert full[0] == 'u' && full[..5] == "user." && full[5..] == name;
    assert "user.id"[5..] == "id";
  }

  /// A column has no value of its own; an aggregate is given one argument for each row, in
  /// the order of the rows.
  lemma {:induction false} ColumnIsRows(fn: Fn, table: string, column: string, rows: seq<map<string, Raw>>, vs: seq<Val>,
                     ctx: Context, lib: Library)
    requires IsAggregate(fn) && '.' !in table && '.' !in column && table != "old" && table != "user"
    requires table in ctx.fields && ctx.fields[table] == RRows(rows) && |vs| == |rows|
    requires forall i :: 0 <= i < |rows| ==>
               if column in rows[i] then StoredAs(rows[i][column], vs[i]) else vs[i] == VNull
    ensures Is(Field(table + "." + column), VNull, ctx, lib)
    ensures Eval(Call(fn, [Field(table + "." + column)]), ctx, lib)
         == lib.builtin(fn, seq(|vs|, i requires 0 <= i < |vs| => Value(vs[i])), ctx.now)
  {
    var name := table + "." + column;
    Splits(table, column);
    NoContextName(table, column);
    assert EvalColumns([Field(name)], ctx, lib) == ColumnValues(ctx.fields, name, lib) + EvalColumns([], ctx, lib);
    var rs := seq(|vs|, i requires 0 <= i < |vs| => Value(vs[i]));
    assert ColumnValues(ctx.fields, name, lib) == rs;
    assert rs + [] == rs;
  }

  lemma {:induction false} Splits(table: string, column: string)
    requires '.' !in table && '.' !in column
    ensures TableOf(table + "." + column) == table && ColumnOf(table + "." + column) == column
    ensures '.' in table + "." + column
  {
    var name := table + "." + column;
    if table == "" {
      assert name[1..] == column;
      PlainTable(column);
    } else {
      assert name[0] == table[0] && name[1..] == table[1..] + "." + column;
      Splits(table[1..], column);
    }
  }

  lemma {:induction false} NoContextName(table: string, column: string)
    requires '.' !in table && '.' !in column
    ensures IsOld(table + "." + column) ==> table == "old"
    ensures IsUser(table + "." + column) ==> table == "user"
  {
    var name := table + "." + column;
    assert name[|table|] == '.' && name[..|table|] == table;
    assert forall k :: 0 <= k < |name| && name[k] == '.' ==> k == |table|;
    if IsOld(name) { assert name[3] == '.' && name[..3] == "old"; }
    if IsUser(name) { assert name[4] == '.' && name[..4] == "user"; }
  }

  // ---- the context ----

  /// A field that has not changed reads as it did before the save.
  lemma {:induction false} UnchangedReadsAlike(name: string, ctx: Context, lib: Library)
    requires '.' !in name && ctx.before.Some?
    ensures Is(ChangedCall(name), VBool(true), ctx, lib) || Is(ChangedCall(name), VBool(false), ctx, lib)
    ensures Is(ChangedCall(name), VBool(false), ctx, lib) ==>
              SameValue(Field(name), Field("old." + name), ctx, lib)
  {
    ContextNamesDotted(name);
    assert ("old." + name)[..4] == "old." && ("old." + name)[4..] == name;
  }

  /// A stored number, text or truth value has changed exactly when it was stored differently.
  lemma {:induction false} ChangedMeans(name: string, now: Raw, was: Raw, ctx: Context, lib: Library)
    requires now == if name in ctx.fields then ctx.fields[name] else RNull
    requires ctx.before.Some? && was == if name in ctx.before.value then ctx.before.value[name] else RNull
    ensures Is(ChangedCall(name), VBool(now != was), ctx, lib)
  {
  }

  /// On create a field has changed exactly when it is filled.
  lemma {:induction false} ChangedOnCreate(name: string, ctx: Context, lib: Library)
    requires ctx.before.None?
    ensures Is(ChangedCall(name),
               VBool(name in ctx.fields && ctx.fields[name] !in {RNull, RStr("")}), ctx, lib)
  {
  }

  /// `HAS_ROLE` asks for a role of the user, `IN_UNIT` for the code of a unit, both without
  /// regard to case.
  lemma {:induction false} RoleAsked(a: Node, v: Val, ctx: Context, lib: Library)
    requires Is(a, v, ctx, lib)
    ensures Is(Call(HAS_ROLE, [a]),
               VBool(ctx.user.Some? && Named(lib.fold(AsText(v, lib)), ctx.user.value.roles, lib)), ctx, lib)
  {
    CallOf(HAS_ROLE, [a], ctx, lib);
    OneArgument(a, ctx, lib);
    AmongIsNamed(v, Roles(ctx), lib);
  }

  lemma {:induction false} UnitAsked(a: Node, v: Val, ctx: Context, lib: Library)
    requires Is(a, v, ctx, lib)
    ensures Is(Call(IN_UNIT, [a]), VBool(Named(lib.fold(AsText(v, lib)), ctx.unitCodes, lib)), ctx, lib)
  {
    CallOf(IN_UNIT, [a], ctx, lib);
    OneArgument(a, ctx, lib);
    AmongIsNamed(v, ctx.unitCodes, lib);
  }

  lemma {:induction false} StateAsked(ctx: Context, lib: Library)
    ensures Is(Call(STATUS, []), if ctx.status.Some? then VStr(ctx.status.value) else VNull, ctx, lib)
  {
    CallOf(STATUS, [], ctx, lib);
  }

  predicate Named(want: string, names: seq<string>, lib: Library) {
    exists name <- names :: lib.lower(name) == want
  }

  lemma {:induction false} AmongIsNamed(v: Val, names: seq<string>, lib: Library)
    ensures Among([Value(v)], names, lib) == Value(VBool(Named(lib.fold(AsText(v, lib)), names, lib)))
  {
    if name :| name in names && lib.lower(name) == lib.fold(AsText(v, lib)) {
      var k :| 0 <= k < |names| && names[k] == name;
    }
  }

  lemma {:induction false} OneArgument(a: Node, ctx: Context, lib: Library)
    ensures EvalArgs([a], ctx, lib) == [Eval(a, ctx, lib)]
  {
    Arguments(a, [], ctx, lib);
    assert [a] + [] == [a];
  }
}
