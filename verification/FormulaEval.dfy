/// Evaluation of formulas and the static collector of what a formula reads. The main
/// result: the collected dependencies are all a formula's value depends on.

module FormulaEval {
  import opened Basics
  import opened FormulaSyntax

  datatype Outcome<+T> = Value(value: T) | Error(message: string)

  datatype Val = VNull | VNum(r: real) | VStr(s: string) | VBool(b: bool)

  /// A stored field value. A key that is missing reads like `RNull`.
  datatype Raw =
    | RNull
    | RNum(r: real)
    | RStr(s: string)
    | RBool(b: bool)
    | RMoney(amount: Val)
    | RRows(rows: seq<map<string, Raw>>)
    | ROther(id: int)

  type Fields = map<string, Raw>

  datatype User = User(id: string, roles: seq<string>)

  datatype Context = Context(
    fields: Fields,
    now: int,
    before: Option<Fields>,
    user: Option<User>,
    unitCodes: seq<string>,
    status: Option<string>)

  /// The parts of JavaScript the evaluator calls on and this model leaves open. Everything
  /// below holds for any choice of them.
  datatype Library = Library(
    number: string -> Option<real>,            // Number(text); None for NaN
    text: real -> string,                      // String(number)
    otherText: Raw -> string,                  // lists, rows and other objects as text
    fold: string -> string,                    // trim and lower-case
    lower: string -> string,
    /// Built-in functions of their arguments' results and the time. An argument a function
    /// does not ask for may hold an error that does not matter.
    builtin: (Fn, seq<Outcome<Val>>, int) -> Outcome<Val>)

  // ---- values ----

  function Num_(v: Val, lib: Library): Outcome<real> {
    match v
    case VNull => Value(0.0)
    case VNum(r) => Value(r)
    case VBool(b) => Value(if b then 1.0 else 0.0)
    case VStr(s) =>
      if s == "" then Value(0.0)
      else
        match lib.number(s)
        case Some(r) => Value(r)
        case None => Error("not a number")
  }

  function AsText(v: Val, lib: Library): string {
    match v
    case VNull => ""
    case VNum(r) => lib.text(r)
    case VStr(s) => s
    case VBool(b) => if b then "true" else "false"
  }

  predicate Truthy(v: Val) {
    v != VNull && v != VBool(false) && v != VNum(0.0) && v != VStr("")
  }

  function ToVal(raw: Raw, lib: Library): Outcome<Val> {
    match raw
    case RNull => Value(VNull)
    case RNum(r) => Value(VNum(r))
    case RStr(s) => Value(VStr(s))
    case RBool(b) => Value(VBool(b))
    case RMoney(amount) =>
      (match Num_(amount, lib)
       case Value(r) => Value(VNum(r))
       case Error(m) => Error(m))
    case RRows(_) => Value(VStr(lib.otherText(raw)))
    case ROther(_) => Value(VStr(lib.otherText(raw)))
  }

  function Get(m: Fields, key: string): Raw {
    if key in m then m[key] else RNull
  }

  function GetOld(ctx: Context, key: string): Raw {
    if ctx.before.Some? then Get(ctx.before.value, key) else RNull
  }

  function Roles(ctx: Context): seq<string> {
    if ctx.user.Some? then ctx.user.value.roles else []
  }

  // ---- names ----

  predicate IsOld(name: string) { StartsWith(name, "old.") }
  predicate IsUser(name: string) { StartsWith(name, "user.") }
  predicate IsColumnRef(name: string) { '.' in name && !IsOld(name) && !IsUser(name) }

  /// `table` and `column` of `table.column`; tokens have at most one point.
  function TableOf(name: string): string {
    if name == "" || name[0] == '.' then "" else [name[0]] + TableOf(name[1..])
  }

  function ColumnOf(name: string): string {
    if name == "" then "" else if name[0] == '.' then TableOf(name[1..]) else ColumnOf(name[1..])
  }

  predicate IsAggregate(fn: Fn) {
    fn == SUM || fn == MIN || fn == MAX || fn == AVG || fn == COUNT
  }

  predicate ReadsContext(fn: Fn) {
    fn == CHANGED || fn == HAS_ROLE || fn == IN_UNIT || fn == STATUS
  }

  // ---- evaluation ----

  function Eval(n: Node, ctx: Context, lib: Library): Outcome<Val>
    decreases n, 1
  {
    match n
    case Num(v) => (match lib.number(v) case Some(r) => Value(VNum(r)) case None => Value(VNull))
    case Str(v) => Value(VStr(v))
    case Const(w) => Value(if w.TrueWord? || w.FalseWord? then VBool(w.TrueWord?) else VNull)
    case Field(name) =>
      if IsOld(name) then ToVal(GetOld(ctx, name[4..]), lib)
      else if IsUser(name) then
        Value(if name == "user.id" && ctx.user.Some? then VStr(ctx.user.value.id) else VNull)
      else if IsColumnRef(name) then Value(VNull)
      else ToVal(Get(ctx.fields, name), lib)
    case Unary(op, arg) =>
      (match Eval(arg, ctx, lib)
       case Error(m) => Error(m)
       case Value(a) => EvalUnary(op, a, lib))
    case Binary(op, l, r) =>
      (match Eval(l, ctx, lib)
       case Error(m) => Error(m)
       case Value(a) =>
         if op == And && !Truthy(a) then Value(VBool(false))
         else if op == Or && Truthy(a) then Value(VBool(true))
         else
           match Eval(r, ctx, lib)
           case Error(m) => Error(m)
           case Value(b) => EvalBinary(op, a, b, lib))
    case Call(fn, args) =>
      if fn == CHANGED then
        if |args| == 1 && args[0].Field? then Value(VBool(HasChanged(args[0].name, ctx)))
        else Error("not well formed")
      else if IsAggregate(fn) then lib.builtin(fn, EvalColumns(args, ctx, lib), ctx.now)
      else EvalCall(fn, EvalArgs(args, ctx, lib), ctx, lib)
  }

  function EvalArgs(args: seq<Node>, ctx: Context, lib: Library): (rs: seq<Outcome<Val>>)
    ensures |rs| == |args|
    decreases args
  {
    if args == [] then [] else [Eval(args[0], ctx, lib)] + EvalArgs(args[1..], ctx, lib)
  }

  /// What an aggregate is given: the value of each row for a column, one value for anything else.
  function EvalColumns(args: seq<Node>, ctx: Context, lib: Library): seq<Outcome<Val>>
    decreases args
  {
    if args == [] then []
    else
      (if args[0].Field? && IsColumnRef(args[0].name) then ColumnValues(ctx.fields, args[0].name, lib)
       else [Eval(args[0], ctx, lib)])
      + EvalColumns(args[1..], ctx, lib)
  }

  function ColumnValues(fields: Fields, ref: string, lib: Library): seq<Outcome<Val>> {
    var t := Get(fields, TableOf(ref));
    if t.RRows? then seq(|t.rows|, i requires 0 <= i < |t.rows| => ToVal(Get(t.rows[i], ColumnOf(ref)), lib))
    else []
  }

  /// Values are compared as stored; on create only a filled value counts as a change.
  predicate HasChanged(name: string, ctx: Context) {
    var now := Get(ctx.fields, name);
    if ctx.before.None? then now != RNull && now != RStr("")
    else now != Get(ctx.before.value, name)
  }

  function EvalUnary(op: Op, a: Val, lib: Library): Outcome<Val> {
    if op == Minus then
      match Num_(a, lib)
      case Value(r) => Value(VNum(-r))
      case Error(m) => Error(m)
    else Value(VBool(!Truthy(a)))
  }

  function EvalBinary(op: Op, a: Val, b: Val, lib: Library): Outcome<Val> {
    match op
    case And | Or => Value(VBool(Truthy(b)))
    case Amp => Value(VStr(AsText(a, lib) + AsText(b, lib)))
    case Eq => Value(VBool(Same(a, b, lib)))
    case Ne => Value(VBool(!Same(a, b, lib)))
    case Slash | Percent =>
      (match Num_(b, lib)
       case Error(m) => Error(m)
       case Value(y) => if y == 0.0 then Value(VNull) else Arithmetic(op, a, b, lib))
    case Plus | Minus | Star => Arithmetic(op, a, b, lib)
    case Lt | Le | Gt | Ge =>
      if a.VStr? && b.VStr? then Value(VBool(Ordered(op, Before(a.s, b.s), a.s == b.s)))
      else
        (match Num_(a, lib)
         case Error(m) => Error(m)
         case Value(x) =>
           match Num_(b, lib)
           case Error(m) => Error(m)
           case Value(y) => Value(VBool(Ordered(op, x < y, x == y))))
    case _ => Error("unknown operator")
  }

  predicate Same(a: Val, b: Val, lib: Library) {
    a == b || (!SameType(a, b) && AsText(a, lib) == AsText(b, lib))
  }

  predicate SameType(a: Val, b: Val) {
    (a.VNull? && b.VNull?) || (a.VNum? && b.VNum?) || (a.VStr? && b.VStr?) || (a.VBool? && b.VBool?)
  }

  predicate Ordered(op: Op, less: bool, equal: bool) {
    match op
    case Lt => less
    case Le => less || equal
    case Gt => !less && !equal
    case _ => !less
  }

  predicate Before(a: string, b: string) {
    if a == "" then b != ""
    else if b == "" then false
    else if a[0] != b[0] then a[0] < b[0]
    else Before(a[1..], b[1..])
  }

  function Arithmetic(op: Op, a: Val, b: Val, lib: Library): Outcome<Val> {
    match Num_(a, lib)
    case Error(m) => Error(m)
    case Value(x) =>
      match Num_(b, lib)
      case Error(m) => Error(m)
      case Value(y) =>
        match op
        case Plus => Value(VNum(x + y))
        case Minus => Value(VNum(x - y))
        case Star => Value(VNum(Times(x, y)))
        case _ =>
          if y == 0.0 then Value(VNull)
          else if op == Slash then Value(VNum(Over(x, y)))
          else Value(VNum(Remainder(x, y)))
  }

  function Times(x: real, y: real): real { x * y }

  function Over(x: real, y: real): real
    requires y != 0.0
  {
    x / y
  }

  function Remainder(x: real, y: real): real
    requires y != 0.0
  {
    x - Times(Truncate(Over(x, y)), y)
  }

  function Truncate(r: real): real {
    if r < 0.0 then -((-r).Floor as real) else r.Floor as real
  }

  /// The lazy functions look at one argument at a time; the context functions look at the
  /// user, the units and the state; the rest are up to the library.
  function EvalCall(fn: Fn, rs: seq<Outcome<Val>>, ctx: Context, lib: Library): Outcome<Val> {
    match fn
    case IF =>
      if |rs| < 2 || rs[0].Error? then (if |rs| == 0 then Error("arity") else rs[0])
      else if Truthy(rs[0].value) then rs[1]
      else if |rs| > 2 then rs[2] else Value(VNull)
    case AND => EvalAll(rs)
    case OR => EvalAny(rs)
    case COALESCE => FirstFilled(rs)
    case HAS_ROLE => Among(rs, Roles(ctx), lib)
    case IN_UNIT => Among(rs, ctx.unitCodes, lib)
    case STATUS => Value(if ctx.status.Some? then VStr(ctx.status.value) else VNull)
    case _ => lib.builtin(fn, rs, ctx.now)
  }

  function EvalAll(rs: seq<Outcome<Val>>): Outcome<Val> {
    if rs == [] then Value(VBool(true))
    else if rs[0].Error? then rs[0]
    else if Truthy(rs[0].value) then EvalAll(rs[1..]) else Value(VBool(false))
  }

  function EvalAny(rs: seq<Outcome<Val>>): Outcome<Val> {
    if rs == [] then Value(VBool(false))
    else if rs[0].Error? then rs[0]
    else if Truthy(rs[0].value) then Value(VBool(true)) else EvalAny(rs[1..])
  }

  function FirstFilled(rs: seq<Outcome<Val>>): Outcome<Val> {
    if rs == [] then Value(VNull)
    else if rs[0].Error? then rs[0]
    else if rs[0].value != VNull && rs[0].value != VStr("") then rs[0]
    else FirstFilled(rs[1..])
  }

  function Among(rs: seq<Outcome<Val>>, names: seq<string>, lib: Library): Outcome<Val> {
    if rs == [] then Error("arity")
    else if rs[0].Error? then rs[0]
    else
      var want := lib.fold(AsText(rs[0].value, lib));
      Value(VBool(exists k :: 0 <= k < |names| && lib.lower(names[k]) == want))
  }

  // ---- what a formula reads ----

  /// A piece of context: a dotted name, or one of the context functions.
  datatype Part = NameRead(name: string) | FnRead(fn: Fn)

  datatype Deps = Deps(fields: set<string>, context: set<Part>) {
    function Plus(more: Deps): Deps {
      Deps(fields + more.fields, context + more.context)
    }
  }

  datatype Collected = Found(deps: Deps) | ColumnOutside(name: string)

  function Collect(n: Node, inAggregate: bool): Collected
    decreases n, 0
  {
    match n
    case Num(_) => Found(Deps({}, {}))
    case Str(_) => Found(Deps({}, {}))
    case Const(_) => Found(Deps({}, {}))
    case Field(name) =>
      if IsColumnRef(name) then
        if inAggregate then Found(Deps({name}, {})) else ColumnOutside(name)
      else if '.' in name then
        Found(Deps(if IsOld(name) then {name[4..]} else {}, {NameRead(name)}))
      else Found(Deps({name}, {}))
    case Unary(_, arg) => Collect(arg, false)
    case Binary(_, l, r) => Both(Collect(l, false), Collect(r, false))
    case Call(fn, args) =>
      Both(Found(Deps({}, if ReadsContext(fn) then {FnRead(fn)} else {})),
           CollectArgs(args, IsAggregate(fn)))
  }

  /// Only a bare column may stand for its rows.
  function CollectArgs(args: seq<Node>, aggregate: bool): Collected
    decreases args
  {
    if args == [] then Found(Deps({}, {}))
    else Both(Collect(args[0], aggregate && args[0].Field?), CollectArgs(args[1..], aggregate))
  }

  function Both(a: Collected, b: Collected): Collected {
    if a.ColumnOutside? then a
    else if b.ColumnOutside? then b
    else Found(a.deps.Plus(b.deps))
  }

  /// The collector as written: it adds to two sets while it walks the tree.
  class Collector {
    var out: set<string>
    var context: set<Part>

    constructor ()
      ensures out == {} && context == {}
    {
      out, context := {}, {};
    }

    method Walk(n: Node, inAggregate: bool) returns (refused: Option<string>)
      modifies this
      ensures Collect(n, inAggregate).ColumnOutside? ==>
                refused == Some(Collect(n, inAggregate).name)
      ensures Collect(n, inAggregate).Found? ==>
                && refused == None
                && out == old(out) + Collect(n, inAggregate).deps.fields
                && context == old(context) + Collect(n, inAggregate).deps.context
      decreases n, 0
    {
      refused := None;
      match n {
        case Field(name) =>
          if IsColumnRef(name) {
            if !inAggregate {
              return Some(name);
            }
            out := out + {name};
          } else if '.' in name {
            context := context + {NameRead(name)};
            if IsOld(name) {
              out := out + {name[4..]};
            }
          } else {
            out := out + {name};
          }
        case Unary(_, arg) => refused := Walk(arg, false);
        case Binary(_, l, r) =>
          refused := Walk(l, false);
          if refused == None {
            refused := Walk(r, false);
          }
        case Call(fn, args) =>
          if ReadsContext(fn) {
            context := context + {FnRead(fn)};
          }
          refused := WalkArgs(args, IsAggregate(fn));
        case _ =>
      }
    }

    method WalkArgs(args: seq<Node>, aggregate: bool) returns (refused: Option<string>)
      modifies this
      ensures CollectArgs(args, aggregate).ColumnOutside? ==>
                refused == Some(CollectArgs(args, aggregate).name)
      ensures CollectArgs(args, aggregate).Found? ==>
                && refused == None
                && out == old(out) + CollectArgs(args, aggregate).deps.fields
                && context == old(context) + CollectArgs(args, aggregate).deps.context
      decreases args
    {
      refused := None;
      if args != [] {
        refused := Walk(args[0], aggregate && args[0].Field?);
        if refused == None {
          refused := WalkArgs(args[1..], aggregate);
        }
      }
    }
  }

  // ---- dependency soundness ----

  /// The contexts agree on the time, on every listed field (columns through their table)
  /// and on every listed part of the context.
  ghost predicate Agree(d: Deps, a: Context, b: Context) {
    && a.now == b.now
    && (forall f <- d.fields :: SameTable(f, a, b))
    && (forall c <- d.context :: SamePart(c, d.fields, a, b))
  }

  ghost predicate SameTable(f: string, a: Context, b: Context) {
    Get(a.fields, TableOf(f)) == Get(b.fields, TableOf(f))
  }

  ghost predicate SamePart(c: Part, fields: set<string>, a: Context, b: Context) {
    match c
    case NameRead(name) =>
      && (IsOld(name) ==> GetOld(a, name[4..]) == GetOld(b, name[4..]))
      && (name == "user.id" ==> UserId(a) == UserId(b))
    case FnRead(fn) =>
      && (fn == CHANGED ==>
            a.before.Some? == b.before.Some? && forall f <- fields :: SameOld(f, a, b))
      && (fn == HAS_ROLE ==> Roles(a) == Roles(b))
      && (fn == IN_UNIT ==> a.unitCodes == b.unitCodes)
      && (fn == STATUS ==> a.status == b.status)
  }

  ghost predicate SameOld(f: string, a: Context, b: Context) {
    GetOld(a, f) == GetOld(b, f)
  }

  function UserId(ctx: Context): Option<string> {
    if ctx.user.Some? then Some(ctx.user.value.id) else None
  }

  /// Field keys never hold a point (they match `[a-z][a-z0-9_]*`).
  ghost predicate PlainKeys(ctx: Context) {
    && (forall k <- ctx.fields :: '.' !in k)
    && (ctx.before.Some? ==> forall k <- ctx.before.value :: '.' !in k)
  }

  /// `CHANGED` is asked only about undotted names.
  predicate PlainChanged(n: Node)
    decreases n
  {
    match n
    case Unary(_, arg) => PlainChanged(arg)
    case Binary(_, l, r) => PlainChanged(l) && PlainChanged(r)
    case Call(fn, args) =>
      && (fn == CHANGED && |args| == 1 && args[0].Field? ==> '.' !in args[0].name)
      && forall x <- args :: PlainChanged(x)
    case _ => true
  }

  /// Names in trees come from single tokens, which hold at most one point.
  predicate OneDot(n: Node)
    decreases n
  {
    match n
    case Field(name) => '.' !in name || '.' !in AfterDot(name)
    case Unary(_, arg) => OneDot(arg)
    case Binary(_, l, r) => OneDot(l) && OneDot(r)
    case Call(_, args) => forall x <- args :: OneDot(x)
    case _ => true
  }

  function AfterDot(name: string): string {
    if name == "" then "" else if name[0] == '.' then name[1..] else AfterDot(name[1..])
  }

  lemma {:induction false} PlainTable(f: string)
    requires '.' !in f
    ensures TableOf(f) == f
  {
    if f != "" {
      assert f == [f[0]] + f[1..];
      PlainTable(f[1..]);
    }
  }

  ghost predicate Covered(n: Node, a: Context, b: Context) {
    OneDot(n) && (PlainChanged(n) || (PlainKeys(a) && PlainKeys(b)))
  }

  lemma AgreeParts(d: Deps, e: Deps, a: Context, b: Context)
    requires Agree(d.Plus(e), a, b)
    ensures Agree(d, a, b) && Agree(e, a, b)
  {
    var all := d.Plus(e);
    forall f | f in d.fields || f in e.fields ensures SameTable(f, a, b) { assert f in all.fields; }
    forall c | c in d.context ensures SamePart(c, d.fields, a, b) { assert c in all.context; }
    forall c | c in e.context ensures SamePart(c, e.fields, a, b) { assert c in all.context; }
  }

  /// Two contexts that agree on what the collector lists give the same value, or the same
  /// error.
  lemma {:induction false} DependenciesSound(n: Node, a: Context, b: Context, lib: Library)
    requires WellFormed(n) && Covered(n, a, b)
    requires Collect(n, false).Found? && Agree(Collect(n, false).deps, a, b)
    ensures Eval(n, a, lib) == Eval(n, b, lib)
    decreases n, 1
  {
    match n
    case Field(name) => FieldSound(n, a, b, lib);
    case Unary(_, arg) =>
      DependenciesSound(arg, a, b, lib);
      SameOperands(n, a, b, lib);
    case Binary(_, l, r) =>
      AgreeParts(Collect(l, false).deps, Collect(r, false).deps, a, b);
      DependenciesSound(l, a, b, lib);
      DependenciesSound(r, a, b, lib);
      SameOperands(n, a, b, lib);
    case Call(_, _) => CallSound(n, a, b, lib);
    case _ =>
  }

  lemma SameOperands(n: Node, a: Context, b: Context, lib: Library)
    requires n.Unary? ==> Eval(n.arg, a, lib) == Eval(n.arg, b, lib)
    requires n.Binary? ==> Eval(n.left, a, lib) == Eval(n.left, b, lib)
    requires n.Binary? ==> Eval(n.right, a, lib) == Eval(n.right, b, lib)
    ensures n.Unary? || n.Binary? ==> Eval(n, a, lib) == Eval(n, b, lib)
  {
  }

  lemma {:induction false} CallSound(n: Node, a: Context, b: Context, lib: Library)
    requires WellFormed(n) && n.Call? && Covered(n, a, b)
    requires Collect(n, false).Found? && Agree(Collect(n, false).deps, a, b)
    ensures Eval(n, a, lib) == Eval(n, b, lib)
    decreases n, 0
  {
    CallDeps(n, a, b);
    if n.fn == CHANGED {
      ChangedSound(n, a, b);
    } else {
      if IsAggregate(n.fn) { ColumnsSound(n.args, a, b, lib); } else { ArgsSound(n.args, a, b, lib); }
      SameCall(n, Collect(n, false).deps.fields, a, b, lib);
    }
  }

  lemma CallDeps(n: Node, a: Context, b: Context)
    requires n.Call? && Collect(n, false).Found? && Agree(Collect(n, false).deps, a, b)
    ensures CollectArgs(n.args, IsAggregate(n.fn)).Found? && Agree(CollectArgs(n.args, IsAggregate(n.fn)).deps, a, b)
    ensures ReadsContext(n.fn) ==> SamePart(FnRead(n.fn), Collect(n, false).deps.fields, a, b)
  {
    var own := Deps({}, if ReadsContext(n.fn) then {FnRead(n.fn)} else {});
    AgreeParts(own, CollectArgs(n.args, IsAggregate(n.fn)).deps, a, b);
    if ReadsContext(n.fn) { assert FnRead(n.fn) in Collect(n, false).deps.context; }
  }

  lemma SameCall(n: Node, fields: set<string>, a: Context, b: Context, lib: Library)
    requires n.Call? && n.fn != CHANGED && a.now == b.now
    requires ReadsContext(n.fn) ==> SamePart(FnRead(n.fn), fields, a, b)
    requires if IsAggregate(n.fn) then EvalColumns(n.args, a, lib) == EvalColumns(n.args, b, lib)
             else EvalArgs(n.args, a, lib) == EvalArgs(n.args, b, lib)
    ensures Eval(n, a, lib) == Eval(n, b, lib)
  {
  }

  lemma ContextNamesDotted(name: string)
    ensures IsOld(name) || IsUser(name) ==> '.' in name
  {
    if IsOld(name) { assert name[3] == '.'; }
    if IsUser(name) { assert name[4] == '.'; }
  }

  lemma FieldSound(n: Node, a: Context, b: Context, lib: Library)
    requires n.Field? && OneDot(n)
    requires Collect(n, false).Found? && Agree(Collect(n, false).deps, a, b)
    ensures Eval(n, a, lib) == Eval(n, b, lib)
  {
    var d := Collect(n, false).deps;
    if '.' in n.name {
      assert NameRead(n.name) in d.context;
    } else {
      ContextNamesDotted(n.name);
      PlainTable(n.name);
      assert n.name in d.fields;
    }
  }

  lemma ChangedSound(n: Node, a: Context, b: Context)
    requires n.Call? && n.fn == CHANGED && GoodArgs(n.fn, n.args) && Covered(n, a, b)
    requires Collect(n, false).Found? && Agree(Collect(n, false).deps, a, b)
    ensures HasChanged(n.args[0].name, a) == HasChanged(n.args[0].name, b)
  {
    var d, name := Collect(n, false).deps, n.args[0].name;
    assert FnRead(CHANGED) in d.context;
    assert CollectArgs(n.args, false) == Both(Collect(n.args[0], false), CollectArgs(n.args[1..], false));
    assert n.args[1..] == [];
    if '.' in name {
      // No stored key can match, so both sides read nothing.
    } else {
      assert name in d.fields;
      PlainTable(name);
      assert SameTable(name, a, b) && SameOld(name, a, b);
    }
  }

  lemma {:induction false} ArgsSound(args: seq<Node>, a: Context, b: Context, lib: Library)
    requires forall x <- args :: WellFormed(x) && Covered(x, a, b)
    requires CollectArgs(args, false).Found? && Agree(CollectArgs(args, false).deps, a, b)
    ensures EvalArgs(args, a, lib) == EvalArgs(args, b, lib)
    decreases args
  {
    if args != [] {
      AgreeParts(Collect(args[0], false).deps, CollectArgs(args[1..], false).deps, a, b);
      DependenciesSound(args[0], a, b, lib);
      ArgsSound(args[1..], a, b, lib);
    }
  }

  lemma {:induction false} ColumnsSound(args: seq<Node>, a: Context, b: Context, lib: Library)
    requires forall x <- args :: WellFormed(x) && Covered(x, a, b)
    requires CollectArgs(args, true).Found? && Agree(CollectArgs(args, true).deps, a, b)
    ensures EvalColumns(args, a, lib) == EvalColumns(args, b, lib)
    decreases args
  {
    if args != [] {
      var x := args[0];
      AgreeParts(Collect(x, x.Field?).deps, CollectArgs(args[1..], true).deps, a, b);
      if x.Field? && IsColumnRef(x.name) {
        assert x.name in Collect(x, true).deps.fields;
        assert SameTable(x.name, a, b);
      } else {
        assert Collect(x, x.Field?) == Collect(x, false);
        DependenciesSound(x, a, b, lib);
      }
      ColumnsSound(args[1..], a, b, lib);
    }
  }

  /// A formula that lists no context cannot tell two saves apart by their old record, their
  /// user, their units or their state.
  lemma PlainFormulaIgnoresContext(n: Node, a: Context, b: Context, lib: Library)
    requires WellFormed(n) && Covered(n, a, b)
    requires Collect(n, false).Found? && Collect(n, false).deps.context == {}
    requires a.fields == b.fields && a.now == b.now
    ensures Eval(n, a, lib) == Eval(n, b, lib)
  {
    DependenciesSound(n, a, b, lib);
  }

  function ChangedCall(name: string): Node { Call(CHANGED, [Field(name)]) }

  ghost predicate Sound(n: Node, lib: Library)
    requires Collect(n, false).Found?
  {
    forall a, b :: Agree(Collect(n, false).deps, a, b) ==> Eval(n, a, lib) == Eval(n, b, lib)
  }

  /// `Covered` is needed: a call of `CHANGED` depends on no more than what is listed exactly
  /// when its name is plain. `CHANGED(old.x)` lists `x` and `old.x` but compares the keys
  /// spelled "old.x", so two contexts with such a key can agree and still differ.
  lemma ChangedSoundExactly(name: string, lib: Library)
    requires OneDot(Field(name)) && Collect(ChangedCall(name), false).Found?
    ensures Sound(ChangedCall(name), lib) <==> '.' !in name
  {
    if '.' in name {
      DottedChangedDiffers(name, lib);
    } else {
      forall a, b | Agree(Collect(ChangedCall(name), false).deps, a, b)
        ensures Eval(ChangedCall(name), a, lib) == Eval(ChangedCall(name), b, lib)
      {
        ChangedSound(ChangedCall(name), a, b);
      }
    }
  }

  function Filled(name: string): Context { Context(map[name := RBool(true)], 0, None, None, [], None) }

  const EMPTY := Context(map[], 0, None, None, [], None)

  lemma DottedChangedDiffers(name: string, lib: Library)
    requires '.' in name && Collect(ChangedCall(name), false).Found?
    ensures Agree(Collect(ChangedCall(name), false).deps, Filled(name), EMPTY)
    ensures Eval(ChangedCall(name), Filled(name), lib) != Eval(ChangedCall(name), EMPTY, lib)
  {
    var d, args := Collect(ChangedCall(name), false).deps, ChangedCall(name).args;
    assert args[1..] == [];
    assert CollectArgs(args, false) == Both(Collect(args[0], false), CollectArgs([], false));
    forall f | f in d.fields ensures SameTable(f, Filled(name), EMPTY) {
      assert f == name[4..];
      TableShort(f);
    }
    assert HasChanged(name, Filled(name)) && !HasChanged(name, EMPTY);
  }

  lemma {:induction false} TableShort(f: string)
    ensures |TableOf(f)| <= |f|
  {
    if f != "" && f[0] != '.' { TableShort(f[1..]); }
  }

  /// The grammar takes such calls.
  lemma DottedChangedAccepted(field: string)
    requires '.' !in field
    ensures WellFormed(ChangedCall("old." + field)) && OneDot(ChangedCall("old." + field))
  {
    var name := "old." + field;
    NotALiteral(name);
    AfterFirstDot("old", field);
    assert name == "old" + "." + field;
    CallAccepted(name);
  }

  lemma CallAccepted(name: string)
    requires !IsLiteralWord(Meaning(name)) && '.' !in AfterDot(name)
    ensures WellFormed(ChangedCall(name)) && OneDot(ChangedCall(name))
  {
  }

  lemma NotALiteral(name: string)
    requires name != "" && UpperChar(name[0]) !in {'T', 'F', 'N'}
    ensures !IsLiteralWord(Meaning(name))
  {
    var u := Upper(name);
    assert u[0] == UpperChar(name[0]);
    LookupNeverLiteral(u, ALL_FUNCTIONS);
  }

  lemma {:induction false} LookupNeverLiteral(s: string, fns: seq<Fn>)
    ensures !IsLiteralWord(LookupFn(s, fns))
  {
    if fns != [] { LookupNeverLiteral(s, fns[1..]); }
  }

  lemma {:induction false} AfterFirstDot(before: string, rest: string)
    requires '.' !in before
    ensures AfterDot(before + "." + rest) == rest
  {
    var s := before + "." + rest;
    if before == "" {
      assert s[1..] == rest;
    } else {
      assert s[0] == before[0] && s[1..] == before[1..] + "." + rest;
      AfterFirstDot(before[1..], rest);
    }
  }
}
