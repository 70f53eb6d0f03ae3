/**
 The fragment of Rust that code generation emits for control flow, with its big-step meaning:
 labelled blocks that yield a value, labelled loops, `match` on a `Result`, early `return`.
 Fuel counts loop iterations exactly as in the source semantics.
 */
module RustTarget {
  import opened Wrappers
  import opened Values
  import Hir
  import Source = SourceSemantics

  type Tag = Hir.Label

  datatype Expression =
    | Variable(name: Name)
    | Constant(value: Value)
    | Assign(name: Name, right: Expression)
    | Logical(conjunction: bool, left: Expression, right: Expression)
    | Not(operand: Expression)
    | Call(callee: nat, arguments: seq<Expression>, fallible: bool)
    | OkUnit
    | OkOf(payload: Expression)
    | ErrOf(payload: Expression)
    // `match scrutinee { Ok(value) => value, Err(error) => { arm } }`
    | MatchResult(scrutinee: Expression, error: Name, arm: seq<Statement>)

  datatype Statement =
    | Braces(statements: seq<Statement>)
    | Let(name: Name, initializer: Expression)
    // `let name = 'tag: { statements };`
    | LetLabelled(name: Name, tag: Tag, statements: seq<Statement>)
    | ReturnUnit
    | Return(value: Expression)
    | BreakWith(tag: Tag, value: Expression)
    | Break(tag: Tag)
    | Continue(tag: Tag)
    | UnreachableMacro
    | If(condition: Expression, thenBranch: seq<Statement>, elseBranch: seq<Statement>)
    // `if let Err(error) = result { handlers }`
    | IfLetErr(error: Name, result: Name, handlers: seq<Statement>)
    // `match result { Ok(()) => unreachable!(), Err(error) => { handlers } }`
    | MatchDiverging(error: Name, result: Name, handlers: seq<Statement>)
    // `if let Some(binding) = project(error, ty) { matched } else { otherwise }`
    | IfLetProject(binding: Name, error: Name, ty: nat, matched: seq<Statement>, otherwise: seq<Statement>)
    | While(tag: Tag, condition: Expression, body: seq<Statement>)
    | Loop(tag: Tag, body: seq<Statement>)
    | For(tag: Tag, bindings: seq<Name>, iterable: Expression, body: seq<Statement>)
    | Evaluate(expression: Expression)

  /** How control leaves a statement; `IllTyped` is a labelled block that ends without a value. */
  datatype Jump =
    | Next
    | BreakTo(tag: Tag, result: Option<Value>)
    | ContinueTo(tag: Tag)
    | Exit(value: Value)
    | Panic
    | OutOfFuel
    | IllTyped

  datatype Evaluated = Yields(value: Value) | Jumps(jump: Jump)

  type Machine = Source.Machine

  /** The generated `__stainless_project`: the object itself, or what its data base projects to. */
  function Project(v: Value, ty: nat): Option<Value> {
    match v
    case Struct(own, _, base) =>
      if own == ty then Some(v) else if base.Some? then Project(base.value, ty) else None
    case _ => None
  }

  function Leave(depth: nat, m: Machine): Machine {
    m.(env := Truncate(m.env, depth))
  }

  function Push(m: Machine, n: Name, v: Value): Machine {
    m.(env := m.env + [(n, v)])
  }

  function Bind(names: seq<Name>, values: seq<Value>): (r: Env)
    requires |names| == |values|
  {
    seq(|names|, i requires 0 <= i < |names| => (names[i], values[i]))
  }

  function Eval(o: Source.Oracle, e: Expression, m: Machine, fuel: nat): (Evaluated, Machine)
    decreases fuel, e, 0
  {
    match e
    case Variable(name) => (Yields(Lookup(m.env, name)), m)
    case Constant(v) => (Yields(v), m)
    case Assign(name, right) =>
      var (r, m1) := Eval(o, right, m, fuel);
      if r.Jumps? then (r, m1) else (Yields(Unit), m1.(env := Update(m1.env, name, r.value)))
    case Logical(conjunction, left, right) =>
      var (l, m1) := Eval(o, left, m, fuel);
      if l.Jumps? then (l, m1)
      else if Truthy(l.value) != conjunction then (Yields(Flag(!conjunction)), m1)
      else
        var (r, m2) := Eval(o, right, m1, fuel);
        if r.Jumps? then (r, m2) else (Yields(Flag(Truthy(r.value))), m2)
    case Not(operand) =>
      var (r, m1) := Eval(o, operand, m, fuel);
      if r.Jumps? then (r, m1) else (Yields(Flag(!Truthy(r.value))), m1)
    case Call(callee, arguments, fallible) =>
      var (failed, values, m1) := EvalArguments(o, arguments, m, fuel);
      if failed.Some? then (Jumps(failed.value), m1)
      else
        var (result, world) := o(callee, values, m1.world);
        (Yields(match result
                case Returned(v) => if fallible then Ok(v) else v
                case Raised(x) => if fallible then Err(x) else x),
         m1.(world := world))
    case OkUnit => (Yields(Ok(Unit)), m)
    case OkOf(payload) =>
      var (r, m1) := Eval(o, payload, m, fuel);
      if r.Jumps? then (r, m1) else (Yields(Ok(r.value)), m1)
    case ErrOf(payload) =>
      var (r, m1) := Eval(o, payload, m, fuel);
      if r.Jumps? then (r, m1) else (Yields(Err(r.value)), m1)
    case MatchResult(scrutinee, error, arm) =>
      var (r, m1) := Eval(o, scrutinee, m, fuel);
      if r.Jumps? then (r, m1)
      else match r.value
        case Ok(v) => (Yields(v), m1)
        case Err(x) =>
          var (j, m2) := ExecStatements(o, arm, Push(m1, error, x), fuel);
          (if j.Next? then Yields(Unit) else Jumps(j), Leave(|m1.env|, m2))
        case _ => (Jumps(IllTyped), m1)
  }

  function EvalArguments(o: Source.Oracle, es: seq<Expression>, m: Machine, fuel: nat)
    : (Option<Jump>, seq<Value>, Machine)
    decreases fuel, es, 0
  {
    if |es| == 0 then (None, [], m)
    else
      var (first, m1) := Eval(o, es[0], m, fuel);
      if first.Jumps? then (Some(first.jump), [], m1)
      else
        var (failed, rest, m2) := EvalArguments(o, es[1..], m1, fuel);
        (failed, [first.value] + rest, m2)
  }

  function ExecStatements(o: Source.Oracle, ss: seq<Statement>, m: Machine, fuel: nat): (Jump, Machine)
    decreases fuel, ss, 0
  {
    if |ss| == 0 then (Next, m)
    else
      var (j, m1) := Exec(o, ss[0], m, fuel);
      if j.Next? then ExecStatements(o, ss[1..], m1, fuel) else (j, m1)
  }

  function ExecBraces(o: Source.Oracle, ss: seq<Statement>, m: Machine, fuel: nat): (Jump, Machine)
    decreases fuel, ss, 1
  {
    var (j, m1) := ExecStatements(o, ss, m, fuel);
    (j, Leave(|m.env|, m1))
  }

  /** Statements run with one more variable in scope. */
  function ExecWith(o: Source.Oracle, n: Name, v: Value, ss: seq<Statement>, m: Machine, fuel: nat): (Jump, Machine)
    decreases fuel, ss, 1
  {
    var (j, m1) := ExecStatements(o, ss, Push(m, n, v), fuel);
    (j, Leave(|m.env|, m1))
  }

  function Exec(o: Source.Oracle, s: Statement, m: Machine, fuel: nat): (Jump, Machine)
    decreases fuel, s, 1
  {
    match s
    case Braces(ss) => ExecBraces(o, ss, m, fuel)
    case Let(name, initializer) =>
      var (r, m1) := Eval(o, initializer, m, fuel);
      if r.Jumps? then (r.jump, m1) else (Next, Push(m1, name, r.value))
    case LetLabelled(_, _, _) => ExecLabelled(o, s, m, fuel)
    case ReturnUnit => (Exit(Unit), m)
    case Return(value) =>
      var (r, m1) := Eval(o, value, m, fuel);
      (if r.Jumps? then r.jump else Exit(r.value), m1)
    case BreakWith(tag, value) =>
      var (r, m1) := Eval(o, value, m, fuel);
      (if r.Jumps? then r.jump else BreakTo(tag, Some(r.value)), m1)
    case Break(tag) => (BreakTo(tag, None), m)
    case Continue(tag) => (ContinueTo(tag), m)
    case UnreachableMacro => (Panic, m)
    case If(_, _, _) => ExecIf(o, s, m, fuel)
    case IfLetErr(error, result, handlers) =>
      var v := Lookup(m.env, result);
      if v.Err? then ExecWith(o, error, v.error, handlers, m, fuel) else (Next, m)
    case MatchDiverging(error, result, handlers) =>
      var v := Lookup(m.env, result);
      if v.Err? then ExecWith(o, error, v.error, handlers, m, fuel) else (Panic, m)
    case IfLetProject(binding, error, ty, matched, otherwise) =>
      var part := Project(Lookup(m.env, error), ty);
      if part.Some? then ExecWith(o, binding, part.value, matched, m, fuel)
      else ExecBraces(o, otherwise, m, fuel)
    case While(_, _, _) => ExecWhile(o, s, m, fuel)
    case Loop(_, _) => ExecLoop(o, s, m, fuel)
    case For(tag, bindings, iterable, body) =>
      var (r, m1) := Eval(o, iterable, m, fuel);
      if r.Jumps? then (r.jump, m1)
      else ExecFor(o, s, if r.value.Collection? then r.value.elements else [], m1, fuel)
    case Evaluate(e) =>
      var (r, m1) := Eval(o, e, m, fuel);
      (if r.Jumps? then r.jump else Next, m1)
  }

  function ExecLabelled(o: Source.Oracle, s: Statement, m: Machine, fuel: nat): (Jump, Machine)
    requires s.LetLabelled?
    decreases fuel, s, 0
  {
    var (j, m1) := ExecBraces(o, s.statements, m, fuel);
    if j.Next? then (IllTyped, m1)
    else if j.BreakTo? && j.tag == s.tag then
      if j.result.Some? then (Next, Push(m1, s.name, j.result.value)) else (IllTyped, m1)
    else (j, m1)
  }

  function ExecIf(o: Source.Oracle, s: Statement, m: Machine, fuel: nat): (Jump, Machine)
    requires s.If?
    decreases fuel, s, 0
  {
    var (r, m1) := Eval(o, s.condition, m, fuel);
    if r.Jumps? then (r.jump, m1)
    else if Truthy(r.value) then ExecBraces(o, s.thenBranch, m1, fuel)
    else ExecBraces(o, s.elseBranch, m1, fuel)
  }

  function ExecWhile(o: Source.Oracle, s: Statement, m: Machine, fuel: nat): (Jump, Machine)
    requires s.While?
    decreases fuel, s, 0
  {
    if fuel == 0 then (OutOfFuel, m)
    else
      var (r, m1) := Eval(o, s.condition, m, fuel);
      if r.Jumps? then (r.jump, m1)
      else if !Truthy(r.value) then (Next, m1)
      else
        var (j, m2) := ExecBraces(o, s.body, m1, fuel);
        if Stops(j, s.tag) then (Next, m2)
        else if Repeats(j, s.tag) then ExecWhile(o, s, m2, fuel - 1)
        else (j, m2)
  }

  function ExecLoop(o: Source.Oracle, s: Statement, m: Machine, fuel: nat): (Jump, Machine)
    requires s.Loop?
    decreases fuel, s, 0
  {
    if fuel == 0 then (OutOfFuel, m)
    else
      var (j, m1) := ExecBraces(o, s.body, m, fuel);
      if Stops(j, s.tag) then (Next, m1)
      else if Repeats(j, s.tag) then ExecLoop(o, s, m1, fuel - 1)
      else (j, m1)
  }

  predicate Stops(j: Jump, tag: Tag) {
    j == BreakTo(tag, None)
  }

  predicate Repeats(j: Jump, tag: Tag) {
    j.Next? || j == ContinueTo(tag)
  }

  function ExecFor(o: Source.Oracle, s: Statement, elements: seq<Value>, m: Machine, fuel: nat): (Jump, Machine)
    requires s.For?
    decreases fuel, s, 0, |elements|
  {
    if |elements| == 0 then (Next, m)
    else
      var scope := Bind(s.bindings, Components(elements[0], |s.bindings|));
      var (j, m1) := ExecBraces(o, s.body, m.(env := m.env + scope), fuel);
      var m2 := Leave(|m.env|, m1);
      if Stops(j, s.tag) then (Next, m2)
      else if Repeats(j, s.tag) then ExecFor(o, s, elements[1..], m2, fuel)
      else (j, m2)
  }

  /** A call of a function with body `ss`: what it returns, a panic, or no end within `fuel`. */
  function Run(o: Source.Oracle, ss: seq<Statement>, m: Machine, fuel: nat): (Jump, Machine) {
    var (j, m1) := ExecBraces(o, ss, m, fuel);
    (if j.Next? then Exit(Unit) else j, m1)
  }
}
