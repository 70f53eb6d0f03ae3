/**
 Big-step meaning of source functions, after "while loops", "Range-based for loops" and the
 exception rules of the language reference. Runs are cut after `fuel` loop iterations; a run
 that needs more ends in `OutOfFuel`, so a diverging program is one that does so for every fuel.
 */
module SourceSemantics {
  import opened Wrappers
  import opened Ast
  import opened Values

  datatype FlowExpression =
    | Name(name: string)
    | Literal(value: Value)
    | Assign(name: string, right: FlowExpression)
    | Logical(conjunction: bool, left: FlowExpression, right: FlowExpression)
    | Call(callee: nat, arguments: seq<FlowExpression>, throws: bool)

  datatype CallResult = Returned(value: Value) | Raised(error: Value)

  /** Everything a call does outside the calling function, as a change of an abstract world. */
  type Oracle = (nat, seq<Value>, int) -> (CallResult, int)

  /** The runtime operation that copies a JSON array before a range loop runs over it. */
  const ARRAY_SNAPSHOT: nat := 0

  datatype Machine = Machine(env: Env, world: int)

  datatype Evaluated = Produced(value: Value) | Raises(error: Value)

  datatype Completion =
    | Normal
    | Breaking
    | Continuing
    | Returning(value: Value)
    | Throwing(error: Value)
    | OutOfFuel

  /** `fluent` marks a void member function, whose normal end yields its receiver. */
  datatype Context = Context(oracle: Oracle, fluent: bool)

  type SourceBlock = Block<FlowExpression>
  type SourceStatement = Statement<FlowExpression>
  type SourceCatch = CatchClause<FlowExpression>

  function Invoke(oracle: Oracle, callee: nat, arguments: seq<Value>, throws: bool, m: Machine): (Evaluated, Machine) {
    var (result, world) := oracle(callee, arguments, m.world);
    (match result
     case Returned(v) => Produced(v)
     case Raised(e) => if throws then Raises(e) else Produced(e),
     m.(world := world))
  }

  function Eval(oracle: Oracle, e: FlowExpression, m: Machine): (Evaluated, Machine) {
    match e
    case Name(name) => (Produced(Lookup(m.env, Source(name))), m)
    case Literal(v) => (Produced(v), m)
    case Assign(name, right) =>
      var (r, m1) := Eval(oracle, right, m);
      if r.Raises? then (r, m1)
      else (Produced(Unit), m1.(env := Update(m1.env, Source(name), r.value)))
    case Logical(conjunction, left, right) =>
      var (l, m1) := Eval(oracle, left, m);
      if l.Raises? then (l, m1)
      else if Truthy(l.value) != conjunction then (Produced(Flag(!conjunction)), m1)
      else
        var (r, m2) := Eval(oracle, right, m1);
        if r.Raises? then (r, m2) else (Produced(Flag(Truthy(r.value))), m2)
    case Call(callee, arguments, throws) =>
      var (failed, values, m1) := EvalArguments(oracle, arguments, m);
      if failed.Some? then (Raises(failed.value), m1)
      else Invoke(oracle, callee, values, throws, m1)
  }

  /** Left to right; stops at the first argument that raises. */
  function EvalArguments(oracle: Oracle, arguments: seq<FlowExpression>, m: Machine)
    : (Option<Value>, seq<Value>, Machine)
  {
    if |arguments| == 0 then (None, [], m)
    else
      var (first, m1) := Eval(oracle, arguments[0], m);
      if first.Raises? then (Some(first.error), [], m1)
      else
        var (failed, rest, m2) := EvalArguments(oracle, arguments[1..], m1);
        (failed, [first.value] + rest, m2)
  }

  function Leave(depth: nat, m: Machine): Machine {
    m.(env := Truncate(m.env, depth))
  }

  function ExecStatements(c: Context, ss: seq<SourceStatement>, caught: Option<Value>, m: Machine, fuel: nat)
    : (Completion, Machine)
    decreases fuel, ss
  {
    if |ss| == 0 then (Normal, m)
    else
      var (k, m1) := Exec(c, ss[0], caught, m, fuel);
      if k.Normal? then ExecStatements(c, ss[1..], caught, m1, fuel) else (k, m1)
  }

  function ExecBlock(c: Context, b: SourceBlock, caught: Option<Value>, m: Machine, fuel: nat): (Completion, Machine)
    decreases fuel, b
  {
    var (k, m1) := ExecStatements(c, b.statements, caught, m, fuel);
    (k, Leave(|m.env|, m1))
  }

  /** A branch or loop body, which is its own scope. */
  function ExecScoped(c: Context, s: SourceStatement, caught: Option<Value>, m: Machine, fuel: nat)
    : (Completion, Machine)
    decreases fuel, s, 2
  {
    var (k, m1) := Exec(c, s, caught, m, fuel);
    (k, Leave(|m.env|, m1))
  }

  function LocalValue(c: Context, local: LocalDeclaration<FlowExpression>, m: Machine): (Evaluated, Machine) {
    if local.initializer.Some? then Eval(c.oracle, local.initializer.value, m)
    else Invoke(c.oracle, local.implicitCall.callee, [], local.implicitCall.throws, m)
  }

  function Declare(c: Context, local: LocalDeclaration<FlowExpression>, m: Machine): (Completion, Machine) {
    var (r, m1) := LocalValue(c, local, m);
    if r.Raises? then (Throwing(r.error), m1)
    else (Normal, m1.(env := m1.env + [(Source(local.name), r.value)]))
  }

  function Discard(c: Context, e: FlowExpression, m: Machine): (Completion, Machine) {
    var (r, m1) := Eval(c.oracle, e, m);
    (if r.Raises? then Throwing(r.error) else Normal, m1)
  }

  function Exec(c: Context, s: SourceStatement, caught: Option<Value>, m: Machine, fuel: nat): (Completion, Machine)
    decreases fuel, s, 1
  {
    match s.kind
    case BlockStatement(b) => ExecBlock(c, b, caught, m, fuel)
    case Local(local) => Declare(c, local, m)
    case Return(value) => ExecReturn(c, value, m)
    case Throw(error) => ExecThrow(c, error, caught, m)
    case Try(_, _) => ExecTry(c, s, caught, m, fuel)
    case If(_, _, _) => ExecIf(c, s, caught, m, fuel)
    case While(_, _) => ExecWhile(c, s, caught, m, fuel)
    case For(_, _) => ExecForStatement(c, s, caught, m, fuel)
    case Break => (Breaking, m)
    case Continue => (Continuing, m)
    case Expression(e) => Discard(c, e, m)
    case Empty => (Normal, m)
  }

  function ExecReturn(c: Context, value: Option<FlowExpression>, m: Machine): (Completion, Machine) {
    if value.None? then (Returning(if c.fluent then Lookup(m.env, Receiver) else Unit), m)
    else
      var (r, m1) := Eval(c.oracle, value.value, m);
      (if r.Raises? then Throwing(r.error) else Returning(r.value), m1)
  }

  function ExecThrow(c: Context, error: Option<FlowExpression>, caught: Option<Value>, m: Machine)
    : (Completion, Machine)
  {
    if error.None? then (Throwing(if caught.Some? then caught.value else Unit), m)
    else
      var (r, m1) := Eval(c.oracle, error.value, m);
      (Throwing(if r.Raises? then r.error else r.value), m1)
  }

  function ExecTry(c: Context, s: SourceStatement, caught: Option<Value>, m: Machine, fuel: nat): (Completion, Machine)
    requires s.kind.Try?
    decreases fuel, s, 0
  {
    var (k, m1) := ExecBlock(c, s.kind.guarded, caught, m, fuel);
    if k.Throwing? then ExecCatches(c, s.kind.catches, k.error, m1, fuel) else (k, m1)
  }

  function ExecIf(c: Context, s: SourceStatement, caught: Option<Value>, m: Machine, fuel: nat): (Completion, Machine)
    requires s.kind.If?
    decreases fuel, s, 0
  {
    var (r, m1) := Eval(c.oracle, s.kind.condition, m);
    if r.Raises? then (Throwing(r.error), m1) else ExecBranch(c, s, Truthy(r.value), caught, m1, fuel)
  }

  /** The branch of an `if` that its condition chooses. */
  function ExecBranch(c: Context, s: SourceStatement, yes: bool, caught: Option<Value>, m: Machine, fuel: nat)
    : (Completion, Machine)
    requires s.kind.If?
    decreases fuel, s, 0, 0
  {
    if yes then ExecScoped(c, s.kind.thenBranch, caught, m, fuel)
    else if s.kind.elseBranch.Some? then ExecScoped(c, s.kind.elseBranch.value, caught, m, fuel)
    else (Normal, m)
  }

  function ExecWhile(c: Context, s: SourceStatement, caught: Option<Value>, m: Machine, fuel: nat)
    : (Completion, Machine)
    requires s.kind.While?
    decreases fuel, s, 0
  {
    if fuel == 0 then (OutOfFuel, m)
    else
      var (k, m1) := WhileRound(c, s, caught, m, fuel);
      if k.Breaking? then (Normal, m1)
      else if k.Normal? || k.Continuing? then ExecWhile(c, s, caught, m1, fuel - 1)
      else (k, m1)
  }

  /** One test of the condition and, if it holds, one run of the body; `Breaking` ends the loop. */
  function WhileRound(c: Context, s: SourceStatement, caught: Option<Value>, m: Machine, fuel: nat)
    : (Completion, Machine)
    requires s.kind.While?
    decreases fuel, s, 0, 0
  {
    var (r, m1) := Eval(c.oracle, s.kind.condition, m);
    if r.Raises? then (Throwing(r.error), m1)
    else if !Truthy(r.value) then (Breaking, m1)
    else ExecScoped(c, s.kind.body, caught, m1, fuel)
  }

  function ExecForStatement(c: Context, s: SourceStatement, caught: Option<Value>, m: Machine, fuel: nat)
    : (Completion, Machine)
    requires s.kind.For?
    decreases fuel, s, 0
  {
    var (k, m1) := ExecFor(c, s, caught, m, fuel);
    (k, Leave(|m.env|, m1))
  }

  predicate Handles(clause: SourceCatch, error: Value) {
    clause.binding.None? || FirstOfType(Subobjects(error), clause.binding.value.exceptionType).Some?
  }

  /** What the handler's binder denotes: the part of the error that has the declared type. */
  function HandlerScope(clause: SourceCatch, error: Value): Env
    requires Handles(clause, error)
  {
    if clause.binding.None? then []
    else
      [(Source(clause.binding.value.name),
        FirstOfType(Subobjects(error), clause.binding.value.exceptionType).value)]
  }

  /** Runs the first handler, in source order, that accepts `error`. */
  function ExecCatches(c: Context, catches: seq<SourceCatch>, error: Value, m: Machine, fuel: nat)
    : (Completion, Machine)
    decreases fuel, catches
  {
    if |catches| == 0 then (Throwing(error), m)
    else if Handles(catches[0], error) then ExecHandler(c, catches[0], error, m, fuel)
    else ExecCatches(c, catches[1..], error, m, fuel)
  }

  function ExecHandler(c: Context, clause: SourceCatch, error: Value, m: Machine, fuel: nat): (Completion, Machine)
    requires Handles(clause, error)
    decreases fuel, clause
  {
    var (k, m1) := ExecBlock(c, clause.body, Some(error), m.(env := m.env + HandlerScope(clause, error)), fuel);
    (k, Leave(|m.env|, m1))
  }

  function ExecFor(c: Context, s: SourceStatement, caught: Option<Value>, m: Machine, fuel: nat): (Completion, Machine)
    requires s.kind.For?
    decreases fuel, s, 0, 3
  {
    if s.kind.clause.Classic? then
      var (k, m1) := Setup(c, s.kind.clause.initializer, m);
      if k.Normal? then ExecClassic(c, s, caught, m1, fuel) else (k, m1)
    else
      var (a, m1) := RangeElements(c, s.kind.clause.iterable, s.kind.clause.json, m);
      if a.Raises? then (Throwing(a.error), m1)
      else ExecRange(c, s, caught, if a.value.Collection? then a.value.elements else [], m1, fuel)
  }

  /** The initializer of a three-clause loop. */
  function Setup(c: Context, initializer: Option<ForInitializer<FlowExpression>>, m: Machine): (Completion, Machine) {
    if initializer.None? then (Normal, m)
    else match initializer.value
      case InitializerLocal(local) => Declare(c, local, m)
      case InitializerExpression(e) => Discard(c, e, m)
  }

  /** What a range loop goes over; of a JSON array, a copy. */
  function RangeElements(c: Context, iterable: FlowExpression, json: bool, m: Machine): (Evaluated, Machine) {
    var (r, m1) := Eval(c.oracle, iterable, m);
    if r.Produced? && json then Invoke(c.oracle, ARRAY_SNAPSHOT, [r.value], true, m1) else (r, m1)
  }

  /** A loop without a condition goes on. */
  function Test(c: Context, condition: Option<FlowExpression>, m: Machine): (Evaluated, Machine) {
    if condition.None? then (Produced(Flag(true)), m) else Eval(c.oracle, condition.value, m)
  }

  /** One test of the condition and, if it holds, one run of the body; `Breaking` ends the loop. */
  function ClassicRound(c: Context, s: SourceStatement, caught: Option<Value>, m: Machine, fuel: nat)
    : (Completion, Machine)
    requires s.kind.For? && s.kind.clause.Classic?
    decreases fuel, s, 0, 0
  {
    var (r, m1) := Test(c, s.kind.clause.condition, m);
    if r.Raises? then (Throwing(r.error), m1)
    else if !Truthy(r.value) then (Breaking, m1)
    else ExecScoped(c, s.kind.body, caught, m1, fuel)
  }

  /** Condition, body, update, and round again; `continue` ends the body, not the iteration. */
  function ExecClassic(c: Context, s: SourceStatement, caught: Option<Value>, m: Machine, fuel: nat)
    : (Completion, Machine)
    requires s.kind.For? && s.kind.clause.Classic?
    decreases fuel, s, 0, 1
  {
    if fuel == 0 then (OutOfFuel, m)
    else
      var (k, m1) := ClassicRound(c, s, caught, m, fuel);
      if k.Breaking? then (Normal, m1)
      else if k.Normal? || k.Continuing? then ExecUpdate(c, s, caught, m1, fuel - 1)
      else (k, m1)
  }

  function ExecUpdate(c: Context, s: SourceStatement, caught: Option<Value>, m: Machine, fuel: nat)
    : (Completion, Machine)
    requires s.kind.For? && s.kind.clause.Classic?
    decreases fuel, s, 0, 2
  {
    var update := s.kind.clause.update;
    if fuel == 0 then (OutOfFuel, m)
    else
      var (u, m1) := if update.None? then (Normal, m) else Discard(c, update.value, m);
      if u.Throwing? then (u, m1) else ExecClassic(c, s, caught, m1, fuel)
  }

  function RangeNames(bindings: seq<RangeBinding>): (names: seq<string>)
    ensures |names| == |bindings|
  {
    seq(|bindings|, i requires 0 <= i < |bindings| => bindings[i].name)
  }

  function ExecRange(
    c: Context, s: SourceStatement, caught: Option<Value>, elements: seq<Value>, m: Machine, fuel: nat)
    : (Completion, Machine)
    requires s.kind.For? && s.kind.clause.Range?
    decreases fuel, s, 0, 0, |elements|
  {
    if |elements| == 0 then (Normal, m)
    else
      var names := RangeNames(s.kind.clause.bindings);
      var scope := BindAll(names, Components(elements[0], |names|));
      var (k, m1) := ExecScoped(c, s.kind.body, caught, m.(env := m.env + scope), fuel);
      var m2 := Leave(|m.env|, m1);
      if k.Breaking? then (Normal, m2)
      else if !k.Normal? && !k.Continuing? then (k, m2)
      else ExecRange(c, s, caught, elements[1..], m2, fuel)
  }

  /** What a call of the function ends in: a value, an escaping exception, or no end within `fuel`. */
  datatype FunctionEnd = Value(value: Value) | Escapes(error: Value) | Unfinished

  function Run(c: Context, body: SourceBlock, m: Machine, fuel: nat): (FunctionEnd, Machine) {
    var (k, m1) := ExecStatements(c, body.statements, None, m, fuel);
    (match k
     case Returning(v) => FunctionEnd.Value(v)
     case Throwing(e) => Escapes(e)
     case OutOfFuel => Unfinished
     case _ => FunctionEnd.Value(if c.fluent then Lookup(m1.env, Receiver) else Unit),
     Leave(|m.env|, m1))
  }
}
