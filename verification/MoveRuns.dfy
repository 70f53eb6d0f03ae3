/**
 Runs of the language of the ownership pass, as far as moving values is concerned. A run follows a
 tape of choices: how conditions turn out, how often loops repeat, which calls raise, which handler
 catches. Every prefix of every execution is the run of some tape.
 */
module MoveRuns {
  import opened Wrappers
  import opened Ast
  import opened Ownership
  import opened MoveViews
  import FlowStates

  datatype Cell = Cell(moved: bool, ty: TypeRef)

  /** Variables of the open scopes, outermost scope first. */
  type Store = seq<map<string, Cell>>

  type Tape = seq<bool>

  /** `Fault`: a variable was used while moved out. `Cutoff`: the tape ended first. */
  datatype Exit = Done | Broke | Continued | Returned | Raised | Fault | Cutoff

  datatype Run = Run(store: Store, exit: Exit, tape: Tape)

  function CellOf(c: Store, name: string): Option<Cell> {
    var level := LevelOf(c, name);
    if level.None? then None else Some(c[level.value][name])
  }

  function SetMoved(c: Store, name: string, moved: bool): Store {
    var level := LevelOf(c, name);
    if level.None? then c
    else
      var scope := c[level.value];
      c[level.value := scope[name := scope[name].(moved := moved)]]
  }

  function Bring(c: Store, name: string, ty: TypeRef): Store {
    if |c| == 0 then c else c[|c| - 1 := c[|c| - 1][name := Cell(false, ty)]]
  }

  function Use(name: string, c: Store, tape: Tape): Run {
    Run(c, if CellOf(c, name).Some? && CellOf(c, name).value.moved then Fault else Done, tape)
  }

  function TakeOut(name: string, c: Store, tape: Tape): Run {
    var used := Use(name, c, tape);
    if used.exit.Done? then used.(store := SetMoved(c, name, true)) else used
  }

  /** Raises here, or not, as the tape says. */
  function MayRaise(raises: bool, r: Run): (s: Run)
    ensures |s.tape| <= |r.tape|
  {
    if !raises || !r.exit.Done? then r
    else if |r.tape| == 0 then r.(exit := Cutoff)
    else r.(exit := if r.tape[0] then Raised else Done, tape := r.tape[1..])
  }

  // ----- expressions -----

  function Eval(e: Expression, c: Store, tape: Tape): (r: Run)
    ensures |r.tape| <= |tape|
    decreases e, 1
  {
    match e.kind
    case Name(name) => Use(name, c, tape)
    case Literal => Run(c, Done, tape)
    case Parenthesized(inner) => Eval(inner, c, tape)
    case Operand(operand) => Eval(operand, c, tape)
    case Increment(place) => Eval(place, c, tape)
    case Strict(left, right) => EvalPair(e, left, right, c, tape)
    case Compound(target, right) => EvalPair(e, right, target, c, tape)
    case Index(collection, index) => EvalPair(e, collection, index, c, tape)
    case Logical(_, _) => EvalLogical(e, c, tape)
    case Assign(_, _, _, _) => EvalAssign(e, c, tape)
    case Switch(_, _) => EvalSwitch(e, c, tape)
    case Call(_, _, _, _) => EvalCall(e, c, tape)
    case Move(_) => EvalMove(e, c, tape)
    case Consume(_, _) => EvalConsume(e, c, tape)
    case Aggregate(initializers) => EvalElements(initializers, c, tape)
    case Construct(elements, throws) => MayRaise(throws, EvalElements(elements, c, tape))
    case Field(whole) => Eval(whole, c, tape)
  }

  /** Two parts of `e`, one after the other. */
  function EvalPair(e: Expression, first: Expression, second: Expression, c: Store, tape: Tape): (r: Run)
    requires first < e && second < e
    ensures |r.tape| <= |tape|
    decreases e, 0
  {
    var r := Eval(first, c, tape);
    if r.exit.Done? then Eval(second, r.store, r.tape) else r
  }

  function EvalLogical(e: Expression, c: Store, tape: Tape): (r: Run)
    requires e.kind.Logical?
    ensures |r.tape| <= |tape|
    decreases e, 0
  {
    var l := Eval(e.kind.left, c, tape);
    if !l.exit.Done? then l
    else if |l.tape| == 0 then l.(exit := Cutoff)
    else if l.tape[0] then Eval(e.kind.right, l.store, l.tape[1..])
    else l.(tape := l.tape[1..])
  }

  function EvalAssign(e: Expression, c: Store, tape: Tape): (r: Run)
    requires e.kind.Assign?
    ensures |r.tape| <= |tape|
    decreases e, 0
  {
    var r := MayRaise(e.kind.jsonPlace, MayRaise(e.kind.adapted, Eval(e.kind.right, c, tape)));
    if r.exit.Done? then Assigned(e.kind.target, r.store, r.tape) else r
  }

  function EvalSwitch(e: Expression, c: Store, tape: Tape): (r: Run)
    requires e.kind.Switch?
    ensures |r.tape| <= |tape|
    decreases e, 0
  {
    var s := Eval(e.kind.scrutinee, c, tape);
    if s.exit.Done? && |e.kind.arms| > 0 then EvalArm(e.kind.arms, s.store, s.tape) else s
  }

  function EvalCall(e: Expression, c: Store, tape: Tape): (r: Run)
    requires e.kind.Call?
    ensures |r.tape| <= |tape|
    decreases e, 0
  {
    var r := EvalReceiver(e.kind.receiver, c, tape);
    MayRaise(e.kind.throws, if r.exit.Done? then EvalArguments(e.kind.arguments, r.store, r.tape) else r)
  }

  function EvalMove(e: Expression, c: Store, tape: Tape): (r: Run)
    requires e.kind.Move?
    ensures |r.tape| <= |tape|
    decreases e, 0
  {
    var name := NameOf(e.kind.argument);
    if name.None? || CellOf(c, name.value).None? then Eval(e.kind.argument, c, tape)
    else if FlowStates.IsCopyable(CellOf(c, name.value).value.ty) then Use(name.value, c, tape)
    else TakeOut(name.value, c, tape)
  }

  function EvalConsume(e: Expression, c: Store, tape: Tape): (r: Run)
    requires e.kind.Consume?
    ensures |r.tape| <= |tape|
    decreases e, 0
  {
    var name := NameOf(e.kind.consumed);
    MayRaise(
      e.kind.throws,
      if name.Some? && CellOf(c, name.value).Some? then TakeOut(name.value, c, tape) else
      Eval(e.kind.consumed, c, tape))
  }

  /** Assigning a whole variable needs no value in it; a reference is written through. */
  function Assigned(target: Expression, c: Store, tape: Tape): (r: Run)
    ensures |r.tape| <= |tape|
    decreases target, 2
  {
    match target.kind
    case Parenthesized(inner) => Assigned(inner, c, tape)
    case Name(name) =>
      if CellOf(c, name).None? || FlowStates.IsReference(CellOf(c, name).value.ty) then Use(name, c, tape)
      else Run(SetMoved(c, name, false), Done, tape)
    case _ => Eval(target, c, tape)
  }

  /** Exactly one arm is evaluated; the last one if no earlier one is chosen. */
  function EvalArm(arms: seq<Expression>, c: Store, tape: Tape): (r: Run)
    requires |arms| > 0
    ensures |r.tape| <= |tape|
    decreases arms, 0
  {
    if |arms| == 1 then Eval(arms[0], c, tape)
    else if |tape| == 0 then Run(c, Cutoff, tape)
    else if tape[0] then Eval(arms[0], c, tape[1..])
    else EvalArm(arms[1..], c, tape[1..])
  }

  function EvalElements(elements: seq<Element>, c: Store, tape: Tape): (r: Run)
    ensures |r.tape| <= |tape|
    decreases elements, 0
  {
    if |elements| == 0 then Run(c, Done, tape)
    else
      var first := EvalElement(elements[0], c, tape);
      if first.exit.Done? then EvalElements(elements[1..], first.store, first.tape) else first
  }

  function EvalElement(element: Element, c: Store, tape: Tape): (r: Run)
    ensures |r.tape| <= |tape|
    decreases element, 0
  {
    MayRaise(element.adapted, Eval(element.value, c, tape))
  }

  function EvalReceiver(receiver: Option<Receiver>, c: Store, tape: Tape): (r: Run)
    ensures |r.tape| <= |tape|
    decreases receiver, 0
  {
    if receiver.None? then Run(c, Done, tape) else Eval(receiver.value.value, c, tape)
  }

  function EvalArguments(arguments: seq<Argument>, c: Store, tape: Tape): (r: Run)
    ensures |r.tape| <= |tape|
    decreases arguments, 0
  {
    if |arguments| == 0 then Run(c, Done, tape)
    else
      var first := EvalArgument(arguments[0], c, tape);
      if first.exit.Done? then EvalArguments(arguments[1..], first.store, first.tape) else first
  }

  function EvalArgument(argument: Argument, c: Store, tape: Tape): (r: Run)
    ensures |r.tape| <= |tape|
    decreases argument, 0
  {
    Eval(argument.value, c, tape)
  }

  function EvalOptional(e: Option<Expression>, c: Store, tape: Tape): (r: Run)
    ensures |r.tape| <= |tape|
  {
    if e.None? then Run(c, Done, tape) else Eval(e.value, c, tape)
  }

  // ----- statements -----

  function ExecList(ss: seq<OwnStatement>, byReference: bool, c: Store, tape: Tape): (r: Run)
    ensures |r.tape| <= |tape|
    decreases ss, 0, |tape|
  {
    if |ss| == 0 then Run(c, Done, tape)
    else
      var first := Exec(ss[0], byReference, c, tape);
      if first.exit.Done? then ExecList(ss[1..], byReference, first.store, first.tape) else first
  }

  function ExecBlock(b: OwnBlock, byReference: bool, c: Store, tape: Tape): (r: Run)
    ensures |r.tape| <= |tape|
    decreases b, 0, |tape|
  {
    Leaving(ExecList(b.statements, byReference, Enter(c), tape), |c|)
  }

  function ExecBranch(statement: OwnStatement, byReference: bool, c: Store, tape: Tape): (r: Run)
    ensures |r.tape| <= |tape|
    decreases statement, 3, |tape|
  {
    Leaving(Exec(statement, byReference, Enter(c), tape), |c|)
  }

  function ExecLocal(local: LocalDeclaration<Expression>, c: Store, tape: Tape): (r: Run)
    ensures |r.tape| <= |tape|
  {
    var r :=
      if local.initializer.Some? then MayRaise(local.adapted, Eval(local.initializer.value, c, tape))
      else MayRaise(local.implicitCall.throws, Run(c, Done, tape));
    if r.exit.Done? then r.(store := Bring(r.store, local.name, local.ty)) else r
  }

  predicate ReturnTakes(value: Expression, byReference: bool, c: Store) {
    var name := NameOf(value);
    && !byReference && name.Some? && CellOf(c, name.value).Some?
    && !FlowStates.IsReference(CellOf(c, name.value).value.ty)
    && !FlowStates.IsCopyable(CellOf(c, name.value).value.ty)
  }

  function Exiting(r: Run, exit: Exit): Run {
    if r.exit.Done? then r.(exit := exit) else r
  }

  function ExecReturn(value: Option<Expression>, byReference: bool, c: Store, tape: Tape): (r: Run)
    ensures |r.tape| <= |tape|
  {
    Exiting(
      if value.None? then Run(c, Done, tape)
      else if ReturnTakes(value.value, byReference, c) then TakeOut(NameOf(value.value).value, c, tape)
      else Eval(value.value, c, tape),
      Returned)
  }

  function Exec(statement: OwnStatement, byReference: bool, c: Store, tape: Tape): (r: Run)
    ensures |r.tape| <= |tape|
    decreases statement, 2, |tape|
  {
    match statement.kind
    case BlockStatement(b) => ExecBlock(b, byReference, c, tape)
    case Local(local) => ExecLocal(local, c, tape)
    case Return(value) => ExecReturn(value, byReference, c, tape)
    case Throw(error) => ExecThrow(error, c, tape)
    case Try(_, _) => ExecTry(statement, byReference, c, tape)
    case If(_, _, _) => ExecIf(statement, byReference, c, tape)
    case While(_, _) => ExecWhileStatement(statement, byReference, c, tape)
    case For(_, _) => ExecForStatement(statement, byReference, c, tape)
    case Break => Run(c, Broke, tape)
    case Continue => Run(c, Continued, tape)
    case Expression(e) => Eval(e, c, tape)
    case Empty => Run(c, Done, tape)
  }

  function ExecThrow(error: Option<Expression>, c: Store, tape: Tape): (r: Run)
    ensures |r.tape| <= |tape|
  {
    Exiting(EvalOptional(error, c, tape), Raised)
  }

  function ExecTry(statement: OwnStatement, byReference: bool, c: Store, tape: Tape): (r: Run)
    requires statement.kind.Try?
    ensures |r.tape| <= |tape|
    decreases statement, 1, |tape|
  {
    var r := ExecBlock(statement.kind.guarded, byReference, c, tape);
    if r.exit.Raised? then ExecCatches(statement.kind.catches, byReference, r.store, r.tape) else r
  }

  function ExecIf(statement: OwnStatement, byReference: bool, c: Store, tape: Tape): (r: Run)
    requires statement.kind.If?
    ensures |r.tape| <= |tape|
    decreases statement, 1, |tape|
  {
    var r := Eval(statement.kind.condition, c, tape);
    if r.exit.Done? then ExecBranches(statement, byReference, r.store, r.tape) else r
  }

  /** An `if` after its condition. */
  function ExecBranches(statement: OwnStatement, byReference: bool, c: Store, tape: Tape): (r: Run)
    requires statement.kind.If?
    ensures |r.tape| <= |tape|
    decreases statement, 0, |tape|
  {
    if |tape| == 0 then Run(c, Cutoff, tape)
    else if tape[0] then ExecBranch(statement.kind.thenBranch, byReference, c, tape[1..])
    else if statement.kind.elseBranch.Some? then ExecBranch(statement.kind.elseBranch.value, byReference, c, tape[1..])
    else Run(c, Done, tape[1..])
  }

  /** The scopes of a statement go when it ends, however it ends. */
  function Leaving(r: Run, depth: nat): Run {
    r.(store := Cut(r.store, depth))
  }

  function ExecWhileStatement(statement: OwnStatement, byReference: bool, c: Store, tape: Tape): (r: Run)
    requires statement.kind.While?
    ensures |r.tape| <= |tape|
    decreases statement, 1, |tape|
  {
    Leaving(ExecWhile(statement.kind.condition, statement.kind.body, byReference, Enter(c), tape), |c|)
  }

  function ExecWhile(condition: Expression, body: OwnStatement, byReference: bool, c: Store, tape: Tape): (r: Run)
    ensures |r.tape| <= |tape|
    decreases body, 5, |tape|
  {
    var r := Eval(condition, c, tape);
    if r.exit.Done? then ExecLoop([], body, None, Some(condition), true, byReference, r.store, r.tape) else r
  }

  function ExecForStatement(statement: OwnStatement, byReference: bool, c: Store, tape: Tape): (r: Run)
    requires statement.kind.For?
    ensures |r.tape| <= |tape|
    decreases statement, 1, |tape|
  {
    Leaving(ExecFor(statement.kind.clause, statement.kind.body, byReference, Enter(c), tape), |c|)
  }

  /** A raised error is caught by one of the handlers, or by none of them. */
  function ExecCatches(catches: seq<OwnCatch>, byReference: bool, c: Store, tape: Tape): (r: Run)
    ensures |r.tape| <= |tape|
    decreases catches, 0, |tape|
  {
    if |catches| == 0 then Run(c, Raised, tape)
    else if |tape| == 0 then Run(c, Cutoff, tape)
    else if tape[0] then ExecHandler(catches[0], byReference, c, tape[1..])
    else ExecCatches(catches[1..], byReference, c, tape[1..])
  }

  function BringCaught(binding: Option<CatchBinding>, c: Store): Store {
    if binding.None? then c else Bring(c, binding.value.name, binding.value.ty)
  }

  function ExecHandler(clause: OwnCatch, byReference: bool, c: Store, tape: Tape): (r: Run)
    ensures |r.tape| <= |tape|
    decreases clause, 0, |tape|
  {
    Leaving(ExecBody(clause.body, byReference, BringCaught(clause.binding, Enter(c)), tape), |c|)
  }

  function ExecBody(b: OwnBlock, byReference: bool, c: Store, tape: Tape): (r: Run)
    ensures |r.tape| <= |tape|
    decreases b, 0, |tape|
  {
    ExecList(b.statements, byReference, c, tape)
  }

  function BringRange(bindings: seq<RangeBinding>, c: Store): Store
    decreases |bindings|
  {
    if |bindings| == 0 then c else BringRange(bindings[1..], Bring(c, bindings[0].name, bindings[0].ty))
  }

  /** Update and condition, before the next iteration is decided on. */
  function EvalTail(update: Option<Expression>, condition: Option<Expression>, c: Store, tape: Tape): (r: Run)
    ensures |r.tape| <= |tape|
  {
    var u := EvalOptional(update, c, tape);
    if u.exit.Done? then EvalOptional(condition, u.store, u.tape) else u
  }

  /** After a pass through the body of a loop with `depth` scopes around it. */
  function RoundEnd(b: Run, update: Option<Expression>, condition: Option<Expression>, depth: nat): (r: Run)
    ensures |r.tape| <= |b.tape|
  {
    var left := Cut(b.store, depth);
    if b.exit.Done? || b.exit.Continued? then EvalTail(update, condition, left, b.tape) else b.(store := left)
  }

  /** One pass through the body; ends `Done` when the loop goes on. */
  function ExecRound(
    bindings: seq<RangeBinding>, body: OwnStatement, update: Option<Expression>, condition: Option<Expression>,
    byReference: bool, c: Store, tape: Tape)
    : (r: Run)
    ensures |r.tape| <= |tape|
    decreases body, 3, |tape|
  {
    RoundEnd(Exec(body, byReference, BringRange(bindings, Enter(c)), tape), update, condition, |c|)
  }

  /** From the point where the loop decides whether there is another iteration. */
  function ExecLoop(
    bindings: seq<RangeBinding>, body: OwnStatement, update: Option<Expression>, condition: Option<Expression>,
    mayEnd: bool, byReference: bool, c: Store, tape: Tape)
    : (r: Run)
    ensures |r.tape| <= |tape|
    decreases body, 4, |tape|
  {
    if |tape| == 0 then Run(c, Cutoff, tape)
    else if mayEnd && !tape[0] then Run(c, Done, tape[1..])
    else
      var r := ExecRound(bindings, body, update, condition, byReference, c, tape[1..]);
      if r.exit.Done? then ExecLoop(bindings, body, update, condition, mayEnd, byReference, r.store, r.tape)
      else if r.exit.Broke? then r.(exit := Done)
      else r
  }

  function ExecInitializer(initializer: Option<ForInitializer<Expression>>, c: Store, tape: Tape): (r: Run)
    ensures |r.tape| <= |tape|
  {
    if initializer.None? then Run(c, Done, tape)
    else match initializer.value
      case InitializerLocal(local) => ExecLocal(local, c, tape)
      case InitializerExpression(e) => Eval(e, c, tape)
  }

  function ExecFor(clause: ForClause<Expression>, body: OwnStatement, byReference: bool, c: Store, tape: Tape): (r: Run)
    ensures |r.tape| <= |tape|
    decreases body, 6, |tape|
  {
    if clause.Classic? then ExecClassic(clause, body, byReference, c, tape)
    else ExecRange(clause, body, byReference, c, tape)
  }

  /** Initializer and first condition of a loop. */
  function ExecStart(clause: ForClause<Expression>, c: Store, tape: Tape): (r: Run)
    requires clause.Classic?
    ensures |r.tape| <= |tape|
  {
    var i := ExecInitializer(clause.initializer, c, tape);
    if i.exit.Done? then EvalOptional(clause.condition, i.store, i.tape) else i
  }

  function ExecClassic(
    clause: ForClause<Expression>, body: OwnStatement, byReference: bool, c: Store, tape: Tape): (r: Run)
    requires clause.Classic?
    ensures |r.tape| <= |tape|
    decreases body, 5, |tape|
  {
    var r := ExecStart(clause, c, tape);
    if !r.exit.Done? then r
    else
      ExecLoop([], body, clause.update, clause.condition, clause.condition.Some?, byReference, r.store, r.tape)
  }

  function ExecRange(
    clause: ForClause<Expression>, body: OwnStatement, byReference: bool, c: Store, tape: Tape): (r: Run)
    requires clause.Range?
    ensures |r.tape| <= |tape|
    decreases body, 5, |tape|
  {
    var r := MayRaise(clause.json, Eval(clause.iterable, c, tape));
    if r.exit.Done? then ExecLoop(clause.bindings, body, None, None, true, byReference, r.store, r.tape) else r
  }

  function BringParameters(parameters: seq<Parameter>, c: Store): Store
    decreases |parameters|
  {
    if |parameters| == 0 then c else BringParameters(parameters[1..], Bring(c, parameters[0].name, parameters[0].ty))
  }

  /** A call of a function, every parameter holding a value. */
  function RunFunction(parameters: seq<Parameter>, body: OwnBlock, byReference: bool, tape: Tape): Run {
    ExecBody(body, byReference, BringParameters(parameters, Enter([])), tape)
  }
}
