/**
 Lowering of source statements. The functions give the result of lowering for a given set of
 enclosing constructs; `Lowerer` is the pass itself, which keeps those in its fields.
 */
module Lowering {
  import opened Wrappers
  import opened Ast
  import opened Divergence
  import Values
  import Source = SourceSemantics
  import Hir

  type Label = Hir.Label

  /** Why a statement has no lowering. */
  datatype Rejection = JumpOutsideLoop | EmptyBranch | NoCaughtError

  /** The enclosing constructs: innermost loop last, and where exceptions and rethrows go. */
  datatype Enclosing = Enclosing(
    throwing: bool,
    fluent: bool,
    target: Hir.ExceptionTarget,
    caught: Option<Values.Name>,
    loops: seq<Label>)

  datatype Counters = Counters(tries: nat, loops: nat)

  predicate Advances(before: Counters, after: Counters) {
    before.tries <= after.tries && before.loops <= after.loops
  }

  type Lowered = Result<(Hir.Statement, Counters), Rejection>
  type LoweredBlock = Result<(seq<Hir.Statement>, Counters), Rejection>
  type LoweredCatches = Result<(seq<Hir.Catch>, Counters), Rejection>

  function LowerExpression(e: Source.FlowExpression, target: Hir.ExceptionTarget): Hir.Expression {
    match e
    case Name(name) => Hir.Read(Values.Source(name))
    case Literal(v) => Hir.Constant(v)
    case Assign(name, right) => Hir.Store(Values.Source(name), LowerExpression(right, target))
    case Logical(conjunction, left, right) =>
      Hir.Logical(conjunction, LowerExpression(left, target), LowerExpression(right, target))
    case Call(callee, arguments, throws) =>
      LowerCall(callee, LowerArguments(arguments, target), throws, target)
  }

  function LowerArguments(es: seq<Source.FlowExpression>, target: Hir.ExceptionTarget): (r: seq<Hir.Expression>)
    ensures |r| == |es|
  {
    if |es| == 0 then [] else [LowerExpression(es[0], target)] + LowerArguments(es[1..], target)
  }

  function LowerCall(callee: nat, arguments: seq<Hir.Expression>, throws: bool, target: Hir.ExceptionTarget)
    : Hir.Expression
  {
    var call := Hir.Invoke(callee, arguments, throws);
    if throws then Hir.Propagate(call, target) else call
  }

  function LowerLocal(local: LocalDeclaration<Source.FlowExpression>, target: Hir.ExceptionTarget): Hir.Expression {
    if local.initializer.Some? then LowerExpression(local.initializer.value, target)
    else LowerCall(local.implicitCall.callee, [], local.implicitCall.throws, target)
  }

  function LowerInitializer(i: Option<ForInitializer<Source.FlowExpression>>, target: Hir.ExceptionTarget)
    : Hir.ForInitializer
  {
    if i.None? then Hir.NoInitializer
    else match i.value
      case InitializerLocal(local) => Hir.Let(Values.Source(local.name), LowerLocal(local, target))
      case InitializerExpression(e) => Hir.Effect(LowerExpression(e, target))
  }

  function LowerOptional(e: Option<Source.FlowExpression>, target: Hir.ExceptionTarget): Option<Hir.Expression> {
    if e.None? then None else Some(LowerExpression(e.value, target))
  }

  function LowerIterable(e: Source.FlowExpression, json: bool, target: Hir.ExceptionTarget): Hir.Expression {
    var iterable := LowerExpression(e, target);
    if json then LowerCall(Source.ARRAY_SNAPSHOT, [iterable], true, target) else iterable
  }

  function BindingNames(bindings: seq<RangeBinding>): seq<Values.Name> {
    seq(|bindings|, i requires 0 <= i < |bindings| => Values.Source(bindings[i].name))
  }

  function WithLoop(x: Enclosing, tag: Label): Enclosing {
    x.(loops := x.loops + [tag])
  }

  function InTry(x: Enclosing, index: nat): Enclosing {
    x.(target := Hir.ToTry(Hir.TryLabel(index)), caught := None)
  }

  function InCatch(x: Enclosing, index: nat): Enclosing {
    x.(caught := Some(Values.TryError(index)))
  }

  function UnmatchedTarget(x: Enclosing): Hir.ExceptionTarget {
    if !x.throwing && x.target == Hir.ToFunction then Hir.Unreachable else x.target
  }

  function LowerReturn(value: Option<Source.FlowExpression>, x: Enclosing): Hir.Statement {
    if value.Some? then
      var lowered := LowerExpression(value.value, x.target);
      Hir.ReturnValue(if x.throwing then Hir.SuccessOf(lowered) else lowered)
    else if x.fluent then
      Hir.ReturnValue(if x.throwing then Hir.SuccessOf(Hir.Read(Values.Receiver)) else Hir.Read(Values.Receiver))
    else if x.throwing then Hir.ReturnValue(Hir.SuccessUnit)
    else Hir.ReturnUnit
  }

  function LowerJump(isContinue: bool, x: Enclosing, n: Counters): (r: Lowered)
    ensures r.Success? ==> Advances(n, r.value.1)
  {
    if |x.loops| == 0 then Failure(JumpOutsideLoop)
    else Success((if isContinue then Hir.Continue(Last(x.loops)) else Hir.Break(Last(x.loops)), n))
  }

  function LowerBlock(b: Source.SourceBlock, x: Enclosing, n: Counters): (r: LoweredBlock)
    ensures r.Success? ==> Advances(n, r.value.1)
    decreases b
  {
    LowerStatements(b.statements, x, n)
  }

  function LowerStatements(ss: seq<Source.SourceStatement>, x: Enclosing, n: Counters): (r: LoweredBlock)
    ensures r.Success? ==> Advances(n, r.value.1)
    decreases ss
  {
    if |ss| == 0 then Success(([], n))
    else if ss[0].kind.Empty? then LowerStatements(ss[1..], x, n)
    else
      var first := LowerStatement(ss[0], x, n);
      if first.Failure? then Failure(first.error)
      else
        var rest := LowerStatements(ss[1..], x, first.value.1);
        if rest.Failure? then rest else Success(([first.value.0] + rest.value.0, rest.value.1))
  }

  function LowerAsBlock(s: Source.SourceStatement, x: Enclosing, n: Counters): (r: LoweredBlock)
    ensures r.Success? ==> Advances(n, r.value.1)
    decreases s, 2
  {
    if s.kind.BlockStatement? then LowerBlock(s.kind.block, x, n)
    else
      var r := LowerStatement(s, x, n);
      if r.Failure? then Failure(r.error) else Success(([r.value.0], r.value.1))
  }

  function LowerStatement(s: Source.SourceStatement, x: Enclosing, n: Counters): (r: Lowered)
    ensures r.Success? ==> Advances(n, r.value.1)
    decreases s, 1
  {
    match s.kind
    case BlockStatement(b) =>
      var r := LowerBlock(b, x, n);
      if r.Failure? then Failure(r.error) else Success((Hir.Block(r.value.0), r.value.1))
    case Local(local) => Success((Hir.LetStatement(Values.Source(local.name), LowerLocal(local, x.target)), n))
    case Return(value) => Success((LowerReturn(value, x), n))
    case Throw(error) => LoweredThrow(error, x, n)
    case Try(_, _) => LoweredTry(s, x, n)
    case If(_, _, _) => LoweredIf(s, x, n)
    case While(_, _) => LoweredWhile(s, x, n)
    case For(_, _) => LoweredFor(s, x, n)
    case Break => LowerJump(false, x, n)
    case Continue => LowerJump(true, x, n)
    case Expression(e) => Success((Hir.Evaluate(LowerExpression(e, x.target)), n))
    case Empty => Failure(EmptyBranch)
  }

  function LoweredThrow(error: Option<Source.FlowExpression>, x: Enclosing, n: Counters): (r: Lowered)
    ensures r.Success? ==> Advances(n, r.value.1)
  {
    if error.Some? then Success((Hir.Throw(Hir.New(LowerExpression(error.value, x.target)), x.target), n))
    else if x.caught.None? then Failure(NoCaughtError)
    else Success((Hir.Throw(Hir.Existing(x.caught.value), x.target), n))
  }

  function LoweredTry(s: Source.SourceStatement, x: Enclosing, n: Counters): (r: Lowered)
    requires s.kind.Try?
    ensures r.Success? ==> Advances(n, r.value.1)
    decreases s, 0
  {
    var g := LowerBlock(s.kind.guarded, InTry(x, n.tries), n.(tries := n.tries + 1));
    if g.Failure? then Failure(g.error)
    else
      var hs := LowerCatches(s.kind.catches, InCatch(x, n.tries), g.value.1);
      if hs.Failure? then Failure(hs.error)
      else
        Success((Hir.Try(
          Hir.TryLabel(n.tries),
          Values.TryError(n.tries),
          g.value.0,
          BlockMayFallThrough(s.kind.guarded),
          hs.value.0,
          BlockDefinitelyReturns(s.kind.guarded) && AllDefinitelyReturn(s.kind.catches),
          UnmatchedTarget(x)), hs.value.1))
  }

  function LoweredIf(s: Source.SourceStatement, x: Enclosing, n: Counters): (r: Lowered)
    requires s.kind.If?
    ensures r.Success? ==> Advances(n, r.value.1)
    decreases s, 0
  {
    var c := LowerExpression(s.kind.condition, x.target);
    var t := LowerAsBlock(s.kind.thenBranch, x, n);
    if t.Failure? then Failure(t.error)
    else if s.kind.elseBranch.None? then Success((Hir.If(c, t.value.0, None), t.value.1))
    else
      var e := LowerStatement(s.kind.elseBranch.value, x, t.value.1);
      if e.Failure? then e else Success((Hir.If(c, t.value.0, Some(e.value.0)), e.value.1))
  }

  /** The body of a loop with the next loop label. */
  function LowerLoop(body: Source.SourceStatement, x: Enclosing, n: Counters): (r: LoweredBlock)
    ensures r.Success? ==> Advances(n, r.value.1)
    decreases body, 3
  {
    LowerAsBlock(body, WithLoop(x, Hir.LoopLabel(n.loops)), n.(loops := n.loops + 1))
  }

  function LoweredWhile(s: Source.SourceStatement, x: Enclosing, n: Counters): (r: Lowered)
    requires s.kind.While?
    ensures r.Success? ==> Advances(n, r.value.1)
    decreases s, 0
  {
    var b := LowerLoop(s.kind.body, x, n);
    if b.Failure? then Failure(b.error)
    else
      Success((Hir.While(Hir.LoopLabel(n.loops), LowerExpression(s.kind.condition, x.target), b.value.0), b.value.1))
  }

  function LoweredFor(s: Source.SourceStatement, x: Enclosing, n: Counters): (r: Lowered)
    requires s.kind.For?
    ensures r.Success? ==> Advances(n, r.value.1)
    decreases s, 0
  {
    var b := LowerLoop(s.kind.body, x, n);
    if b.Failure? then Failure(b.error)
    else Success((LowerClause(s.kind.clause, Hir.LoopLabel(n.loops), x.target, b.value.0), b.value.1))
  }

  function LowerClause(
    clause: ForClause<Source.FlowExpression>, tag: Label, target: Hir.ExceptionTarget, body: seq<Hir.Statement>)
    : Hir.Statement
  {
    match clause
    case Classic(initializer, condition, update) =>
      Hir.ClassicFor(
        tag,
        LowerInitializer(initializer, target),
        LowerOptional(condition, target),
        LowerOptional(update, target),
        body)
    case Range(bindings, iterable, json) =>
      Hir.RangeFor(tag, BindingNames(bindings), LowerIterable(iterable, json, target), body)
  }

  function LowerCatches(catches: seq<Source.SourceCatch>, x: Enclosing, n: Counters): (r: LoweredCatches)
    ensures r.Success? ==> Advances(n, r.value.1)
    decreases catches
  {
    if |catches| == 0 then Success(([], n))
    else
      var first := LowerClauseBody(catches[0], x, n);
      if first.Failure? then Failure(first.error)
      else
        var rest := LowerCatches(catches[1..], x, first.value.1);
        if rest.Failure? then rest
        else Success(([Hir.Catch(Filter(catches[0]), first.value.0)] + rest.value.0, rest.value.1))
  }

  function LowerClauseBody(clause: Source.SourceCatch, x: Enclosing, n: Counters): (r: LoweredBlock)
    ensures r.Success? ==> Advances(n, r.value.1)
    decreases clause
  {
    LowerBlock(clause.body, x, n)
  }

  function Filter(clause: Source.SourceCatch): Option<(nat, Values.Name)> {
    if clause.binding.None? then None
    else Some((clause.binding.value.exceptionType, Values.Source(clause.binding.value.name)))
  }

  /** What the signature of a function says about its ends. */
  datatype Signature = Signature(throwing: bool, isVoid: bool, hasReceiver: bool)

  predicate IsFluent(signature: Signature) {
    signature.isVoid && signature.hasReceiver
  }

  function FunctionStart(signature: Signature): Enclosing {
    Enclosing(signature.throwing, IsFluent(signature), Hir.ToFunction, None, [])
  }

  /** The implicit return appended to a void body that can reach its end. */
  function ImplicitReturn(signature: Signature, body: Source.SourceBlock): seq<Hir.Statement> {
    if BlockDefinitelyReturns(body) then []
    else if IsFluent(signature) || (signature.throwing && signature.isVoid) then
      [LowerReturn(None, FunctionStart(signature))]
    else []
  }

  function LowerFunction(signature: Signature, body: Source.SourceBlock, n: Counters): LoweredBlock {
    var r := LowerBlock(body, FunctionStart(signature), n);
    if r.Failure? then r else Success((r.value.0 + ImplicitReturn(signature, body), r.value.1))
  }

  /** The lowering pass, with its stack of loop labels and its current exception target. */
  class Lowerer {
    var tryIndex: nat
    var loopIndex: nat
    var loopLabels: seq<Label>
    var currentThrowing: bool
    var currentFluentReceiver: bool
    var exceptionTarget: Hir.ExceptionTarget
    var caughtError: Option<Values.Name>
    var diagnostics: seq<string>

    constructor ()
      ensures Counted() == Counters(0, 0) && diagnostics == []
      ensures Around() == Enclosing(false, false, Hir.ToFunction, None, [])
    {
      tryIndex, loopIndex, loopLabels := 0, 0, [];
      currentThrowing, currentFluentReceiver := false, false;
      exceptionTarget, caughtError, diagnostics := Hir.ToFunction, None, [];
    }

    ghost function Around(): Enclosing
      reads this
    {
      Enclosing(currentThrowing, currentFluentReceiver, exceptionTarget, caughtError, loopLabels)
    }

    ghost function Counted(): Counters
      reads this
    {
      Counters(tryIndex, loopIndex)
    }

    ghost function Report<T>(r: Result<T, Rejection>): seq<string> {
      if r == Failure(JumpOutsideLoop) then ["HIR003"] else []
    }

    method LowerFunctionBody(signature: Signature, body: Source.SourceBlock) returns (r: Option<seq<Hir.Statement>>)
      requires loopLabels == []
      modifies this
      ensures Around() == old(Around())
      ensures var spec := LowerFunction(signature, body, old(Counted()));
              && diagnostics == old(diagnostics) + Report(spec)
              && (r.Some? <==> spec.Success?)
              && (r.Some? ==> (r.value, Counted()) == spec.value)
    {
      var previousThrowing, previousFluent := currentThrowing, currentFluentReceiver;
      var previousTarget, previousCaught := exceptionTarget, caughtError;
      currentThrowing, currentFluentReceiver := signature.throwing, IsFluent(signature);
      exceptionTarget, caughtError := Hir.ToFunction, None;
      r := LowerFunctionStatements(signature, body);
      currentThrowing, currentFluentReceiver := previousThrowing, previousFluent;
      exceptionTarget, caughtError := previousTarget, previousCaught;
    }

    method LowerFunctionStatements(signature: Signature, body: Source.SourceBlock)
      returns (r: Option<seq<Hir.Statement>>)
      requires Around() == FunctionStart(signature)
      modifies this
      ensures Around() == old(Around())
      ensures var spec := LowerFunction(signature, body, old(Counted()));
              && diagnostics == old(diagnostics) + Report(spec)
              && (r.Some? <==> spec.Success?)
              && (r.Some? ==> (r.value, Counted()) == spec.value)
    {
      r := LowerStatementList(body.statements);
      if r.Some? {
        if currentFluentReceiver && !BlockDefinitelyReturns(body) {
          var self := Hir.Read(Values.Receiver);
          r := Some(r.value + [Hir.ReturnValue(if currentThrowing then Hir.SuccessOf(self) else self)]);
        } else if currentThrowing && signature.isVoid && !BlockDefinitelyReturns(body) {
          r := Some(r.value + [Hir.ReturnValue(Hir.SuccessUnit)]);
        } else {
          assert ImplicitReturn(signature, body) == [];
          assert r.value + [] == r.value;
        }
      }
    }

    method LowerStatementList(ss: seq<Source.SourceStatement>) returns (r: Option<seq<Hir.Statement>>)
      modifies this
      ensures Around() == old(Around())
      ensures var spec := LowerStatements(ss, old(Around()), old(Counted()));
              && diagnostics == old(diagnostics) + Report(spec)
              && (r.Some? <==> spec.Success?)
              && (r.Some? ==> (r.value, Counted()) == spec.value)
      decreases ss
    {
      if |ss| == 0 {
        return Some([]);
      }
      if ss[0].kind.Empty? {
        r := LowerStatementList(ss[1..]);
        return;
      }
      var first := LowerOne(ss[0]);
      if first.None? {
        return None;
      }
      var rest := LowerStatementList(ss[1..]);
      if rest.None? {
        return None;
      }
      r := Some([first.value] + rest.value);
    }

    method StatementAsBlock(s: Source.SourceStatement) returns (r: Option<seq<Hir.Statement>>)
      modifies this
      ensures Around() == old(Around())
      ensures var spec := LowerAsBlock(s, old(Around()), old(Counted()));
              && diagnostics == old(diagnostics) + Report(spec)
              && (r.Some? <==> spec.Success?)
              && (r.Some? ==> (r.value, Counted()) == spec.value)
      decreases s, 2
    {
      if s.kind.BlockStatement? {
        r := LowerStatementList(s.kind.block.statements);
      } else {
        var one := LowerOne(s);
        r := if one.Some? then Some([one.value]) else None;
      }
    }

    method LowerLoopBody(tag: Label, s: Source.SourceStatement) returns (r: Option<seq<Hir.Statement>>)
      modifies this
      ensures Around() == old(Around())
      ensures var spec := LowerAsBlock(s, WithLoop(old(Around()), tag), old(Counted()));
              && diagnostics == old(diagnostics) + Report(spec)
              && (r.Some? <==> spec.Success?)
              && (r.Some? ==> (r.value, Counted()) == spec.value)
      decreases s, 3
    {
      var enclosing := loopLabels;
      loopLabels := loopLabels + [tag];
      r := StatementAsBlock(s);
      loopLabels := loopLabels[..|loopLabels| - 1];
      assert loopLabels == enclosing;
    }

    method LowerLoopJump(isContinue: bool) returns (r: Option<Hir.Statement>)
      modifies this
      ensures Around() == old(Around()) && Counted() == old(Counted())
      ensures var spec := LowerJump(isContinue, old(Around()), old(Counted()));
              && diagnostics == old(diagnostics) + Report(spec)
              && (r.Some? <==> spec.Success?)
              && (r.Some? ==> (r.value, Counted()) == spec.value)
    {
      if |loopLabels| == 0 {
        diagnostics := diagnostics + ["HIR003"];
        return None;
      }
      var tag := loopLabels[|loopLabels| - 1];
      r := Some(if isContinue then Hir.Continue(tag) else Hir.Break(tag));
    }

    method LowerTry(s: Source.SourceStatement) returns (r: Option<Hir.Statement>)
      requires s.kind.Try?
      modifies this
      ensures Around() == old(Around())
      ensures var spec := LoweredTry(s, old(Around()), old(Counted()));
              && diagnostics == old(diagnostics) + Report(spec)
              && (r.Some? <==> spec.Success?)
              && (r.Some? ==> (r.value, Counted()) == spec.value)
      decreases s, 0
    {
      var index := tryIndex;
      tryIndex := tryIndex + 1;
      var unmatched :=
        if !currentThrowing && exceptionTarget == Hir.ToFunction then Hir.Unreachable else exceptionTarget;
      var guarded := LowerGuarded(index, s.kind.guarded);
      if guarded.None? {
        return None;
      }
      var catches := LowerCaught(index, s.kind.catches);
      if catches.None? {
        return None;
      }
      r := Some(Hir.Try(
        Hir.TryLabel(index),
        Values.TryError(index),
        guarded.value,
        BlockMayFallThrough(s.kind.guarded),
        catches.value,
        BlockDefinitelyReturns(s.kind.guarded) && AllDefinitelyReturn(s.kind.catches),
        unmatched));
    }

    /** The block of a `try`: its errors go to the handlers, and there is no caught error in it. */
    method LowerGuarded(index: nat, b: Source.SourceBlock) returns (r: Option<seq<Hir.Statement>>)
      modifies this
      ensures Around() == old(Around())
      ensures var spec := LowerBlock(b, InTry(old(Around()), index), old(Counted()));
              && diagnostics == old(diagnostics) + Report(spec)
              && (r.Some? <==> spec.Success?)
              && (r.Some? ==> (r.value, Counted()) == spec.value)
      decreases b
    {
      var previousTarget, previousCaught := exceptionTarget, caughtError;
      exceptionTarget, caughtError := Hir.ToTry(Hir.TryLabel(index)), None;
      r := LowerStatementList(b.statements);
      exceptionTarget, caughtError := previousTarget, previousCaught;
    }

    /** The handlers, in which a rethrow finds the caught error. */
    method LowerCaught(index: nat, catches: seq<Source.SourceCatch>) returns (r: Option<seq<Hir.Catch>>)
      modifies this
      ensures Around() == old(Around())
      ensures var spec := LowerCatches(catches, InCatch(old(Around()), index), old(Counted()));
              && diagnostics == old(diagnostics) + Report(spec)
              && (r.Some? <==> spec.Success?)
              && (r.Some? ==> (r.value, Counted()) == spec.value)
      decreases catches, 1
    {
      var previousCaught := caughtError;
      caughtError := Some(Values.TryError(index));
      r := LowerHandlers(catches);
      caughtError := previousCaught;
    }

    method LowerHandlers(catches: seq<Source.SourceCatch>) returns (r: Option<seq<Hir.Catch>>)
      modifies this
      ensures Around() == old(Around())
      ensures var spec := LowerCatches(catches, old(Around()), old(Counted()));
              && diagnostics == old(diagnostics) + Report(spec)
              && (r.Some? <==> spec.Success?)
              && (r.Some? ==> (r.value, Counted()) == spec.value)
      decreases catches, 0
    {
      if |catches| == 0 {
        return Some([]);
      }
      var first := LowerHandler(catches[0]);
      if first.None? {
        return None;
      }
      var rest := LowerHandlers(catches[1..]);
      if rest.None? {
        return None;
      }
      r := Some([Hir.Catch(Filter(catches[0]), first.value)] + rest.value);
    }

    method LowerHandler(clause: Source.SourceCatch) returns (r: Option<seq<Hir.Statement>>)
      modifies this
      ensures Around() == old(Around())
      ensures var spec := LowerClauseBody(clause, old(Around()), old(Counted()));
              && diagnostics == old(diagnostics) + Report(spec)
              && (r.Some? <==> spec.Success?)
              && (r.Some? ==> (r.value, Counted()) == spec.value)
      decreases clause
    {
      r := LowerStatementList(clause.body.statements);
    }

    method LowerOne(s: Source.SourceStatement) returns (r: Option<Hir.Statement>)
      modifies this
      ensures Around() == old(Around())
      ensures var spec := LowerStatement(s, old(Around()), old(Counted()));
              && diagnostics == old(diagnostics) + Report(spec)
              && (r.Some? <==> spec.Success?)
              && (r.Some? ==> (r.value, Counted()) == spec.value)
      decreases s, 1
    {
      match s.kind {
        case BlockStatement(b) =>
          var inner := LowerStatementList(b.statements);
          r := if inner.Some? then Some(Hir.Block(inner.value)) else None;
        case Local(local) =>
          r := Some(Hir.LetStatement(Values.Source(local.name), LowerLocal(local, exceptionTarget)));
        case Return(value) =>
          r := Some(LowerReturn(
            value, Enclosing(currentThrowing, currentFluentReceiver, exceptionTarget, caughtError, loopLabels)));
        case Throw(error) => r := LowerThrow(error);
        case Try(_, _) => r := LowerTry(s);
        case If(_, _, _) => r := LowerIf(s);
        case While(_, _) => r := LowerWhile(s);
        case For(_, _) => r := LowerFor(s);
        case Break => r := LowerLoopJump(false);
        case Continue => r := LowerLoopJump(true);
        case Expression(e) => r := Some(Hir.Evaluate(LowerExpression(e, exceptionTarget)));
        case Empty => r := None;
      }
    }

    method LowerThrow(error: Option<Source.FlowExpression>) returns (r: Option<Hir.Statement>)
      ensures var spec := LoweredThrow(error, Around(), Counted());
              && Report(spec) == []
              && (r.Some? <==> spec.Success?)
              && (r.Some? ==> (r.value, Counted()) == spec.value)
    {
      if error.Some? {
        r := Some(Hir.Throw(Hir.New(LowerExpression(error.value, exceptionTarget)), exceptionTarget));
      } else {
        r := if caughtError.None? then None else Some(Hir.Throw(Hir.Existing(caughtError.value), exceptionTarget));
      }
    }

    method LowerIf(s: Source.SourceStatement) returns (r: Option<Hir.Statement>)
      requires s.kind.If?
      modifies this
      ensures Around() == old(Around())
      ensures var spec := LoweredIf(s, old(Around()), old(Counted()));
              && diagnostics == old(diagnostics) + Report(spec)
              && (r.Some? <==> spec.Success?)
              && (r.Some? ==> (r.value, Counted()) == spec.value)
      decreases s, 0
    {
      var c := LowerExpression(s.kind.condition, exceptionTarget);
      var t := StatementAsBlock(s.kind.thenBranch);
      if t.None? {
        return None;
      }
      if s.kind.elseBranch.None? {
        return Some(Hir.If(c, t.value, None));
      }
      var e := LowerOne(s.kind.elseBranch.value);
      r := if e.None? then None else Some(Hir.If(c, t.value, Some(e.value)));
    }

    method LowerWhile(s: Source.SourceStatement) returns (r: Option<Hir.Statement>)
      requires s.kind.While?
      modifies this
      ensures Around() == old(Around())
      ensures var spec := LoweredWhile(s, old(Around()), old(Counted()));
              && diagnostics == old(diagnostics) + Report(spec)
              && (r.Some? <==> spec.Success?)
              && (r.Some? ==> (r.value, Counted()) == spec.value)
      decreases s, 0
    {
      var tag := Hir.LoopLabel(loopIndex);
      loopIndex := loopIndex + 1;
      var c := LowerExpression(s.kind.condition, exceptionTarget);
      var b := LowerLoopBody(tag, s.kind.body);
      r := if b.None? then None else Some(Hir.While(tag, c, b.value));
    }

    method LowerFor(s: Source.SourceStatement) returns (r: Option<Hir.Statement>)
      requires s.kind.For?
      modifies this
      ensures Around() == old(Around())
      ensures var spec := LoweredFor(s, old(Around()), old(Counted()));
              && diagnostics == old(diagnostics) + Report(spec)
              && (r.Some? <==> spec.Success?)
              && (r.Some? ==> (r.value, Counted()) == spec.value)
      decreases s, 0
    {
      var tag := Hir.LoopLabel(loopIndex);
      loopIndex := loopIndex + 1;
      var b := LowerLoopBody(tag, s.kind.body);
      r := if b.None? then None else Some(LowerClause(s.kind.clause, tag, exceptionTarget, b.value));
    }
  }
}
