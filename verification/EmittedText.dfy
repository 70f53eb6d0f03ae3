/** Emitted code as Rust reads it: what its returns return, and where its end cannot be reached. */
module EmittedText {
  import opened Wrappers
  import opened Ast
  import opened Values
  import opened Divergence
  import opened SourceSemantics
  import opened Lowering
  import opened Codegen
  import opened LoweringCorrect
  import Hir
  import Rust = RustTarget

  // ----- returns -----

  predicate IsResult(e: Rust.Expression) {
    e.OkUnit? || e.OkOf? || e.ErrOf?
  }

  /** All returns inside return a `Result` if `throwing`, and none does otherwise. */
  predicate Fits(s: Rust.Statement, throwing: bool) {
    match s
    case Braces(ss) => AllFit(ss, throwing)
    case Let(_, initializer) => ExpressionFits(initializer, throwing)
    case LetLabelled(_, _, ss) => AllFit(ss, throwing)
    case ReturnUnit => !throwing
    case Return(value) => IsResult(value) == throwing && ExpressionFits(value, throwing)
    case BreakWith(_, value) => ExpressionFits(value, throwing)
    case If(condition, yes, no) => ExpressionFits(condition, throwing) && AllFit(yes, throwing) && AllFit(no, throwing)
    case IfLetErr(_, _, handlers) => AllFit(handlers, throwing)
    case MatchDiverging(_, _, handlers) => AllFit(handlers, throwing)
    case IfLetProject(_, _, _, matched, otherwise) => AllFit(matched, throwing) && AllFit(otherwise, throwing)
    case While(_, condition, body) => ExpressionFits(condition, throwing) && AllFit(body, throwing)
    case Loop(_, body) => AllFit(body, throwing)
    case For(_, _, iterable, body) => ExpressionFits(iterable, throwing) && AllFit(body, throwing)
    case Evaluate(e) => ExpressionFits(e, throwing)
    case _ => true
  }

  predicate AllFit(ss: seq<Rust.Statement>, throwing: bool) {
    |ss| == 0 || (Fits(ss[0], throwing) && AllFit(ss[1..], throwing))
  }

  predicate ExpressionFits(e: Rust.Expression, throwing: bool) {
    match e
    case Assign(_, right) => ExpressionFits(right, throwing)
    case Logical(_, left, right) => ExpressionFits(left, throwing) && ExpressionFits(right, throwing)
    case Not(operand) => ExpressionFits(operand, throwing)
    case Call(_, arguments, _) => AllExpressionsFit(arguments, throwing)
    case OkOf(payload) => ExpressionFits(payload, throwing)
    case ErrOf(payload) => ExpressionFits(payload, throwing)
    case MatchResult(scrutinee, _, arm) => ExpressionFits(scrutinee, throwing) && AllFit(arm, throwing)
    case _ => true
  }

  predicate AllExpressionsFit(es: seq<Rust.Expression>, throwing: bool) {
    |es| == 0 || (ExpressionFits(es[0], throwing) && AllExpressionsFit(es[1..], throwing))
  }

  // ----- what source code shields -----

  /** Every `throw` and every call that may raise sits in the block of some `try`. */
  predicate Shielded(s: SourceStatement)
    decreases s
  {
    match s.kind
    case BlockStatement(b) => AllShielded(b.statements)
    case Local(local) => ShieldedLocal(local)
    case Return(value) => value.Some? ==> Calm(value.value)
    case Throw(_) => false
    case Try(_, catches) => ShieldedCatches(catches)
    case If(condition, yes, no) => Calm(condition) && Shielded(yes) && (no.Some? ==> Shielded(no.value))
    case While(condition, body) => Calm(condition) && Shielded(body)
    case For(clause, body) => ShieldedClause(clause) && Shielded(body)
    case Expression(e) => Calm(e)
    case _ => true
  }

  predicate AllShielded(ss: seq<SourceStatement>)
    decreases ss
  {
    |ss| == 0 || (Shielded(ss[0]) && AllShielded(ss[1..]))
  }

  /** Handlers behind one that catches everything never run. */
  predicate ShieldedCatches(catches: seq<SourceCatch>)
    decreases catches
  {
    |catches| == 0
    || (ShieldedHandler(catches[0]) && (catches[0].binding.None? || ShieldedCatches(catches[1..])))
  }

  predicate ShieldedHandler(clause: SourceCatch)
    decreases clause
  {
    AllShielded(clause.body.statements)
  }

  predicate ShieldedLocal(local: LocalDeclaration<FlowExpression>) {
    if local.initializer.Some? then Calm(local.initializer.value) else !local.implicitCall.throws
  }

  /** The snapshot of a JSON array may raise. */
  predicate ShieldedClause(clause: ForClause<FlowExpression>) {
    match clause
    case Classic(initializer, condition, update) =>
      && (initializer.Some? ==>
            match initializer.value
            case InitializerLocal(local) => ShieldedLocal(local)
            case InitializerExpression(e) => Calm(e))
      && (condition.Some? ==> Calm(condition.value)) && (update.Some? ==> Calm(update.value))
    case Range(_, iterable, json) => Calm(iterable) && !json
  }

  /** No call in it may raise. */
  predicate Calm(e: FlowExpression) {
    match e
    case Assign(_, right) => Calm(right)
    case Logical(_, left, right) => Calm(left) && Calm(right)
    case Call(_, arguments, throws) => !throws && AllCalm(arguments)
    case _ => true
  }

  predicate AllCalm(es: seq<FlowExpression>) {
    |es| == 0 || (Calm(es[0]) && AllCalm(es[1..]))
  }

  // ----- the returns of expressions -----

  /** What is raised here is returned only if the function may throw. */
  predicate Safe(throwing: bool, target: Hir.ExceptionTarget) {
    throwing || !target.ToFunction?
  }

  lemma {:induction false} AllFitAppend(a: seq<Rust.Statement>, b: seq<Rust.Statement>, throwing: bool)
    ensures AllFit(a + b, throwing) <==> AllFit(a, throwing) && AllFit(b, throwing)
    decreases |a|
  {
    if |a| == 0 {
      assert a + b == b;
    } else {
      AllFitAppend(a[1..], b, throwing);
      assert (a + b)[1..] == a[1..] + b;
    }
  }

  lemma OneFits(s: Rust.Statement, throwing: bool)
    ensures AllFit([s], throwing) <==> Fits(s, throwing)
  {
    var none: seq<Rust.Statement> := [];
    assert [s][1..] == none;
  }

  lemma PropagationFits(target: Hir.ExceptionTarget, error: Rust.Expression, throwing: bool)
    ensures Fits(ExceptionPropagation(target, error), throwing)
            <==> Safe(throwing, target) && (ExpressionFits(error, throwing) || target.Unreachable?)
  {
  }

  lemma {:induction false} LoweredFits(e: FlowExpression, target: Hir.ExceptionTarget, t: nat, throwing: bool)
    ensures ExpressionFits(Compiled(e, target, t), throwing) <==> Safe(throwing, target) || Calm(e)
    ensures !IsResult(Compiled(e, target, t))
    decreases e
  {
    match e
    case Assign(_, right) => LoweredFits(right, target, t, throwing);
    case Logical(_, left, right) =>
      LoweredFits(left, target, t, throwing);
      LoweredFits(right, target, EmitExpression(LowerExpression(left, target), t).1, throwing);
    case Call(_, arguments, throws) =>
      ArgumentsFit(arguments, target, t, throwing);
      CallFits(e, target, t, throwing);
    case _ =>
  }

  lemma CallFits(e: FlowExpression, target: Hir.ExceptionTarget, t: nat, throwing: bool)
    requires e.Call?
    requires AllExpressionsFit(EmitExpressions(LowerArguments(e.arguments, target), t).0, throwing)
             <==> Safe(throwing, target) || AllCalm(e.arguments)
    ensures ExpressionFits(Compiled(e, target, t), throwing) <==> Safe(throwing, target) || Calm(e)
    ensures !IsResult(Compiled(e, target, t))
  {
    var (rs, t1) := EmitExpressions(LowerArguments(e.arguments, target), t);
    if e.throws {
      OneFits(ExceptionPropagation(target, Rust.Variable(Temporary(t1))), throwing);
      PropagationFits(target, Rust.Variable(Temporary(t1)), throwing);
      var call := Hir.Invoke(e.callee, LowerArguments(e.arguments, target), true);
      assert LowerExpression(e, target) == Hir.Propagate(call, target);
      assert EmitExpression(call, t) == (Rust.Call(e.callee, rs, true), t1);
      assert Compiled(e, target, t) == Rust.MatchResult(
        Rust.Call(e.callee, rs, true), Temporary(t1), [ExceptionPropagation(target, Rust.Variable(Temporary(t1)))]);
    } else {
      assert Compiled(e, target, t) == Rust.Call(e.callee, rs, false);
    }
  }

  lemma {:induction false} ArgumentsFit(
    es: seq<FlowExpression>, target: Hir.ExceptionTarget, t: nat, throwing: bool)
    ensures AllExpressionsFit(EmitExpressions(LowerArguments(es, target), t).0, throwing)
            <==> Safe(throwing, target) || AllCalm(es)
    decreases es
  {
    if |es| > 0 {
      var t1 := EmitExpression(LowerExpression(es[0], target), t).1;
      LoweredFits(es[0], target, t, throwing);
      ArgumentsFit(es[1..], target, t1, throwing);
      assert LowerArguments(es, target)[1..] == LowerArguments(es[1..], target);
      var rest := EmitExpressions(LowerArguments(es[1..], target), t1).0;
      assert ([Compiled(es[0], target, t)] + rest)[1..] == rest;
    }
  }

  /** A constructor or an initializer. */
  lemma LocalFits(local: LocalDeclaration<FlowExpression>, target: Hir.ExceptionTarget, t: nat, throwing: bool)
    ensures ExpressionFits(EmitExpression(LowerLocal(local, target), t).0, throwing)
            <==> Safe(throwing, target) || ShieldedLocal(local)
  {
    if local.initializer.Some? {
      LoweredFits(local.initializer.value, target, t, throwing);
    } else {
      var none: seq<FlowExpression> := [];
      var call := FlowExpression.Call(local.implicitCall.callee, none, local.implicitCall.throws);
      LoweredFits(call, target, t, throwing);
      assert LowerExpression(call, target) == LowerLocal(local, target);
    }
  }

  // ----- the returns of statements -----

  lemma EmitOne(h: Hir.Statement, t: nat)
    ensures EmitStatements([h], t).0 == EmitStatement(h, t).0
  {
    var none: seq<Hir.Statement> := [];
    assert [h][1..] == none;
  }

  /** In the body of a function the statement lies where exceptions go to the function or to a `try`. */
  predicate Placed(x: Enclosing) {
    !x.target.Unreachable?
  }

  predicate SafeIn(x: Enclosing) {
    Safe(x.throwing, x.target)
  }

  lemma {:induction false} StatementsFit(ss: seq<SourceStatement>, x: Enclosing, n: Counters, t: nat)
    requires LowerStatements(ss, x, n).Success? && Placed(x)
    ensures AllFit(EmitStatements(LowerStatements(ss, x, n).value.0, t).0, x.throwing) <==> SafeIn(x) || AllShielded(ss)
    decreases ss
  {
    if |ss| > 0 {
      if ss[0].kind.Empty? {
        StatementsFit(ss[1..], x, n, t);
      } else {
        var (h, n1) := LowerStatement(ss[0], x, n).value;
        var (first, t1) := EmitStatement(h, t);
        StatementFits(ss[0], x, n, t);
        StatementsFit(ss[1..], x, n1, t1);
        var hs := LowerStatements(ss[1..], x, n1).value.0;
        assert ([h] + hs)[1..] == hs;
        AllFitAppend(first, EmitStatements(hs, t1).0, x.throwing);
      }
    }
  }

  lemma {:induction false} BodyFits(s: SourceStatement, x: Enclosing, n: Counters, t: nat)
    requires LowerAsBlock(s, x, n).Success? && Placed(x)
    ensures AllFit(EmitStatements(LowerAsBlock(s, x, n).value.0, t).0, x.throwing) <==> SafeIn(x) || Shielded(s)
    decreases s, 2
  {
    if s.kind.BlockStatement? {
      StatementsFit(s.kind.block.statements, x, n, t);
    } else {
      StatementFits(s, x, n, t);
      EmitOne(LowerStatement(s, x, n).value.0, t);
    }
  }

  lemma {:induction false} StatementFits(s: SourceStatement, x: Enclosing, n: Counters, t: nat)
    requires LowerStatement(s, x, n).Success? && Placed(x)
    ensures AllFit(EmitStatement(LowerStatement(s, x, n).value.0, t).0, x.throwing) <==> SafeIn(x) || Shielded(s)
    decreases s, 1
  {
    if s.kind.BlockStatement? {
      StatementsFit(s.kind.block.statements, x, n, t);
      OneFits(EmitStatement(LowerStatement(s, x, n).value.0, t).0[0], x.throwing);
    } else if s.kind.Try? {
      TryFits(s, x, n, t);
    } else if s.kind.If? {
      IfFits(s, x, n, t);
    } else if s.kind.While? {
      WhileFits(s, x, n, t);
    } else if s.kind.For? {
      ForFits(s, x, n, t);
    } else {
      PlainFits(s, x, n, t);
    }
  }

  lemma PlainFits(s: SourceStatement, x: Enclosing, n: Counters, t: nat)
    requires LowerStatement(s, x, n).Success? && Placed(x)
    requires s.kind.Local? || s.kind.Return? || s.kind.Throw? || s.kind.Break? || s.kind.Continue? || s.kind.Expression?
          || s.kind.Empty?
    ensures AllFit(EmitStatement(LowerStatement(s, x, n).value.0, t).0, x.throwing) <==> SafeIn(x) || Shielded(s)
  {
    var rs := EmitStatement(LowerStatement(s, x, n).value.0, t).0;
    OneFits(rs[0], x.throwing);
    if s.kind.Local? {
      LocalFits(s.kind.local, x.target, t, x.throwing);
    } else if s.kind.Return? {
      ReturnFits(s.kind.value, x, t);
    } else if s.kind.Throw? {
      ThrowFits(s.kind.error, x, n, t);
    } else if s.kind.Expression? {
      LoweredFits(s.kind.expression, x.target, t, x.throwing);
    }
  }

  lemma BareReturnFits(x: Enclosing, t: nat)
    ensures Fits(EmitStatement(LowerReturn(None, x), t).0[0], x.throwing)
  {
    var receiver := Hir.Read(Values.Receiver);
    assert EmitExpression(receiver, t) == (Rust.Variable(Values.Receiver), t);
    if x.fluent && x.throwing {
      assert EmitExpression(Hir.SuccessOf(receiver), t).0 == Rust.OkOf(Rust.Variable(Values.Receiver));
    } else if x.throwing {
      assert EmitExpression(Hir.SuccessUnit, t).0 == Rust.OkUnit;
    }
  }

  lemma ReturnFits(value: Option<FlowExpression>, x: Enclosing, t: nat)
    ensures Fits(EmitStatement(LowerReturn(value, x), t).0[0], x.throwing)
            <==> SafeIn(x) || (value.Some? ==> Calm(value.value))
  {
    if value.Some? {
      LoweredFits(value.value, x.target, t, x.throwing);
      var lowered := LowerExpression(value.value, x.target);
      if x.throwing {
        assert EmitExpression(Hir.SuccessOf(lowered), t).0 == Rust.OkOf(Compiled(value.value, x.target, t));
      }
    } else {
      BareReturnFits(x, t);
    }
  }

  lemma ThrowFits(error: Option<FlowExpression>, x: Enclosing, n: Counters, t: nat)
    requires LoweredThrow(error, x, n).Success? && Placed(x)
    ensures Fits(EmitStatement(LoweredThrow(error, x, n).value.0, t).0[0], x.throwing) <==> SafeIn(x)
  {
    if error.Some? {
      LoweredFits(error.value, x.target, t, x.throwing);
      PropagationFits(x.target, Compiled(error.value, x.target, t), x.throwing);
    } else {
      PropagationFits(x.target, Rust.Variable(x.caught.value), x.throwing);
    }
  }

  lemma {:induction false} IfFits(s: SourceStatement, x: Enclosing, n: Counters, t: nat)
    requires s.kind.If? && LoweredIf(s, x, n).Success? && Placed(x)
    ensures AllFit(EmitStatement(LoweredIf(s, x, n).value.0, t).0, x.throwing) <==> SafeIn(x) || Shielded(s)
    decreases s, 0
  {
    var h := LoweredIf(s, x, n).value.0;
    var t1 := EmitExpression(h.condition, t).1;
    var n1 := LowerAsBlock(s.kind.thenBranch, x, n).value.1;
    LoweredFits(s.kind.condition, x.target, t, x.throwing);
    BodyFits(s.kind.thenBranch, x, n, t1);
    OneFits(EmitIf(h, t).0[0], x.throwing);
    if s.kind.elseBranch.Some? {
      ElseFits(s.kind.elseBranch.value, x, n1, EmitStatements(h.thenBranch, t1).1);
    } else {
      assert EmitElse(None, EmitStatements(h.thenBranch, t1).1).0 == [];
    }
  }

  lemma {:induction false} ElseFits(s: SourceStatement, x: Enclosing, n: Counters, t: nat)
    requires LowerStatement(s, x, n).Success? && Placed(x)
    ensures AllFit(EmitElse(Some(LowerStatement(s, x, n).value.0), t).0, x.throwing) <==> SafeIn(x) || Shielded(s)
    decreases s, 2
  {
    StatementFits(s, x, n, t);
    var h := LowerStatement(s, x, n).value.0;
    if h.Block? {
      OneFits(Rust.Braces(EmitStatements(h.statements, t).0), x.throwing);
    }
  }

  lemma {:induction false} LoopFits(body: SourceStatement, x: Enclosing, n: Counters, t: nat)
    requires LowerLoop(body, x, n).Success? && Placed(x)
    ensures AllFit(EmitStatements(LowerLoop(body, x, n).value.0, t).0, x.throwing) <==> SafeIn(x) || Shielded(body)
    decreases body, 3
  {
    BodyFits(body, WithLoop(x, Hir.LoopLabel(n.loops)), n.(loops := n.loops + 1), t);
  }

  lemma {:induction false} WhileFits(s: SourceStatement, x: Enclosing, n: Counters, t: nat)
    requires s.kind.While? && LoweredWhile(s, x, n).Success? && Placed(x)
    ensures AllFit(EmitStatement(LoweredWhile(s, x, n).value.0, t).0, x.throwing) <==> SafeIn(x) || Shielded(s)
    decreases s, 0
  {
    var h := LoweredWhile(s, x, n).value.0;
    LoweredFits(s.kind.condition, x.target, t, x.throwing);
    LoopFits(s.kind.body, x, n, EmitExpression(h.condition, t).1);
    OneFits(EmitWhile(h, t).0[0], x.throwing);
  }

  lemma {:induction false} ForFits(s: SourceStatement, x: Enclosing, n: Counters, t: nat)
    requires s.kind.For? && LoweredFor(s, x, n).Success? && Placed(x)
    ensures AllFit(EmitStatement(LoweredFor(s, x, n).value.0, t).0, x.throwing) <==> SafeIn(x) || Shielded(s)
    decreases s, 0
  {
    var h := LoweredFor(s, x, n).value.0;
    if s.kind.clause.Range? {
      IterableFits(s.kind.clause, x, t);
      LoopFits(s.kind.body, x, n, EmitExpression(h.iterable, t).1);
      OneFits(EmitRange(h, t).0[0], x.throwing);
    } else {
      var (setup, t1) := EmitInitializer(h.setup, t);
      var (test, t2) := EmitOptional(h.test, t1);
      var (body, t3) := EmitStatements(h.body, t2);
      var (update, t4) := EmitOptional(h.update, t3);
      InitializerFits(s.kind.clause.initializer, x, t);
      OptionalFits(s.kind.clause.condition, x, t1);
      LoopFits(s.kind.body, x, n, t2);
      OptionalFits(s.kind.clause.update, x, t3);
      ClassicFits(h.tag, setup, test, update, Temporary(t4), body, x.throwing);
      OneFits(EmitClassic(h, t).0[0], x.throwing);
    }
  }

  lemma IterableFits(clause: ForClause<FlowExpression>, x: Enclosing, t: nat)
    requires clause.Range?
    ensures ExpressionFits(EmitExpression(LowerIterable(clause.iterable, clause.json, x.target), t).0, x.throwing)
            <==> SafeIn(x) || ShieldedClause(clause)
  {
    LoweredFits(clause.iterable, x.target, t, x.throwing);
    if clause.json {
      var none: seq<FlowExpression> := [];
      var call := FlowExpression.Call(ARRAY_SNAPSHOT, [clause.iterable], true);
      assert [clause.iterable][1..] == none && LowerArguments(none, x.target) == [];
      assert LowerArguments([clause.iterable], x.target) == [LowerExpression(clause.iterable, x.target)];
      LoweredFits(call, x.target, t, x.throwing);
      assert LowerExpression(call, x.target) == LowerIterable(clause.iterable, true, x.target);
    }
  }

  lemma OptionalFits(e: Option<FlowExpression>, x: Enclosing, t: nat)
    ensures var r := EmitOptional(LowerOptional(e, x.target), t).0;
            (r.Some? ==> ExpressionFits(r.value, x.throwing)) <==> SafeIn(x) || (e.Some? ==> Calm(e.value))
  {
    if e.Some? {
      LoweredFits(e.value, x.target, t, x.throwing);
    }
  }

  lemma InitializerFits(initializer: Option<ForInitializer<FlowExpression>>, x: Enclosing, t: nat)
    ensures AllFit(EmitInitializer(LowerInitializer(initializer, x.target), t).0, x.throwing)
            <==> SafeIn(x) || ShieldedClause(Classic(initializer, None, None))
  {
    if initializer.Some? {
      OneFits(EmitInitializer(LowerInitializer(initializer, x.target), t).0[0], x.throwing);
      match initializer.value
      case InitializerLocal(local) => LocalFits(local, x.target, t, x.throwing);
      case InitializerExpression(e) => LoweredFits(e, x.target, t, x.throwing);
    }
  }

  lemma ClassicFits(
    tag: Hir.Label, setup: seq<Rust.Statement>, test: Option<Rust.Expression>, update: Option<Rust.Expression>,
    first: Name, body: seq<Rust.Statement>, throwing: bool)
    ensures Fits(ClassicLoop(tag, setup, test, update, first, body), throwing)
            <==> && AllFit(setup, throwing) && AllFit(body, throwing)
                 && (test.Some? ==> ExpressionFits(test.value, throwing))
                 && (update.Some? ==> ExpressionFits(update.value, throwing))
  {
    var check := ConditionCheck(test, tag);
    CheckFits(test, tag, throwing);
    OneFits(Rust.Braces(body), throwing);
    AllFitAppend(check, [Rust.Braces(body)], throwing);
    if update.None? {
      var loop := Rust.Loop(tag, check + [Rust.Braces(body)]);
      OneFits(loop, throwing);
      AllFitAppend(setup, [loop], throwing);
    } else {
      var step := UpdateStep(first, update.value);
      var flag := Rust.Let(first, Rust.Constant(Flag(true)));
      var loop := Rust.Loop(tag, [step] + check + [Rust.Braces(body)]);
      StepFits(first, update.value, throwing);
      AllFitAppend([step], check, throwing);
      AllFitAppend([step] + check, [Rust.Braces(body)], throwing);
      OneFits(flag, throwing);
      OneFits(loop, throwing);
      AllFitAppend(setup, [flag], throwing);
      AllFitAppend(setup + [flag], [loop], throwing);
    }
  }

  lemma CheckFits(test: Option<Rust.Expression>, tag: Hir.Label, throwing: bool)
    ensures AllFit(ConditionCheck(test, tag), throwing) <==> (test.Some? ==> ExpressionFits(test.value, throwing))
  {
    if test.Some? {
      OneFits(ConditionCheck(test, tag)[0], throwing);
      OneFits(Rust.Break(tag), throwing);
    }
  }

  lemma StepFits(first: Name, update: Rust.Expression, throwing: bool)
    ensures AllFit([UpdateStep(first, update)], throwing) <==> ExpressionFits(update, throwing)
  {
    assert ExpressionFits(Rust.Constant(Flag(false)), throwing);
    OneFits(UpdateStep(first, update), throwing);
    OneFits(Rust.Evaluate(Rust.Assign(first, Rust.Constant(Flag(false)))), throwing);
    OneFits(Rust.Evaluate(update), throwing);
  }

  // ----- the returns of `try` -----

  lemma {:induction false} TryFits(s: SourceStatement, x: Enclosing, n: Counters, t: nat)
    requires s.kind.Try? && LoweredTry(s, x, n).Success? && Placed(x)
    ensures AllFit(EmitStatement(LoweredTry(s, x, n).value.0, t).0, x.throwing) <==> SafeIn(x) || Shielded(s)
    decreases s, 0
  {
    var h := LoweredTry(s, x, n).value.0;
    var t1 := EmitStatements(h.guarded, t + 1).1;
    GuardedFits(s, x, n, t + 1);
    var n1 := LowerBlock(s.kind.guarded, InTry(x, n.tries), n.(tries := n.tries + 1)).value.1;
    CatchesFit(s.kind.catches, InCatch(x, n.tries), n1, h.errorName, h.unmatchedTarget, t1);
    EmittedTryFits(h, t, x.throwing);
  }

  lemma {:induction false} GuardedFits(s: SourceStatement, x: Enclosing, n: Counters, t: nat)
    requires s.kind.Try? && LoweredTry(s, x, n).Success? && Placed(x)
    ensures AllFit(EmitStatements(LoweredTry(s, x, n).value.0.guarded, t).0, x.throwing)
    ensures Safe(x.throwing, LoweredTry(s, x, n).value.0.unmatchedTarget)
    decreases s, 0, 0
  {
    StatementsFit(s.kind.guarded.statements, InTry(x, n.tries), n.(tries := n.tries + 1), t);
  }

  lemma EmittedTryFits(h: Hir.Statement, t: nat, throwing: bool)
    requires h.Try?
    ensures var (body, t1) := EmitStatements(h.guarded, t + 1);
            AllFit(EmitStatement(h, t).0, throwing)
            <==> && AllFit(body, throwing)
                 && AllFit(EmitCatches(h.catches, h.errorName, h.unmatchedTarget, t1).0, throwing)
  {
    var (body, t1) := EmitStatements(h.guarded, t + 1);
    var handlers := EmitCatches(h.catches, h.errorName, h.unmatchedTarget, t1).0;
    HandledFits(h.tag, Temporary(t), h.errorName, body, h.bodyFallsThrough, handlers, h.diverges, throwing);
  }

  lemma HandledFits(
    tag: Hir.Label, result: Name, error: Name, body: seq<Rust.Statement>, fallsThrough: bool,
    handlers: seq<Rust.Statement>, diverges: bool, throwing: bool)
    ensures AllFit(TryStatements(tag, result, error, body, fallsThrough, handlers, diverges), throwing)
            <==> AllFit(body, throwing) && AllFit(handlers, throwing)
  {
    var completion := if fallsThrough then [Rust.BreakWith(tag, Rust.OkUnit)] else [];
    var block := Rust.LetLabelled(result, tag, [Rust.Braces(body)] + completion);
    var test :=
      if diverges then Rust.MatchDiverging(error, result, handlers) else Rust.IfLetErr(error, result, handlers);
    OneFits(Rust.Braces(body), throwing);
    OneFits(Rust.BreakWith(tag, Rust.OkUnit), throwing);
    AllFitAppend([Rust.Braces(body)], completion, throwing);
    OneFits(block, throwing);
    OneFits(test, throwing);
    AllFitAppend([block], [test], throwing);
  }

  lemma {:induction false} CatchesFit(
    catches: seq<SourceCatch>, x: Enclosing, n: Counters, error: Name, unmatched: Hir.ExceptionTarget, t: nat)
    requires LowerCatches(catches, x, n).Success? && Placed(x) && Safe(x.throwing, unmatched)
    ensures AllFit(EmitCatches(LowerCatches(catches, x, n).value.0, error, unmatched, t).0, x.throwing)
            <==> SafeIn(x) || ShieldedCatches(catches)
    decreases catches
  {
    if |catches| == 0 {
      OneFits(ExceptionPropagation(unmatched, Rust.Variable(error)), x.throwing);
      PropagationFits(unmatched, Rust.Variable(error), x.throwing);
    } else {
      var (body, n1) := LowerClauseBody(catches[0], x, n).value;
      var h := Hir.Catch(Filter(catches[0]), body);
      var hs := LowerCatches(catches[1..], x, n1).value.0;
      var (otherwise, t1) := EmitCatches(hs, error, unmatched, t);
      assert ([h] + hs)[1..] == hs;
      CatchesFit(catches[1..], x, n1, error, unmatched, t);
      HandlerFits(catches[0], x, n, t1);
      CatchFits(h, error, otherwise, t1, x.throwing);
    }
  }

  lemma CatchFits(h: Hir.Catch, error: Name, otherwise: seq<Rust.Statement>, t: nat, throwing: bool)
    ensures AllFit(EmitCatch(h, error, otherwise, t).0, throwing)
            <==> AllFit(EmitStatements(h.body, t).0, throwing) && (h.filter.Some? ==> AllFit(otherwise, throwing))
  {
    var body := Rust.Braces(EmitStatements(h.body, t).0);
    OneFits(body, throwing);
    OneFits(EmitCatch(h, error, otherwise, t).0[0], throwing);
  }

  lemma {:induction false} HandlerFits(clause: SourceCatch, x: Enclosing, n: Counters, t: nat)
    requires LowerClauseBody(clause, x, n).Success? && Placed(x)
    ensures AllFit(EmitStatements(LowerClauseBody(clause, x, n).value.0, t).0, x.throwing)
            <==> SafeIn(x) || ShieldedHandler(clause)
    decreases clause
  {
    StatementsFit(clause.body.statements, x, n, t);
  }

  // ----- the returns of functions -----

  /**
   The returns of an emitted function fit its type exactly if the function may throw or shields everything
   that raises; then in particular a function that may not throw never returns an error.
   */
  lemma ReturnsFit(signature: Signature, body: SourceBlock, n: Counters, t: nat)
    requires LowerFunction(signature, body, n).Success?
    ensures AllFit(Compile(signature, body, n, t), signature.throwing)
            <==> signature.throwing || AllShielded(body.statements)
  {
    var x := FunctionStart(signature);
    StatementsFit(body.statements, x, n, t);
    CompileSplits(signature, body, n, t);
    var (rs, t1) := CompiledBody(signature, body, n, t);
    AllFitAppend(rs, EmitStatements(ImplicitReturn(signature, body), t1).0, signature.throwing);
    if ImplicitReturn(signature, body) != [] {
      EmitOne(LowerReturn(None, x), t1);
      OneFits(EmitStatement(LowerReturn(None, x), t1).0[0], signature.throwing);
      ReturnFits(None, x, t1);
    }
  }

  /** No handler accepts the error. */
  predicate Unmatched(catches: seq<SourceCatch>, error: Value) {
    forall i :: 0 <= i < |catches| ==> !Handles(catches[i], error)
  }

  lemma {:induction false} UnmatchedPassesOn(
    c: Context, catches: seq<SourceCatch>, error: Value, m: Machine, fuel: nat)
    requires Unmatched(catches, error)
    ensures ExecCatches(c, catches, error, m, fuel) == (Throwing(error), m)
    decreases |catches|
  {
    if |catches| > 0 {
      UnmatchedPassesOn(c, catches[1..], error, m, fuel);
    }
  }

  /** Where a function may throw, an error that no handler of an outermost `try` accepts is returned as one. */
  lemma UnmatchedErrorsAreReturned(
    o: Oracle, signature: Signature, body: SourceBlock, n: Counters, t: nat, env: Env, world: int, fuel: nat,
    error: Value)
    requires LowerFunction(signature, body, n).Success? && signature.throwing && AllVisible(env)
    requires |body.statements| > 0 && body.statements[0].kind.Try?
    requires ExecBlock(
               Context(o, IsFluent(signature)), body.statements[0].kind.guarded, None, Machine(env, world), fuel).0
             == Throwing(error)
    requires Unmatched(body.statements[0].kind.catches, error)
    ensures Rust.Run(o, Compile(signature, body, n, t), Machine(env, world), fuel).0 == Rust.Exit(Err(error))
  {
    var c, m, s := Context(o, IsFluent(signature)), Machine(env, world), body.statements[0];
    var m1 := ExecBlock(c, s.kind.guarded, None, m, fuel).1;
    UnmatchedPassesOn(c, s.kind.catches, error, m1, fuel);
    assert Exec(c, s, None, m, fuel) == ExecTry(c, s, None, m, fuel) == (Throwing(error), m1);
    assert ExecStatements(c, body.statements, None, m, fuel).0 == Throwing(error);
    CompilationPreservesMeaning(o, signature, body, n, t, env, world, fuel);
  }

  // ----- ends that cannot be reached -----

  /** The end of the statement cannot be reached, as far as its branches show. */
  predicate Diverges(s: Rust.Statement) {
    match s
    case Return(_) => true
    case ReturnUnit => true
    case BreakWith(_, _) => true
    case Break(_) => true
    case Continue(_) => true
    case UnreachableMacro => true
    case Braces(ss) => SomeDiverges(ss)
    case If(_, yes, no) => SomeDiverges(yes) && SomeDiverges(no)
    case MatchDiverging(_, _, handlers) => SomeDiverges(handlers)
    case IfLetProject(_, _, _, matched, otherwise) => SomeDiverges(matched) && SomeDiverges(otherwise)
    case _ => false
  }

  predicate SomeDiverges(ss: seq<Rust.Statement>) {
    |ss| > 0 && (Diverges(ss[0]) || SomeDiverges(ss[1..]))
  }

  lemma {:induction false} SomeDivergesAppend(a: seq<Rust.Statement>, b: seq<Rust.Statement>)
    ensures SomeDiverges(a + b) <==> SomeDiverges(a) || SomeDiverges(b)
    decreases |a|
  {
    if |a| == 0 {
      assert a + b == b;
    } else {
      SomeDivergesAppend(a[1..], b);
      assert (a + b)[1..] == a[1..] + b;
    }
  }

  lemma OneDiverges(s: Rust.Statement)
    ensures SomeDiverges([s]) <==> Diverges(s)
  {
    var none: seq<Rust.Statement> := [];
    assert [s][1..] == none;
  }

  lemma {:induction false} StatementsDiverge(ss: seq<SourceStatement>, x: Enclosing, n: Counters, t: nat)
    requires LowerStatements(ss, x, n).Success? && |ss| > 0 && DefinitelyReturns(Last(ss))
    ensures SomeDiverges(EmitStatements(LowerStatements(ss, x, n).value.0, t).0)
    decreases ss
  {
    if ss[0].kind.Empty? {
      StatementsDiverge(ss[1..], x, n, t);
    } else {
      var (h, n1) := LowerStatement(ss[0], x, n).value;
      var (first, t1) := EmitStatement(h, t);
      var hs := LowerStatements(ss[1..], x, n1).value.0;
      assert ([h] + hs)[1..] == hs;
      if |ss| == 1 {
        StatementDiverges(ss[0], x, n, t);
      } else {
        StatementsDiverge(ss[1..], x, n1, t1);
      }
      SomeDivergesAppend(first, EmitStatements(hs, t1).0);
    }
  }

  lemma {:induction false} BodyDiverges(s: SourceStatement, x: Enclosing, n: Counters, t: nat)
    requires LowerAsBlock(s, x, n).Success? && DefinitelyReturns(s)
    ensures SomeDiverges(EmitStatements(LowerAsBlock(s, x, n).value.0, t).0)
    decreases s, 2
  {
    if s.kind.BlockStatement? {
      StatementsDiverge(s.kind.block.statements, x, n, t);
    } else {
      StatementDiverges(s, x, n, t);
      var h := LowerStatement(s, x, n).value.0;
      var none: seq<Hir.Statement> := [];
      assert [h][1..] == none;
      assert EmitStatements([h], t).0 == EmitStatement(h, t).0;
    }
  }

  lemma {:induction false} StatementDiverges(s: SourceStatement, x: Enclosing, n: Counters, t: nat)
    requires LowerStatement(s, x, n).Success? && DefinitelyReturns(s)
    ensures SomeDiverges(EmitStatement(LowerStatement(s, x, n).value.0, t).0)
    decreases s, 1
  {
    var h := LowerStatement(s, x, n).value.0;
    if s.kind.BlockStatement? {
      StatementsDiverge(s.kind.block.statements, x, n, t);
    } else if s.kind.Try? {
      TryDiverges(s, x, n, t);
    } else if s.kind.If? {
      IfDiverges(s, x, n, t);
    } else {
      OneDiverges(EmitStatement(h, t).0[0]);
    }
  }

  lemma {:induction false} IfDiverges(s: SourceStatement, x: Enclosing, n: Counters, t: nat)
    requires s.kind.If? && LoweredIf(s, x, n).Success? && DefinitelyReturns(s)
    ensures SomeDiverges(EmitStatement(LoweredIf(s, x, n).value.0, t).0)
    decreases s, 0
  {
    var h := LoweredIf(s, x, n).value.0;
    var t1 := EmitExpression(h.condition, t).1;
    var n1 := LowerAsBlock(s.kind.thenBranch, x, n).value.1;
    var t2 := EmitStatements(h.thenBranch, t1).1;
    BodyDiverges(s.kind.thenBranch, x, n, t1);
    StatementDiverges(s.kind.elseBranch.value, x, n1, t2);
    ElseDiverges(h.elseBranch.value, t2);
    OneDiverges(EmitIf(h, t).0[0]);
  }

  lemma ElseDiverges(h: Hir.Statement, t: nat)
    requires SomeDiverges(EmitStatement(h, t).0)
    ensures SomeDiverges(EmitElse(Some(h), t).0)
  {
    if h.Block? {
      OneDiverges(Rust.Braces(EmitStatements(h.statements, t).0));
    }
  }

  lemma {:induction false} TryDiverges(s: SourceStatement, x: Enclosing, n: Counters, t: nat)
    requires s.kind.Try? && LoweredTry(s, x, n).Success? && DefinitelyReturns(s)
    ensures SomeDiverges(EmitStatement(LoweredTry(s, x, n).value.0, t).0)
    decreases s, 0
  {
    var h := LoweredTry(s, x, n).value.0;
    var n1 := LowerBlock(s.kind.guarded, InTry(x, n.tries), n.(tries := n.tries + 1)).value.1;
    var t1 := EmitStatements(h.guarded, t + 1).1;
    CatchesDiverge(s.kind.catches, InCatch(x, n.tries), n1, h.errorName, h.unmatchedTarget, t1);
    TestDiverges(h, t);
  }

  /** The test behind the guarded block. */
  lemma TestDiverges(h: Hir.Statement, t: nat)
    requires h.Try? && h.diverges
    requires var t1 := EmitStatements(h.guarded, t + 1).1;
             SomeDiverges(EmitCatches(h.catches, h.errorName, h.unmatchedTarget, t1).0)
    ensures SomeDiverges(EmitStatement(h, t).0)
  {
    var (body, t1) := EmitStatements(h.guarded, t + 1);
    var handlers := EmitCatches(h.catches, h.errorName, h.unmatchedTarget, t1).0;
    var completion := if h.bodyFallsThrough then [Rust.BreakWith(h.tag, Rust.OkUnit)] else [];
    var test := Rust.MatchDiverging(h.errorName, Temporary(t), handlers);
    OneDiverges(test);
    SomeDivergesAppend([Rust.LetLabelled(Temporary(t), h.tag, [Rust.Braces(body)] + completion)], [test]);
  }

  lemma {:induction false} CatchesDiverge(
    catches: seq<SourceCatch>, x: Enclosing, n: Counters, error: Name, unmatched: Hir.ExceptionTarget, t: nat)
    requires LowerCatches(catches, x, n).Success? && AllDefinitelyReturn(catches)
    ensures SomeDiverges(EmitCatches(LowerCatches(catches, x, n).value.0, error, unmatched, t).0)
    decreases catches
  {
    if |catches| == 0 {
      OneDiverges(ExceptionPropagation(unmatched, Rust.Variable(error)));
    } else {
      var (body, n1) := LowerClauseBody(catches[0], x, n).value;
      var h := Hir.Catch(Filter(catches[0]), body);
      var hs := LowerCatches(catches[1..], x, n1).value.0;
      var (otherwise, t1) := EmitCatches(hs, error, unmatched, t);
      assert ([h] + hs)[1..] == hs;
      CatchesDiverge(catches[1..], x, n1, error, unmatched, t);
      HandlerDiverges(catches[0], x, n, t1);
      OneDiverges(Rust.Braces(EmitStatements(body, t1).0));
      OneDiverges(EmitCatch(h, error, otherwise, t1).0[0]);
    }
  }

  lemma {:induction false} HandlerDiverges(clause: SourceCatch, x: Enclosing, n: Counters, t: nat)
    requires LowerClauseBody(clause, x, n).Success? && ClauseDefinitelyReturns(clause)
    ensures SomeDiverges(EmitStatements(LowerClauseBody(clause, x, n).value.0, t).0)
    decreases clause
  {
    StatementsDiverge(clause.body.statements, x, n, t);
  }

  /** A body that returns on every path is emitted as one whose end cannot be reached. */
  lemma ReturningBodiesDiverge(signature: Signature, body: SourceBlock, n: Counters, t: nat)
    requires LowerFunction(signature, body, n).Success? && BlockDefinitelyReturns(body)
    ensures SomeDiverges(Compile(signature, body, n, t))
  {
    StatementsDiverge(body.statements, FunctionStart(signature), n, t);
    CompileSplits(signature, body, n, t);
    var (rs, t1) := CompiledBody(signature, body, n, t);
    SomeDivergesAppend(rs, EmitStatements(ImplicitReturn(signature, body), t1).0);
  }

  // ----- the two judgements -----

  /** No jump leaves the statement for a loop around it. */
  predicate StaysIn(s: SourceStatement)
    decreases s
  {
    match s.kind
    case Break => false
    case Continue => false
    case BlockStatement(b) => AllStayIn(b.statements)
    case If(_, yes, no) => StaysIn(yes) && (no.Some? ==> StaysIn(no.value))
    case Try(guarded, catches) => AllStayIn(guarded.statements) && CatchesStayIn(catches)
    case _ => true
  }

  predicate AllStayIn(ss: seq<SourceStatement>)
    decreases ss
  {
    |ss| == 0 || (StaysIn(ss[0]) && AllStayIn(ss[1..]))
  }

  predicate CatchesStayIn(catches: seq<SourceCatch>)
    decreases catches
  {
    |catches| == 0 || (ClauseStaysIn(catches[0]) && CatchesStayIn(catches[1..]))
  }

  predicate ClauseStaysIn(clause: SourceCatch)
    decreases clause
  {
    AllStayIn(clause.body.statements)
  }

  lemma {:induction false} LastStaysIn(ss: seq<SourceStatement>)
    requires AllStayIn(ss) && |ss| > 0
    ensures StaysIn(Last(ss))
    decreases ss
  {
    if |ss| > 1 {
      LastStaysIn(ss[1..]);
    }
  }

  lemma {:induction false} JudgementsAgree(s: SourceStatement)
    requires StaysIn(s)
    ensures DefinitelyReturns(s) <==> !MayFallThrough(s)
    decreases s
  {
    match s.kind
    case BlockStatement(b) => BlockJudgementsAgree(b);
    case If(_, yes, no) =>
      JudgementsAgree(yes);
      if no.Some? {
        JudgementsAgree(no.value);
      }
    case Try(guarded, catches) =>
      BlockJudgementsAgree(guarded);
      CatchJudgementsAgree(catches);
    case _ =>
  }

  /** Where no jump leaves a block, it returns on every path exactly if it does not fall through. */
  lemma {:induction false} BlockJudgementsAgree(b: SourceBlock)
    requires AllStayIn(b.statements)
    ensures BlockDefinitelyReturns(b) <==> !BlockMayFallThrough(b)
    decreases b
  {
    if |b.statements| > 0 {
      LastStaysIn(b.statements);
      JudgementsAgree(Last(b.statements));
    }
  }

  lemma {:induction false} CatchJudgementsAgree(catches: seq<SourceCatch>)
    requires CatchesStayIn(catches)
    ensures AllDefinitelyReturn(catches) <==> !AnyMayFallThrough(catches)
    decreases catches
  {
    if |catches| > 0 {
      ClauseJudgementsAgree(catches[0]);
      CatchJudgementsAgree(catches[1..]);
    }
  }

  lemma {:induction false} ClauseJudgementsAgree(clause: SourceCatch)
    requires ClauseStaysIn(clause)
    ensures ClauseDefinitelyReturns(clause) <==> !ClauseMayFallThrough(clause)
    decreases clause
  {
    BlockJudgementsAgree(clause.body);
  }

  /** A return is added to a void body exactly if the function has something to return and its end may be reached. */
  lemma ImplicitReturns(signature: Signature, body: SourceBlock, n: Counters)
    requires LowerFunction(signature, body, n).Success? && AllStayIn(body.statements)
    ensures var hs := LowerFunction(signature, body, n).value.0;
            var own := LowerBlock(body, FunctionStart(signature), n).value.0;
            var needed :=
              signature.isVoid && (signature.throwing || signature.hasReceiver) && BlockMayFallThrough(body);
            own <= hs && |hs| == |own| + if needed then 1 else 0
  {
    BlockJudgementsAgree(body);
  }
}
