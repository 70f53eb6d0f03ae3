/**
 Lowering followed by emission preserves meaning: for every amount of fuel the emitted Rust ends
 as the source program does, with the same visible variables and the same calls made.
 */
module LoweringCorrect {
  import opened Wrappers
  import opened Ast
  import opened Values
  import opened Divergence
  import opened SourceSemantics
  import opened Lowering
  import opened Codegen
  import DivergenceSound
  import Hir
  import Rust = RustTarget

  ghost predicate Related(m: Machine, r: Rust.Machine) {
    m.env == Visible(r.env) && m.world == r.world
  }

  /** Where an exception raised under `target` ends up. */
  ghost predicate Raised(error: Value, j: Rust.Jump, target: Hir.ExceptionTarget) {
    match target
    case ToFunction => j == Rust.Exit(Err(error))
    case ToTry(tag) => j == Rust.BreakTo(tag, Some(Err(error)))
    case Unreachable => j == Rust.Panic
  }

  /** The jump that stands for completion `k` inside the constructs `x`. */
  ghost predicate Matches(k: Completion, j: Rust.Jump, x: Enclosing) {
    match k
    case Normal => j == Rust.Next
    case Breaking => |x.loops| > 0 && j == Rust.BreakTo(Last(x.loops), None)
    case Continuing => |x.loops| > 0 && j == Rust.ContinueTo(Last(x.loops))
    case Returning(v) => j == Rust.Exit(if x.throwing then Ok(v) else v)
    case Throwing(e) => Raised(e, j, x.target) || Raised(e, j, UnmatchedTarget(x))
    case OutOfFuel => j == Rust.OutOfFuel
  }

  /** A source outcome and a target outcome agree; `before` is the target environment at the start. */
  ghost predicate Agree(k: Completion, m: Machine, j: Rust.Jump, r: Rust.Machine, before: Env, x: Enclosing) {
    && Matches(k, j, x)
    && (k.OutOfFuel? || (Related(m, r) && Settles(before, r.env)))
  }

  ghost predicate CaughtMatches(x: Enclosing, caught: Option<Value>, env: Env) {
    x.caught.Some? ==> x.caught.value.TryError? && caught.Some? && Lookup(env, x.caught.value) == caught.value
  }

  /** What must hold where a statement starts. */
  ghost predicate Ready(c: Context, x: Enclosing, caught: Option<Value>, m: Machine, r: Rust.Machine) {
    && c.fluent == x.fluent
    && !x.target.Unreachable?
    && (x.target.ToTry? ==> x.target.tag.TryLabel?)
    && (forall i :: 0 <= i < |x.loops| ==> x.loops[i].LoopLabel?)
    && Related(m, r)
    && CaughtMatches(x, caught, r.env)
  }

  // ----- environments -----

  lemma SettlesTransitive(a: Env, b: Env, c: Env)
    requires Settles(a, b) && Settles(b, c)
    ensures Settles(a, c)
  {
    forall i | |a| <= i < |c|
      ensures !c[i].0.TryError?
    {
      if i < |b| {
        assert b[i].0 == c[i].0;
      }
    }
  }

  /** A caught error stays readable while the statements of its handler run. */
  lemma CaughtKept(x: Enclosing, caught: Option<Value>, before: Env, after: Env)
    requires CaughtMatches(x, caught, before) && Settles(before, after)
    ensures CaughtMatches(x, caught, after)
  {
    if x.caught.Some? {
      HiddenLookup(before, after, x.caught.value);
    }
  }

  lemma LeavingAgrees(
    k: Completion, m: Machine, j: Rust.Jump, r: Rust.Machine, m0: Machine, r0: Rust.Machine, x: Enclosing)
    requires Agree(k, m, j, r, r0.env, x) && Related(m0, r0)
    ensures Agree(k, Leave(|m0.env|, m), j, Rust.Leave(|r0.env|, r), r0.env, x)
    ensures !k.OutOfFuel? ==> |Rust.Leave(|r0.env|, r).env| == |r0.env|
  {
    if !k.OutOfFuel? {
      VisibleTruncate(r0.env, r.env);
    }
  }

  /** As above, when the target started with one more variable than the environment it leaves to. */
  lemma LeavingScope(
    k: Completion, m: Machine, j: Rust.Jump, r: Rust.Machine, m0: Machine, r0: Rust.Machine, pushed: Env, x: Enclosing)
    requires Agree(k, m, j, r, r0.env + pushed, x) && Related(m0, r0)
    ensures Agree(k, Leave(|m0.env|, m), j, Rust.Leave(|r0.env|, r), r0.env, x)
    ensures !k.OutOfFuel? ==> |Rust.Leave(|r0.env|, r).env| == |r0.env|
  {
    if !k.OutOfFuel? {
      assert Continues(r0.env, r0.env + pushed);
      assert Continues(r0.env, r.env);
      VisibleTruncate(r0.env, r.env);
    }
  }

  lemma PushVisible(m: Machine, r: Rust.Machine, n: Name, v: Value)
    requires Related(m, r) && IsVisible(n)
    ensures Related(m.(env := m.env + [(n, v)]), Rust.Push(r, n, v))
    ensures Settles(r.env, Rust.Push(r, n, v).env)
  {
    VisibleAppend(r.env, [(n, v)]);
    assert Visible([(n, v)]) == [(n, v)] by {
      assert [(n, v)][..0] == [];
    }
  }

  lemma PushHidden(m: Machine, r: Rust.Machine, n: Name, v: Value)
    requires Related(m, r) && !IsVisible(n)
    ensures Related(m, Rust.Push(r, n, v))
    ensures Continues(r.env, Rust.Push(r, n, v).env)
  {
    VisibleAppend(r.env, [(n, v)]);
    assert Visible([(n, v)]) == [] by {
      assert [(n, v)][..0] == [];
    }
  }

  // ----- expressions -----

  /** Source and target agree on one evaluation that started in `before`. */
  ghost predicate ValuesAgree(
    v: Evaluated, m: Machine, w: Rust.Evaluated, r: Rust.Machine, before: Env, target: Hir.ExceptionTarget)
  {
    && (v.Produced? ==> w == Rust.Yields(v.value))
    && (v.Raises? ==> w.Jumps? && Raised(v.error, w.jump, target))
    && Related(m, r) && Continues(before, r.env) && |r.env| == |before|
  }

  function Compiled(e: FlowExpression, target: Hir.ExceptionTarget, t: nat): Rust.Expression {
    EmitExpression(LowerExpression(e, target), t).0
  }

  lemma {:induction false} EvalAgrees(
    o: Oracle, e: FlowExpression, target: Hir.ExceptionTarget, t: nat, m: Machine, r: Rust.Machine, fuel: nat)
    requires Related(m, r)
    ensures EvalSimulated(o, e, target, t, m, r, fuel)
    decreases e
  {
    match e
    case Name(name) => VisibleLookup(r.env, Source(name));
    case Literal(_) =>
    case Assign(name, right) =>
      EvalAgrees(o, right, target, t, m, r, fuel);
      AssignAgrees(o, name, right, target, t, m, r, fuel);
    case Logical(_, left, right) =>
      EvalAgrees(o, left, target, t, m, r, fuel);
      var m1, r1 := Eval(o, left, m).1, Rust.Eval(o, Compiled(left, target, t), r, fuel).1;
      EvalAgrees(o, right, target, EmitExpression(LowerExpression(left, target), t).1, m1, r1, fuel);
      LogicalAgrees(o, e, target, t, m, r, fuel);
    case Call(callee, arguments, throws) =>
      ArgumentsAgree(o, arguments, target, t, m, r, fuel);
      CallAgrees(o, callee, arguments, throws, target, t, m, r, fuel);
  }

  /** Source and target agree on the evaluation of `e`. */
  ghost predicate EvalSimulated(
    o: Oracle, e: FlowExpression, target: Hir.ExceptionTarget, t: nat, m: Machine, r: Rust.Machine, fuel: nat)
  {
    var (v, m1) := Eval(o, e, m);
    var (w, r1) := Rust.Eval(o, Compiled(e, target, t), r, fuel);
    ValuesAgree(v, m1, w, r1, r.env, target)
  }

  lemma LogicalAgrees(
    o: Oracle, e: FlowExpression, target: Hir.ExceptionTarget, t: nat, m: Machine, r: Rust.Machine, fuel: nat)
    requires e.Logical? && EvalSimulated(o, e.left, target, t, m, r, fuel)
    requires EvalSimulated(
               o, e.right, target, EmitExpression(LowerExpression(e.left, target), t).1, Eval(o, e.left, m).1,
               Rust.Eval(o, Compiled(e.left, target, t), r, fuel).1, fuel)
    ensures EvalSimulated(o, e, target, t, m, r, fuel)
  {
    var t1 := EmitExpression(LowerExpression(e.left, target), t).1;
    assert Compiled(e, target, t)
      == Rust.Logical(e.conjunction, Compiled(e.left, target, t), Compiled(e.right, target, t1));
    OperandsAgree(o, e, Compiled(e, target, t), target, m, r, fuel);
  }

  lemma OperandsAgree(
    o: Oracle, e: FlowExpression, emitted: Rust.Expression, target: Hir.ExceptionTarget, m: Machine, r: Rust.Machine,
    fuel: nat)
    requires e.Logical? && emitted.Logical? && emitted.conjunction == e.conjunction
    requires var (v, m1) := Eval(o, e.left, m);
             var (w, r1) := Rust.Eval(o, emitted.left, r, fuel);
             var (v2, m2) := Eval(o, e.right, m1);
             var (w2, r2) := Rust.Eval(o, emitted.right, r1, fuel);
             ValuesAgree(v, m1, w, r1, r.env, target) && ValuesAgree(v2, m2, w2, r2, r1.env, target)
    ensures var (v, m1) := Eval(o, e, m);
            var (w, r1) := Rust.Eval(o, emitted, r, fuel);
            ValuesAgree(v, m1, w, r1, r.env, target)
  {
    var (v, m1) := Eval(o, e.left, m);
    var (w, r1) := Rust.Eval(o, emitted.left, r, fuel);
    if v.Produced? && Truthy(v.value) == e.conjunction {
      ContinuesTransitive(r.env, r1.env, Rust.Eval(o, emitted.right, r1, fuel).1.env);
    }
  }

  /** Writing the same value to a source variable on both sides. */
  lemma UpdateAgrees(before: Env, name: Name, v: Value, m: Machine, r: Rust.Machine)
    requires name.Source? && Related(m, r) && Continues(before, r.env) && |r.env| == |before|
    ensures Related(m.(env := Update(m.env, name, v)), r.(env := Update(r.env, name, v)))
    ensures Continues(before, Update(r.env, name, v)) && |Update(r.env, name, v)| == |before|
  {
    VisibleUpdate(r.env, name, v);
    UpdateContinues(r.env, name, v);
    ContinuesTransitive(before, r.env, Update(r.env, name, v));
  }

  lemma AssignAgrees(
    o: Oracle, name: string, right: FlowExpression, target: Hir.ExceptionTarget, t: nat,
    m: Machine, r: Rust.Machine, fuel: nat)
    requires EvalSimulated(o, right, target, t, m, r, fuel)
    ensures EvalSimulated(o, Assign(name, right), target, t, m, r, fuel)
  {
    var (v, m1) := Eval(o, right, m);
    var (w, r1) := Rust.Eval(o, Compiled(right, target, t), r, fuel);
    assert Compiled(Assign(name, right), target, t) == Rust.Assign(Source(name), Compiled(right, target, t));
    if v.Produced? {
      UpdateAgrees(r.env, Source(name), v.value, m1, r1);
    }
  }

  /** The conclusion of `ArgumentsAgree`. */
  ghost predicate SameArguments(
    o: Oracle, es: seq<FlowExpression>, target: Hir.ExceptionTarget, t: nat, m: Machine, r: Rust.Machine, fuel: nat)
  {
    var (failed, values, m1) := EvalArguments(o, es, m);
    var (jumped, results, r1) := Rust.EvalArguments(o, EmitExpressions(LowerArguments(es, target), t).0, r, fuel);
    && (failed.None? ==> jumped.None? && results == values)
    && (failed.Some? ==> jumped.Some? && Raised(failed.value, jumped.value, target))
    && Related(m1, r1) && Continues(r.env, r1.env) && |r1.env| == |r.env|
  }

  lemma {:induction false} ArgumentsAgree(
    o: Oracle, es: seq<FlowExpression>, target: Hir.ExceptionTarget, t: nat, m: Machine, r: Rust.Machine, fuel: nat)
    requires Related(m, r)
    ensures SameArguments(o, es, target, t, m, r, fuel)
    decreases es
  {
    if |es| > 0 {
      EvalAgrees(o, es[0], target, t, m, r, fuel);
      var (v, m1) := Eval(o, es[0], m);
      var (first, t1) := EmitExpression(LowerExpression(es[0], target), t);
      var (w, r1) := Rust.Eval(o, first, r, fuel);
      var rest := EmitExpressions(LowerArguments(es[1..], target), t1).0;
      assert LowerArguments(es, target)[1..] == LowerArguments(es[1..], target);
      assert EmitExpressions(LowerArguments(es, target), t).0[1..] == rest;
      if v.Produced? {
        ArgumentsAgree(o, es[1..], target, t1, m1, r1, fuel);
        ContinuesTransitive(r.env, r1.env, Rust.EvalArguments(o, rest, r1, fuel).2.env);
      }
    }
  }

  /** The generated `match` hands the value of a call on, or its error to the current target. */
  lemma CallAgrees(
    o: Oracle, callee: nat, es: seq<FlowExpression>, throws: bool, target: Hir.ExceptionTarget, t: nat,
    m: Machine, r: Rust.Machine, fuel: nat)
    requires SameArguments(o, es, target, t, m, r, fuel)
    ensures var (v, m1) := Eval(o, Call(callee, es, throws), m);
            var (w, r1) := Rust.Eval(
              o, EmitExpression(LowerCall(callee, LowerArguments(es, target), throws, target), t).0, r, fuel);
            ValuesAgree(v, m1, w, r1, r.env, target)
  {
    InvocationAgrees(o, callee, es, throws, target, t, m, r, fuel);
    if throws {
      PropagatedCall(o, callee, es, target, t, m, r, fuel);
    }
  }

  lemma PropagatedCall(
    o: Oracle, callee: nat, es: seq<FlowExpression>, target: Hir.ExceptionTarget, t: nat, m: Machine, r: Rust.Machine,
    fuel: nat)
    requires Invoked(o, callee, es, true, target, t, m, r, fuel)
    ensures var (v, m1) := Eval(o, Call(callee, es, true), m);
            var (w, r1) := Rust.Eval(
              o, EmitExpression(LowerCall(callee, LowerArguments(es, target), true, target), t).0, r, fuel);
            ValuesAgree(v, m1, w, r1, r.env, target)
  {
    var (arguments, t1) := EmitExpressions(LowerArguments(es, target), t);
    var call := Rust.Call(callee, arguments, true);
    var (w, r1) := Rust.Eval(o, call, r, fuel);
    if EvalArguments(o, es, m).0.None? {
      ResultMatched(o, call, Temporary(t1), target, r, fuel);
    } else {
      var arm := [ExceptionPropagation(target, Rust.Variable(Temporary(t1)))];
      assert Rust.Eval(o, Rust.MatchResult(call, Temporary(t1), arm), r, fuel) == (w, r1);
    }
  }

  /** The call itself, before its result is looked at. */
  ghost predicate Invoked(
    o: Oracle, callee: nat, es: seq<FlowExpression>, throws: bool, target: Hir.ExceptionTarget, t: nat,
    m: Machine, r: Rust.Machine, fuel: nat)
  {
    var (v, m1) := Eval(o, Call(callee, es, throws), m);
    var failed := EvalArguments(o, es, m).0;
    var arguments := EmitExpressions(LowerArguments(es, target), t).0;
    var (w, r1) := Rust.Eval(o, Rust.Call(callee, arguments, throws), r, fuel);
    && Related(m1, r1) && Continues(r.env, r1.env) && |r1.env| == |r.env|
    && (failed.Some? ==> v == Raises(failed.value) && w.Jumps? && Raised(failed.value, w.jump, target))
    && (failed.None? && !throws ==> v.Produced?)
    && (failed.None? ==>
          w == Rust.Yields(if v.Produced? then (if throws then Ok(v.value) else v.value) else Err(v.error)))
  }

  lemma InvocationAgrees(
    o: Oracle, callee: nat, es: seq<FlowExpression>, throws: bool, target: Hir.ExceptionTarget, t: nat,
    m: Machine, r: Rust.Machine, fuel: nat)
    requires SameArguments(o, es, target, t, m, r, fuel)
    ensures Invoked(o, callee, es, throws, target, t, m, r, fuel)
  {
  }

  /** The generated `match` on a result. */
  lemma ResultMatched(
    o: Oracle, scrutinee: Rust.Expression, error: Name, target: Hir.ExceptionTarget, r: Rust.Machine, fuel: nat)
    requires Rust.Eval(o, scrutinee, r, fuel).0.Yields?
    requires var v := Rust.Eval(o, scrutinee, r, fuel).0.value;
             v.Ok? || v.Err?
    ensures var (w, r1) := Rust.Eval(o, scrutinee, r, fuel);
            var arm := [ExceptionPropagation(target, Rust.Variable(error))];
            var (u, r2) := Rust.Eval(o, Rust.MatchResult(scrutinee, error, arm), r, fuel);
            && r2 == r1
            && (w.value.Ok? ==> u == Rust.Yields(w.value.inner))
            && (w.value.Err? ==> u.Jumps? && Raised(w.value.error, u.jump, target))
  {
    var (w, r1) := Rust.Eval(o, scrutinee, r, fuel);
    if w.value.Err? {
      LookupPushed(r1.env, error, w.value.error);
      PropagationRaises(o, target, error, w.value.error, Rust.Push(r1, error, w.value.error), fuel);
      assert Truncate(r1.env + [(error, w.value.error)], |r1.env|) == r1.env;
    }
  }

  lemma PropagationRaises(
    o: Oracle, target: Hir.ExceptionTarget, error: Name, x: Value, r: Rust.Machine, fuel: nat)
    requires Lookup(r.env, error) == x
    ensures var (j, r1) := Rust.ExecStatements(o, [ExceptionPropagation(target, Rust.Variable(error))], r, fuel);
            Raised(x, j, target) && r1 == r
  {
    SingleStatement(o, ExceptionPropagation(target, Rust.Variable(error)), r, fuel);
    assert Rust.Eval(o, Rust.Variable(error), r, fuel) == (Rust.Yields(x), r);
    assert Rust.Eval(o, Rust.ErrOf(Rust.Variable(error)), r, fuel) == (Rust.Yields(Err(x)), r);
  }

  // ----- sequences of emitted statements -----

  lemma SingleStatement(o: Oracle, s: Rust.Statement, r: Rust.Machine, fuel: nat)
    ensures Rust.ExecStatements(o, [s], r, fuel) == Rust.Exec(o, s, r, fuel)
  {
    var (j, r1) := Rust.Exec(o, s, r, fuel);
    assert [s][1..] == [];
  }

  lemma {:induction false} StatementsAppend(
    o: Oracle, a: seq<Rust.Statement>, b: seq<Rust.Statement>, r: Rust.Machine, fuel: nat)
    ensures var (j, r1) := Rust.ExecStatements(o, a, r, fuel);
            Rust.ExecStatements(o, a + b, r, fuel)
            == if j.Next? then Rust.ExecStatements(o, b, r1, fuel) else (j, r1)
    decreases |a|
  {
    if |a| == 0 {
      assert a + b == b;
    } else {
      assert (a + b)[0] == a[0] && (a + b)[1..] == a[1..] + b;
      var (j, r1) := Rust.Exec(o, a[0], r, fuel);
      StatementsAppend(o, a[1..], b, r1, fuel);
    }
  }

  // ----- statements -----

  /** The emitted statements end as the source does. */
  ghost predicate Simulated(
    o: Oracle, end: (Completion, Machine), emitted: seq<Rust.Statement>, r: Rust.Machine, fuel: nat, x: Enclosing)
  {
    var (j, r1) := Rust.ExecStatements(o, emitted, r, fuel);
    Agree(end.0, end.1, j, r1, r.env, x)
  }

  ghost predicate OneSimulated(
    o: Oracle, end: (Completion, Machine), emitted: Rust.Statement, r: Rust.Machine, fuel: nat, x: Enclosing)
  {
    var (j, r1) := Rust.Exec(o, emitted, r, fuel);
    Agree(end.0, end.1, j, r1, r.env, x)
  }

  lemma OneIsSimulated(
    o: Oracle, end: (Completion, Machine), emitted: Rust.Statement, r: Rust.Machine, fuel: nat, x: Enclosing)
    requires OneSimulated(o, end, emitted, r, fuel, x)
    ensures Simulated(o, end, [emitted], r, fuel, x)
  {
    SingleStatement(o, emitted, r, fuel);
  }

  /** The conclusions of the lemmas below, one for each way statements are grouped. */
  ghost predicate StatementSimulated(
    c: Context, x: Enclosing, n: Counters, s: SourceStatement, t: nat,
    caught: Option<Value>, m: Machine, r: Rust.Machine, fuel: nat)
  {
    && LowerStatement(s, x, n).Success?
    && Simulated(
         c.oracle, Exec(c, s, caught, m, fuel), EmitStatement(LowerStatement(s, x, n).value.0, t).0, r, fuel, x)
  }

  ghost predicate ListSimulated(
    c: Context, x: Enclosing, n: Counters, ss: seq<SourceStatement>, t: nat,
    caught: Option<Value>, m: Machine, r: Rust.Machine, fuel: nat)
  {
    && LowerStatements(ss, x, n).Success?
    && Simulated(
         c.oracle, ExecStatements(c, ss, caught, m, fuel), EmitStatements(LowerStatements(ss, x, n).value.0, t).0, r,
         fuel, x)
  }

  /** Agreement of two scopes that were left: nothing stays behind in the target either. */
  ghost predicate AgreeScoped(k: Completion, m: Machine, j: Rust.Jump, r: Rust.Machine, before: Env, x: Enclosing) {
    Agree(k, m, j, r, before, x) && (!k.OutOfFuel? ==> |r.env| == |before|)
  }

  ghost predicate ScopeSimulated(
    o: Oracle, end: (Completion, Machine), emitted: seq<Rust.Statement>, r: Rust.Machine, fuel: nat, x: Enclosing)
  {
    var (j, r1) := Rust.ExecBraces(o, emitted, r, fuel);
    AgreeScoped(end.0, end.1, j, r1, r.env, x)
  }

  /** Statements in a scope of their own. */
  lemma ScopeLeft(
    o: Oracle, end: (Completion, Machine), emitted: seq<Rust.Statement>, m: Machine, r: Rust.Machine, fuel: nat,
    x: Enclosing)
    requires Simulated(o, end, emitted, r, fuel, x) && Related(m, r)
    ensures ScopeSimulated(o, (end.0, Leave(|m.env|, end.1)), emitted, r, fuel, x)
  {
    var (j, r1) := Rust.ExecStatements(o, emitted, r, fuel);
    LeavingAgrees(end.0, end.1, j, r1, m, r, x);
  }

  ghost predicate BlockSimulated(
    c: Context, x: Enclosing, n: Counters, b: SourceBlock, t: nat,
    caught: Option<Value>, m: Machine, r: Rust.Machine, fuel: nat)
  {
    && LowerBlock(b, x, n).Success?
    && ScopeSimulated(
         c.oracle, ExecBlock(c, b, caught, m, fuel), EmitStatements(LowerBlock(b, x, n).value.0, t).0, r, fuel, x)
  }

  ghost predicate BodySimulated(
    c: Context, x: Enclosing, n: Counters, s: SourceStatement, t: nat,
    caught: Option<Value>, m: Machine, r: Rust.Machine, fuel: nat)
  {
    && LowerAsBlock(s, x, n).Success?
    && ScopeSimulated(
         c.oracle, ExecScoped(c, s, caught, m, fuel), EmitStatements(LowerAsBlock(s, x, n).value.0, t).0, r, fuel, x)
  }

  /** One part after another, on both sides. */
  lemma Sequenced(
    o: Oracle, first: (Completion, Machine), rest: (Completion, Machine), a: seq<Rust.Statement>,
    b: seq<Rust.Statement>, r: Rust.Machine, fuel: nat, x: Enclosing)
    requires Simulated(o, first, a, r, fuel, x)
    requires first.0.Normal? ==> Simulated(o, rest, b, Rust.ExecStatements(o, a, r, fuel).1, fuel, x)
    ensures Simulated(o, if first.0.Normal? then rest else first, a + b, r, fuel, x)
  {
    StatementsAppend(o, a, b, r, fuel);
    var r1 := Rust.ExecStatements(o, a, r, fuel).1;
    if first.0.Normal? && !rest.0.OutOfFuel? {
      SettlesTransitive(r.env, r1.env, Rust.ExecStatements(o, b, r1, fuel).1.env);
    }
  }

  lemma ListEmission(h: Hir.Statement, hs: seq<Hir.Statement>, t: nat)
    ensures var (first, t1) := EmitStatement(h, t);
            EmitStatements([h] + hs, t).0 == first + EmitStatements(hs, t1).0
  {
    assert ([h] + hs)[1..] == hs;
  }

  lemma {:induction false} ListAgrees(
    c: Context, x: Enclosing, n: Counters, ss: seq<SourceStatement>, t: nat,
    caught: Option<Value>, m: Machine, r: Rust.Machine, fuel: nat)
    requires Ready(c, x, caught, m, r) && LowerStatements(ss, x, n).Success?
    ensures ListSimulated(c, x, n, ss, t, caught, m, r, fuel)
    decreases fuel, ss, 1
  {
    if |ss| > 0 {
      if ss[0].kind.Empty? {
        ListAgrees(c, x, n, ss[1..], t, caught, m, r, fuel);
        EmptySkipped(c, ss, caught, m, fuel);
      } else {
        FirstAgrees(c, x, n, ss, t, caught, m, r, fuel);
      }
    }
  }

  lemma EmptySkipped(c: Context, ss: seq<SourceStatement>, caught: Option<Value>, m: Machine, fuel: nat)
    requires |ss| > 0 && ss[0].kind.Empty?
    ensures ExecStatements(c, ss, caught, m, fuel) == ExecStatements(c, ss[1..], caught, m, fuel)
  {
  }

  lemma {:induction false} FirstAgrees(
    c: Context, x: Enclosing, n: Counters, ss: seq<SourceStatement>, t: nat,
    caught: Option<Value>, m: Machine, r: Rust.Machine, fuel: nat)
    requires |ss| > 0 && !ss[0].kind.Empty?
    requires Ready(c, x, caught, m, r) && LowerStatements(ss, x, n).Success?
    ensures ListSimulated(c, x, n, ss, t, caught, m, r, fuel)
    decreases fuel, ss, 0
  {
    var (h, n1) := LowerStatement(ss[0], x, n).value;
    var hs := LowerStatements(ss[1..], x, n1).value.0;
    var (first, t1) := EmitStatement(h, t);
    var (k, m1) := Exec(c, ss[0], caught, m, fuel);
    var r1 := Rust.ExecStatements(c.oracle, first, r, fuel).1;
    StatementAgrees(c, x, n, ss[0], t, caught, m, r, fuel);
    if k.Normal? {
      CaughtKept(x, caught, r.env, r1.env);
      ListAgrees(c, x, n1, ss[1..], t1, caught, m1, r1, fuel);
    }
    ListEmission(h, hs, t);
    Sequenced(
      c.oracle, (k, m1), ExecStatements(c, ss[1..], caught, m1, fuel), first, EmitStatements(hs, t1).0, r, fuel, x);
  }

  lemma {:induction false} BlockAgrees(
    c: Context, x: Enclosing, n: Counters, b: SourceBlock, t: nat,
    caught: Option<Value>, m: Machine, r: Rust.Machine, fuel: nat)
    requires Ready(c, x, caught, m, r) && LowerBlock(b, x, n).Success?
    ensures BlockSimulated(c, x, n, b, t, caught, m, r, fuel)
    decreases fuel, b
  {
    ListAgrees(c, x, n, b.statements, t, caught, m, r, fuel);
    ScopeLeft(
      c.oracle, ExecStatements(c, b.statements, caught, m, fuel), EmitStatements(LowerBlock(b, x, n).value.0, t).0,
      m, r, fuel, x);
  }

  lemma OneEmission(h: Hir.Statement, t: nat)
    ensures EmitStatements([h], t).0 == EmitStatement(h, t).0
  {
    assert [h][1..] == [];
    assert EmitStatement(h, t).0 + [] == EmitStatement(h, t).0;
  }

  lemma {:induction false} BodyAgrees(
    c: Context, x: Enclosing, n: Counters, s: SourceStatement, t: nat,
    caught: Option<Value>, m: Machine, r: Rust.Machine, fuel: nat)
    requires Ready(c, x, caught, m, r) && LowerAsBlock(s, x, n).Success?
    ensures BodySimulated(c, x, n, s, t, caught, m, r, fuel)
    decreases fuel, s, 2
  {
    if s.kind.BlockStatement? {
      BlockAgrees(c, x, n, s.kind.block, t, caught, m, r, fuel);
      BlockScoped(c, s, caught, m, fuel);
    } else {
      var h := LowerStatement(s, x, n).value.0;
      StatementAgrees(c, x, n, s, t, caught, m, r, fuel);
      OneEmission(h, t);
      ScopeLeft(c.oracle, Exec(c, s, caught, m, fuel), EmitStatement(h, t).0, m, r, fuel, x);
    }
  }

  /** A block is a scope already. */
  lemma BlockScoped(c: Context, s: SourceStatement, caught: Option<Value>, m: Machine, fuel: nat)
    requires s.kind.BlockStatement?
    ensures ExecScoped(c, s, caught, m, fuel) == ExecBlock(c, s.kind.block, caught, m, fuel)
  {
    var k := ExecStatements(c, s.kind.block.statements, caught, m, fuel);
    assert Leave(|m.env|, Leave(|m.env|, k.1)) == Leave(|m.env|, k.1);
  }

  lemma {:induction false} StatementAgrees(
    c: Context, x: Enclosing, n: Counters, s: SourceStatement, t: nat,
    caught: Option<Value>, m: Machine, r: Rust.Machine, fuel: nat)
    requires Ready(c, x, caught, m, r) && LowerStatement(s, x, n).Success?
    ensures StatementSimulated(c, x, n, s, t, caught, m, r, fuel)
    decreases fuel, s, 1
  {
    if s.kind.BlockStatement? {
      BlockStatementAgrees(c, x, n, s, t, caught, m, r, fuel);
    } else if s.kind.Try? {
      TryAgrees(c, x, n, s, t, caught, m, r, fuel);
    } else if s.kind.If? {
      IfAgrees(c, x, n, s, t, caught, m, r, fuel);
    } else if s.kind.While? {
      WhileAgrees(c, x, n, s, t, caught, m, r, fuel);
    } else if s.kind.For? {
      ForAgrees(c, x, n, s, t, caught, m, r, fuel);
    } else {
      SimpleAgrees(c, x, n, s, t, caught, m, r, fuel);
    }
  }

  lemma {:induction false} ForAgrees(
    c: Context, x: Enclosing, n: Counters, s: SourceStatement, t: nat,
    caught: Option<Value>, m: Machine, r: Rust.Machine, fuel: nat)
    requires Ready(c, x, caught, m, r) && s.kind.For? && LowerStatement(s, x, n).Success?
    ensures StatementSimulated(c, x, n, s, t, caught, m, r, fuel)
    decreases fuel, s, 0, 6
  {
    if s.kind.clause.Classic? {
      ClassicForAgrees(c, x, n, s, t, caught, m, r, fuel);
    } else {
      RangeForAgrees(c, x, n, s, t, caught, m, r, fuel);
    }
  }

  lemma {:induction false} BlockStatementAgrees(
    c: Context, x: Enclosing, n: Counters, s: SourceStatement, t: nat,
    caught: Option<Value>, m: Machine, r: Rust.Machine, fuel: nat)
    requires Ready(c, x, caught, m, r) && s.kind.BlockStatement? && LowerStatement(s, x, n).Success?
    ensures StatementSimulated(c, x, n, s, t, caught, m, r, fuel)
    decreases fuel, s, 0
  {
    var b := s.kind.block;
    BlockAgrees(c, x, n, b, t, caught, m, r, fuel);
    OneIsSimulated(
      c.oracle, ExecBlock(c, b, caught, m, fuel), Rust.Braces(EmitStatements(LowerBlock(b, x, n).value.0, t).0), r,
      fuel, x);
  }

  /** Statements that contain no others. */
  predicate IsSimple(s: SourceStatement) {
    s.kind.Local? || s.kind.Return? || s.kind.Throw? || s.kind.Break? || s.kind.Continue? || s.kind.Expression?
    || s.kind.Empty?
  }

  lemma SimpleAgrees(
    c: Context, x: Enclosing, n: Counters, s: SourceStatement, t: nat,
    caught: Option<Value>, m: Machine, r: Rust.Machine, fuel: nat)
    requires Ready(c, x, caught, m, r) && IsSimple(s) && LowerStatement(s, x, n).Success?
    ensures StatementSimulated(c, x, n, s, t, caught, m, r, fuel)
  {
    if s.kind.Break? || s.kind.Continue? {
      JumpAgrees(c, x, n, s, t, caught, m, r, fuel);
    } else if s.kind.Throw? {
      ThrowAgrees(c, x, n, s.kind.error, t, caught, m, r, fuel);
    } else if s.kind.Local? {
      LocalStatementAgrees(c, x, n, s, t, caught, m, r, fuel);
    } else if s.kind.Return? {
      ReturnStatementAgrees(c, x, n, s, t, caught, m, r, fuel);
    } else {
      ExpressionStatementAgrees(c, x, n, s, t, caught, m, r, fuel);
    }
  }

  lemma LocalStatementAgrees(
    c: Context, x: Enclosing, n: Counters, s: SourceStatement, t: nat,
    caught: Option<Value>, m: Machine, r: Rust.Machine, fuel: nat)
    requires Ready(c, x, caught, m, r) && s.kind.Local?
    ensures StatementSimulated(c, x, n, s, t, caught, m, r, fuel)
  {
    LocalAgrees(c, x, s.kind.local, t, m, r, fuel);
    OneIsSimulated(c.oracle, Declare(c, s.kind.local, m), EmittedLocal(s.kind.local, x, t), r, fuel, x);
  }

  lemma ReturnStatementAgrees(
    c: Context, x: Enclosing, n: Counters, s: SourceStatement, t: nat,
    caught: Option<Value>, m: Machine, r: Rust.Machine, fuel: nat)
    requires Ready(c, x, caught, m, r) && s.kind.Return?
    ensures StatementSimulated(c, x, n, s, t, caught, m, r, fuel)
  {
    ReturnEmission(s.kind.value, x, t);
    ReturnAgrees(c, x, s.kind.value, t, caught, m, r, fuel);
    OneIsSimulated(c.oracle, ExecReturn(c, s.kind.value, m), EmittedReturn(s.kind.value, x, t), r, fuel, x);
  }

  lemma ExpressionStatementAgrees(
    c: Context, x: Enclosing, n: Counters, s: SourceStatement, t: nat,
    caught: Option<Value>, m: Machine, r: Rust.Machine, fuel: nat)
    requires Ready(c, x, caught, m, r) && s.kind.Expression?
    ensures StatementSimulated(c, x, n, s, t, caught, m, r, fuel)
  {
    EvaluationAgrees(c, x, s.kind.expression, t, m, r, fuel);
    OneIsSimulated(
      c.oracle, Discard(c, s.kind.expression, m), Rust.Evaluate(Compiled(s.kind.expression, x.target, t)), r, fuel, x);
    EvaluationEmission(x, n, s, t);
  }

  lemma EvaluationEmission(x: Enclosing, n: Counters, s: SourceStatement, t: nat)
    requires s.kind.Expression?
    ensures LowerStatement(s, x, n).Success?
    ensures EmitStatement(LowerStatement(s, x, n).value.0, t).0
            == [Rust.Evaluate(Compiled(s.kind.expression, x.target, t))]
  {
  }

  lemma EvaluationAgrees(
    c: Context, x: Enclosing, e: FlowExpression, t: nat, m: Machine, r: Rust.Machine, fuel: nat)
    requires Related(m, r)
    ensures OneSimulated(c.oracle, Discard(c, e, m), Rust.Evaluate(Compiled(e, x.target, t)), r, fuel, x)
  {
    EvalAgrees(c.oracle, e, x.target, t, m, r, fuel);
  }

  lemma JumpAgrees(
    c: Context, x: Enclosing, n: Counters, s: SourceStatement, t: nat,
    caught: Option<Value>, m: Machine, r: Rust.Machine, fuel: nat)
    requires Ready(c, x, caught, m, r) && (s.kind.Break? || s.kind.Continue?) && LowerStatement(s, x, n).Success?
    ensures StatementSimulated(c, x, n, s, t, caught, m, r, fuel)
  {
    var jump := if s.kind.Break? then Rust.Break(Last(x.loops)) else Rust.Continue(Last(x.loops));
    var end := (if s.kind.Break? then Breaking else Continuing, m);
    assert EmitStatement(LowerStatement(s, x, n).value.0, t).0 == [jump];
    JumpIsSimulated(c.oracle, x, s.kind.Break?, m, r, fuel);
    OneIsSimulated(c.oracle, end, jump, r, fuel, x);
  }

  lemma JumpIsSimulated(o: Oracle, x: Enclosing, breaks: bool, m: Machine, r: Rust.Machine, fuel: nat)
    requires |x.loops| > 0 && Related(m, r)
    ensures var jump := if breaks then Rust.Break(Last(x.loops)) else Rust.Continue(Last(x.loops));
            OneSimulated(o, (if breaks then Breaking else Continuing, m), jump, r, fuel, x)
  {
  }

  function EmittedLocal(local: LocalDeclaration<FlowExpression>, x: Enclosing, t: nat): Rust.Statement {
    Rust.Let(Source(local.name), EmitExpression(LowerLocal(local, x.target), t).0)
  }

  lemma LocalAgrees(
    c: Context, x: Enclosing, local: LocalDeclaration<FlowExpression>, t: nat, m: Machine, r: Rust.Machine, fuel: nat)
    requires Related(m, r)
    ensures OneSimulated(c.oracle, Declare(c, local, m), EmittedLocal(local, x, t), r, fuel, x)
  {
    LocalValueAgrees(c, x, local, t, m, r, fuel);
    var (v, m1) := LocalValue(c, local, m);
    var (w, r1) := Rust.Eval(c.oracle, EmitExpression(LowerLocal(local, x.target), t).0, r, fuel);
    if v.Produced? {
      PushVisible(m1, r1, Source(local.name), v.value);
    }
  }

  lemma LocalValueAgrees(
    c: Context, x: Enclosing, local: LocalDeclaration<FlowExpression>, t: nat, m: Machine, r: Rust.Machine, fuel: nat)
    requires Related(m, r)
    ensures var (v, m1) := LocalValue(c, local, m);
            var (w, r1) := Rust.Eval(c.oracle, EmitExpression(LowerLocal(local, x.target), t).0, r, fuel);
            ValuesAgree(v, m1, w, r1, r.env, x.target)
  {
    if local.initializer.Some? {
      EvalAgrees(c.oracle, local.initializer.value, x.target, t, m, r, fuel);
    } else {
      ArgumentsAgree(c.oracle, [], x.target, t, m, r, fuel);
      CallAgrees(c.oracle, local.implicitCall.callee, [], local.implicitCall.throws, x.target, t, m, r, fuel);
    }
  }

  /** Returning wraps the value in `Ok` exactly in throwing functions. */
  lemma ReturnOfAgrees(o: Oracle, e: Rust.Expression, x: Enclosing, r: Rust.Machine, fuel: nat)
    ensures var (w, r1) := Rust.Eval(o, e, r, fuel);
            Rust.Exec(o, Rust.Return(if x.throwing then Rust.OkOf(e) else e), r, fuel)
            == (if w.Jumps? then w.jump else Rust.Exit(if x.throwing then Ok(w.value) else w.value), r1)
  {
    var (w, r1) := Rust.Eval(o, e, r, fuel);
    assert Rust.Eval(o, Rust.OkOf(e), r, fuel) == (if w.Jumps? then w else Rust.Yields(Ok(w.value)), r1);
  }

  function EmittedReturn(value: Option<FlowExpression>, x: Enclosing, t: nat): Rust.Statement {
    if value.None? && !x.fluent then
      if x.throwing then Rust.Return(Rust.OkUnit) else Rust.ReturnUnit
    else
      var e := if value.Some? then Compiled(value.value, x.target, t) else Rust.Variable(Receiver);
      Rust.Return(if x.throwing then Rust.OkOf(e) else e)
  }

  lemma ReturnEmission(value: Option<FlowExpression>, x: Enclosing, t: nat)
    ensures EmitStatement(LowerReturn(value, x), t).0 == [EmittedReturn(value, x, t)]
  {
    assert EmitExpression(Hir.SuccessOf(Hir.Read(Receiver)), t) == (Rust.OkOf(Rust.Variable(Receiver)), t);
  }

  lemma ReturnAgrees(
    c: Context, x: Enclosing, value: Option<FlowExpression>, t: nat,
    caught: Option<Value>, m: Machine, r: Rust.Machine, fuel: nat)
    requires Ready(c, x, caught, m, r)
    ensures OneSimulated(c.oracle, ExecReturn(c, value, m), EmittedReturn(value, x, t), r, fuel, x)
  {
    if value.Some? {
      ReturnedValueAgrees(c, x, value.value, t, m, r, fuel);
    } else if x.fluent {
      VisibleLookup(r.env, Receiver);
      assert Rust.Eval(c.oracle, Rust.Variable(Receiver), r, fuel) == (Rust.Yields(Lookup(r.env, Receiver)), r);
      ReturnOfAgrees(c.oracle, Rust.Variable(Receiver), x, r, fuel);
    } else {
      assert Rust.Eval(c.oracle, Rust.OkUnit, r, fuel) == (Rust.Yields(Ok(Unit)), r);
    }
  }

  lemma ReturnedValueAgrees(
    c: Context, x: Enclosing, e: FlowExpression, t: nat, m: Machine, r: Rust.Machine, fuel: nat)
    requires Related(m, r)
    ensures OneSimulated(c.oracle, ExecReturn(c, Some(e), m), EmittedReturn(Some(e), x, t), r, fuel, x)
  {
    EvalAgrees(c.oracle, e, x.target, t, m, r, fuel);
    ReturnOfAgrees(c.oracle, Compiled(e, x.target, t), x, r, fuel);
  }

  lemma ThrowAgrees(
    c: Context, x: Enclosing, n: Counters, error: Option<FlowExpression>, t: nat,
    caught: Option<Value>, m: Machine, r: Rust.Machine, fuel: nat)
    requires Ready(c, x, caught, m, r) && LoweredThrow(error, x, n).Success?
    ensures Simulated(
              c.oracle, ExecThrow(c, error, caught, m), EmitStatement(LoweredThrow(error, x, n).value.0, t).0, r, fuel,
              x)
  {
    if error.Some? {
      ThrownAgrees(c, x, error.value, t, m, r, fuel);
      OneIsSimulated(
        c.oracle, ExecThrow(c, error, caught, m), ExceptionPropagation(x.target, Compiled(error.value, x.target, t)), r,
        fuel, x);
    } else {
      PropagationRaises(c.oracle, x.target, x.caught.value, caught.value, r, fuel);
    }
  }

  lemma ThrownAgrees(
    c: Context, x: Enclosing, e: FlowExpression, t: nat, m: Machine, r: Rust.Machine, fuel: nat)
    requires Related(m, r) && !x.target.Unreachable?
    ensures OneSimulated(
              c.oracle, ExecThrow(c, Some(e), None, m), ExceptionPropagation(x.target, Compiled(e, x.target, t)), r,
              fuel, x)
  {
    EvalAgrees(c.oracle, e, x.target, t, m, r, fuel);
    var (w, r1) := Rust.Eval(c.oracle, Compiled(e, x.target, t), r, fuel);
    assert Rust.Eval(c.oracle, Rust.ErrOf(Compiled(e, x.target, t)), r, fuel)
        == (if w.Yields? then Rust.Yields(Err(w.value)) else w, r1);
  }

  function EmittedIf(x: Enclosing, n: Counters, s: SourceStatement, t: nat): Rust.Statement
    requires s.kind.If? && LoweredIf(s, x, n).Success?
  {
    var (condition, t1) := EmitExpression(LowerExpression(s.kind.condition, x.target), t);
    var (hs, n1) := LowerAsBlock(s.kind.thenBranch, x, n).value;
    var (ts, t2) := EmitStatements(hs, t1);
    Rust.If(condition, ts, EmittedElse(s.kind.elseBranch, x, n1, t2))
  }

  lemma IfEmission(x: Enclosing, n: Counters, s: SourceStatement, t: nat)
    requires s.kind.If? && LowerStatement(s, x, n).Success?
    ensures EmitStatement(LowerStatement(s, x, n).value.0, t).0 == [EmittedIf(x, n, s, t)]
  {
  }

  lemma {:induction false} IfAgrees(
    c: Context, x: Enclosing, n: Counters, s: SourceStatement, t: nat,
    caught: Option<Value>, m: Machine, r: Rust.Machine, fuel: nat)
    requires Ready(c, x, caught, m, r) && s.kind.If? && LowerStatement(s, x, n).Success?
    ensures StatementSimulated(c, x, n, s, t, caught, m, r, fuel)
    decreases fuel, s, 0, 2
  {
    IfEmission(x, n, s, t);
    ChoiceAgrees(c, x, n, s, t, caught, m, r, fuel);
    OneIsSimulated(c.oracle, ExecIf(c, s, caught, m, fuel), EmittedIf(x, n, s, t), r, fuel, x);
  }

  lemma {:induction false} ChoiceAgrees(
    c: Context, x: Enclosing, n: Counters, s: SourceStatement, t: nat,
    caught: Option<Value>, m: Machine, r: Rust.Machine, fuel: nat)
    requires Ready(c, x, caught, m, r) && s.kind.If? && LoweredIf(s, x, n).Success?
    ensures OneSimulated(c.oracle, ExecIf(c, s, caught, m, fuel), EmittedIf(x, n, s, t), r, fuel, x)
    decreases fuel, s, 0, 1
  {
    var emitted := EmittedIf(x, n, s, t);
    EvalAgrees(c.oracle, s.kind.condition, x.target, t, m, r, fuel);
    var (v, m1) := Eval(c.oracle, s.kind.condition, m);
    var (w, r1) := Rust.Eval(c.oracle, emitted.condition, r, fuel);
    if v.Produced? {
      CaughtKept(x, caught, r.env, r1.env);
      BranchesAgree(c, x, n, s, t, Truthy(v.value), caught, m1, r1, fuel);
      ChoiceMade(
        c.oracle, x, v, m1, ExecBranch(c, s, Truthy(v.value), caught, m1, fuel), emitted, r, fuel);
    } else {
      ChoiceMade(c.oracle, x, v, m1, (Normal, m1), emitted, r, fuel);
    }
  }

  /** The generated `if` chooses as the source does. */
  lemma ChoiceMade(
    o: Oracle, x: Enclosing, v: Evaluated, m1: Machine, end: (Completion, Machine), emitted: Rust.Statement,
    r: Rust.Machine, fuel: nat)
    requires emitted.If?
    requires var (w, r1) := Rust.Eval(o, emitted.condition, r, fuel);
             && ValuesAgree(v, m1, w, r1, r.env, x.target)
             && (v.Produced? ==>
                   ScopeSimulated(
                     o, end, if Truthy(v.value) then emitted.thenBranch else emitted.elseBranch, r1, fuel, x))
    ensures OneSimulated(o, if v.Raises? then (Throwing(v.error), m1) else end, emitted, r, fuel, x)
  {
    var r1 := Rust.Eval(o, emitted.condition, r, fuel).1;
    assert Rust.Exec(o, emitted, r, fuel) == Rust.ExecIf(o, emitted, r, fuel);
    if v.Produced? {
      var (j, r2) := Rust.ExecBraces(
        o, if Truthy(v.value) then emitted.thenBranch else emitted.elseBranch, r1, fuel);
      AgreeAfter(end.0, end.1, j, r2, r.env, r1.env, x);
    }
  }

  lemma {:induction false} BranchesAgree(
    c: Context, x: Enclosing, n: Counters, s: SourceStatement, t: nat, yes: bool,
    caught: Option<Value>, m: Machine, r: Rust.Machine, fuel: nat)
    requires Ready(c, x, caught, m, r) && s.kind.If? && LoweredIf(s, x, n).Success?
    ensures var emitted := EmittedIf(x, n, s, t);
            ScopeSimulated(
              c.oracle, ExecBranch(c, s, yes, caught, m, fuel),
              if yes then emitted.thenBranch else emitted.elseBranch, r, fuel, x)
    decreases fuel, s, 0, 0
  {
    var t1 := EmitExpression(LowerExpression(s.kind.condition, x.target), t).1;
    var (hs, n1) := LowerAsBlock(s.kind.thenBranch, x, n).value;
    if yes {
      BodyAgrees(c, x, n, s.kind.thenBranch, t1, caught, m, r, fuel);
    } else {
      ElseAgrees(c, x, n1, s.kind.elseBranch, EmitStatements(hs, t1).1, caught, m, r, fuel);
    }
  }

  function ExecElse(c: Context, branch: Option<SourceStatement>, caught: Option<Value>, m: Machine, fuel: nat)
    : (Completion, Machine)
  {
    if branch.Some? then ExecScoped(c, branch.value, caught, m, fuel) else (Normal, m)
  }

  function EmittedElse(branch: Option<SourceStatement>, x: Enclosing, n: Counters, t: nat): seq<Rust.Statement>
    requires branch.Some? ==> LowerStatement(branch.value, x, n).Success?
  {
    EmitElse(if branch.Some? then Some(LowerStatement(branch.value, x, n).value.0) else None, t).0
  }

  lemma {:induction false} ElseAgrees(
    c: Context, x: Enclosing, n: Counters, branch: Option<SourceStatement>, t: nat,
    caught: Option<Value>, m: Machine, r: Rust.Machine, fuel: nat)
    requires Ready(c, x, caught, m, r) && (branch.Some? ==> LowerStatement(branch.value, x, n).Success?)
    ensures ScopeSimulated(c.oracle, ExecElse(c, branch, caught, m, fuel), EmittedElse(branch, x, n, t), r, fuel, x)
    decreases fuel, branch
  {
    if branch.None? {
      NothingAgrees(c.oracle, m, r, fuel, x);
    } else if branch.value.kind.BlockStatement? {
      BlockAgrees(c, x, n, branch.value.kind.block, t, caught, m, r, fuel);
      BlockScoped(c, branch.value, caught, m, fuel);
    } else {
      var h := LowerStatement(branch.value, x, n).value.0;
      StatementAgrees(c, x, n, branch.value, t, caught, m, r, fuel);
      OnlyBlocksStayBlocks(branch.value, x, n);
      ScopeLeft(c.oracle, Exec(c, branch.value, caught, m, fuel), EmitStatement(h, t).0, m, r, fuel, x);
    }
  }

  lemma OnlyBlocksStayBlocks(s: SourceStatement, x: Enclosing, n: Counters)
    requires !s.kind.BlockStatement? && LowerStatement(s, x, n).Success?
    ensures !LowerStatement(s, x, n).value.0.Block?
  {
  }

  lemma NothingAgrees(o: Oracle, m: Machine, r: Rust.Machine, fuel: nat, x: Enclosing)
    requires Related(m, r)
    ensures ScopeSimulated(o, (Normal, m), [], r, fuel, x)
  {
    assert Rust.ExecStatements(o, [], r, fuel) == (Rust.Next, r);
    assert r.env[..|r.env|] == r.env;
  }

  /** One run of a loop body in target and source, started after the loop's condition held. */
  lemma {:induction false} LoopBodyAgrees(
    c: Context, x: Enclosing, n: Counters, s: SourceStatement, t: nat,
    caught: Option<Value>, m: Machine, r: Rust.Machine, before: Env, fuel: nat)
    requires Ready(c, x, caught, m, r) && LowerLoop(s, x, n).Success? && Settles(before, r.env)
    ensures var (k, m1) := ExecScoped(c, s, caught, m, fuel);
            var (j, r1) := Rust.ExecBraces(c.oracle, EmitStatements(LowerLoop(s, x, n).value.0, t).0, r, fuel);
            && (|r.env| == |before| ==> RoundSimulated(k, m1, j, r1, Hir.LoopLabel(n.loops), before, x))
            && RoundSimulated(k, m1, j, r1, Hir.LoopLabel(n.loops), r.env, x)
    decreases fuel, s, 3
  {
    var tag := Hir.LoopLabel(n.loops);
    BodyAgrees(c, WithLoop(x, tag), n.(loops := n.loops + 1), s, t, caught, m, r, fuel);
    var (k, m1) := ExecScoped(c, s, caught, m, fuel);
    var (j, r1) := Rust.ExecBraces(c.oracle, EmitStatements(LowerLoop(s, x, n).value.0, t).0, r, fuel);
    LoopJumps(k, j, x, tag);
    if !k.OutOfFuel? {
      SettlesTransitive(before, r.env, r1.env);
    }
  }

  lemma {:induction false} WhileAgrees(
    c: Context, x: Enclosing, n: Counters, s: SourceStatement, t: nat,
    caught: Option<Value>, m: Machine, r: Rust.Machine, fuel: nat)
    requires Ready(c, x, caught, m, r) && s.kind.While? && LowerStatement(s, x, n).Success?
    ensures StatementSimulated(c, x, n, s, t, caught, m, r, fuel)
    decreases fuel, s, 0, 2
  {
    WhileEmission(x, n, s, t);
    WhileLoopAgrees(c, x, n, s, t, caught, m, r, fuel);
    OneIsSimulated(c.oracle, ExecWhile(c, s, caught, m, fuel), WhileLoop(x, n, s, t), r, fuel, x);
  }

  /** What a loop makes of a round: the end of the loop, or another one. */
  ghost predicate RoundSimulated(
    k: Completion, m: Machine, j: Rust.Jump, r: Rust.Machine, tag: Hir.Label, before: Env, x: Enclosing)
  {
    && (k.Breaking? <==> Rust.Stops(j, tag))
    && (k.Normal? || k.Continuing? <==> Rust.Repeats(j, tag))
    && (!k.OutOfFuel? ==> Related(m, r) && Settles(before, r.env) && |r.env| == |before|)
    && (!k.Breaking? && !k.Normal? && !k.Continuing? ==> Matches(k, j, x))
  }

  /** A loop after a round; `again`: what it does from there if it goes on. */
  function AfterRound(k: Completion, m: Machine, again: (Completion, Machine)): (Completion, Machine) {
    if k.Breaking? then (Normal, m) else if k.Normal? || k.Continuing? then again else (k, m)
  }

  function RustAfterRound(j: Rust.Jump, r: Rust.Machine, tag: Hir.Label, again: (Rust.Jump, Rust.Machine))
    : (Rust.Jump, Rust.Machine)
  {
    if Rust.Stops(j, tag) then (Rust.Next, r) else if Rust.Repeats(j, tag) then again else (j, r)
  }

  lemma RoundThen(
    k: Completion, m: Machine, j: Rust.Jump, r: Rust.Machine, tag: Hir.Label, before: Env, x: Enclosing,
    again: (Completion, Machine), rustAgain: (Rust.Jump, Rust.Machine))
    requires RoundSimulated(k, m, j, r, tag, before, x)
    requires k.Normal? || k.Continuing? ==> Agree(again.0, again.1, rustAgain.0, rustAgain.1, r.env, x)
    ensures var end, rustEnd := AfterRound(k, m, again), RustAfterRound(j, r, tag, rustAgain);
            Agree(end.0, end.1, rustEnd.0, rustEnd.1, before, x)
  {
    if k.Normal? || k.Continuing? {
      AgreeAfter(again.0, again.1, rustAgain.0, rustAgain.1, before, r.env, x);
    }
  }

  /** A round of the generated `while`; `break` stands for a condition that no longer holds. */
  function RustRound(o: Oracle, loop: Rust.Statement, r: Rust.Machine, fuel: nat): (Rust.Jump, Rust.Machine)
    requires loop.While?
  {
    var (w, r1) := Rust.Eval(o, loop.condition, r, fuel);
    if w.Jumps? then (w.jump, r1)
    else if !Truthy(w.value) then (Rust.BreakTo(loop.tag, None), r1)
    else Rust.ExecBraces(o, loop.body, r1, fuel)
  }

  lemma RustWhileUnfolds(o: Oracle, loop: Rust.Statement, r: Rust.Machine, fuel: nat)
    requires loop.While? && fuel > 0
    requires var w := Rust.Eval(o, loop.condition, r, fuel).0;
             w.Jumps? ==> !Rust.Stops(w.jump, loop.tag) && !Rust.Repeats(w.jump, loop.tag)
    ensures var (j, r1) := RustRound(o, loop, r, fuel);
            Rust.ExecWhile(o, loop, r, fuel) == RustAfterRound(j, r1, loop.tag, Rust.ExecWhile(o, loop, r1, fuel - 1))
  {
  }

  lemma {:induction false} WhileRoundAgrees(
    c: Context, x: Enclosing, n: Counters, s: SourceStatement, t: nat,
    caught: Option<Value>, m: Machine, r: Rust.Machine, fuel: nat)
    requires Ready(c, x, caught, m, r) && s.kind.While? && LoweredWhile(s, x, n).Success?
    ensures var (k, m1) := WhileRound(c, s, caught, m, fuel);
            var (j, r1) := RustRound(c.oracle, WhileLoop(x, n, s, t), r, fuel);
            var w := Rust.Eval(c.oracle, WhileLoop(x, n, s, t).condition, r, fuel).0;
            && RoundSimulated(k, m1, j, r1, Hir.LoopLabel(n.loops), r.env, x)
            && (w.Jumps? ==>
              !Rust.Stops(w.jump, Hir.LoopLabel(n.loops)) && !Rust.Repeats(w.jump, Hir.LoopLabel(n.loops)))
    decreases fuel, s, 0, 0
  {
    var loop := WhileLoop(x, n, s, t);
    var t1 := EmitExpression(LowerExpression(s.kind.condition, x.target), t).1;
    EvalAgrees(c.oracle, s.kind.condition, x.target, t, m, r, fuel);
    var (v, m1) := Eval(c.oracle, s.kind.condition, m);
    var (w, r1) := Rust.Eval(c.oracle, loop.condition, r, fuel);
    if v.Produced? && Truthy(v.value) {
      CaughtKept(x, caught, r.env, r1.env);
      LoopBodyAgrees(c, x, n, s.kind.body, t1, caught, m1, r1, r.env, fuel);
    } else if v.Raises? {
      RaisedElsewhere(v.error, w.jump, x, Hir.LoopLabel(n.loops));
    }
  }

  /** A raised error is no jump of a loop. */
  lemma RaisedElsewhere(error: Value, j: Rust.Jump, x: Enclosing, tag: Hir.Label)
    requires Raised(error, j, x.target) && tag.LoopLabel? && (x.target.ToTry? ==> x.target.tag.TryLabel?)
    ensures !Rust.Stops(j, tag) && !Rust.Repeats(j, tag)
  {
  }

  lemma {:induction false} WhileLoopAgrees(
    c: Context, x: Enclosing, n: Counters, s: SourceStatement, t: nat,
    caught: Option<Value>, m: Machine, r: Rust.Machine, fuel: nat)
    requires Ready(c, x, caught, m, r) && s.kind.While? && LoweredWhile(s, x, n).Success?
    ensures OneSimulated(c.oracle, ExecWhile(c, s, caught, m, fuel), WhileLoop(x, n, s, t), r, fuel, x)
    decreases fuel, s, 0, 1
  {
    if fuel > 0 {
      var loop := WhileLoop(x, n, s, t);
      WhileRoundAgrees(c, x, n, s, t, caught, m, r, fuel);
      var (k, m1) := WhileRound(c, s, caught, m, fuel);
      var (j, r1) := RustRound(c.oracle, loop, r, fuel);
      if k.Normal? || k.Continuing? {
        CaughtKept(x, caught, r.env, r1.env);
        WhileLoopAgrees(c, x, n, s, t, caught, m1, r1, fuel - 1);
      }
      WhileGoesOn(c, x, s, loop, caught, m, r, fuel);
    }
  }

  lemma WhileGoesOn(
    c: Context, x: Enclosing, s: SourceStatement, loop: Rust.Statement, caught: Option<Value>, m: Machine,
    r: Rust.Machine, fuel: nat)
    requires s.kind.While? && loop.While? && fuel > 0
    requires var (k, m1) := WhileRound(c, s, caught, m, fuel);
             var (j, r1) := RustRound(c.oracle, loop, r, fuel);
             var w := Rust.Eval(c.oracle, loop.condition, r, fuel).0;
             && RoundSimulated(k, m1, j, r1, loop.tag, r.env, x)
             && (w.Jumps? ==> !Rust.Stops(w.jump, loop.tag) && !Rust.Repeats(w.jump, loop.tag))
             && (k.Normal? || k.Continuing? ==>
                   OneSimulated(c.oracle, ExecWhile(c, s, caught, m1, fuel - 1), loop, r1, fuel - 1, x))
    ensures OneSimulated(c.oracle, ExecWhile(c, s, caught, m, fuel), loop, r, fuel, x)
  {
    var (k, m1) := WhileRound(c, s, caught, m, fuel);
    var (j, r1) := RustRound(c.oracle, loop, r, fuel);
    RustWhileUnfolds(c.oracle, loop, r, fuel);
    RoundThen(
      k, m1, j, r1, loop.tag, r.env, x, ExecWhile(c, s, caught, m1, fuel - 1),
      Rust.ExecWhile(c.oracle, loop, r1, fuel - 1));
  }

  function WhileLoop(x: Enclosing, n: Counters, s: SourceStatement, t: nat): (loop: Rust.Statement)
    requires s.kind.While? && LoweredWhile(s, x, n).Success?
  {
    var (condition, t1) := EmitExpression(LowerExpression(s.kind.condition, x.target), t);
    Rust.While(
      Hir.LoopLabel(n.loops), condition, EmitStatements(LowerLoop(s.kind.body, x, n).value.0, t1).0)
  }

  lemma WhileEmission(x: Enclosing, n: Counters, s: SourceStatement, t: nat)
    requires s.kind.While? && LowerStatement(s, x, n).Success?
    ensures EmitStatement(LowerStatement(s, x, n).value.0, t).0 == [WhileLoop(x, n, s, t)]
  {
  }

  /** The loop that owns `tag` sees exactly its own jumps; all others it passes on. */
  lemma LoopJumps(k: Completion, j: Rust.Jump, x: Enclosing, tag: Hir.Label)
    requires Matches(k, j, WithLoop(x, tag)) && tag.LoopLabel?
    requires x.target.ToTry? ==> x.target.tag.TryLabel?
    ensures k.Breaking? <==> Rust.Stops(j, tag)
    ensures k.Normal? || k.Continuing? <==> Rust.Repeats(j, tag)
    ensures !k.Breaking? && !k.Normal? && !k.Continuing? ==> Matches(k, j, x)
  {
  }

  // ----- range loops -----

  lemma BindAllVisible(names: seq<string>, values: seq<Value>)
    requires |names| == |values|
    ensures Visible(BindAll(names, values)) == BindAll(names, values)
    decreases |names|
  {
    if |names| > 0 {
      var last := |names| - 1;
      BindAllVisible(names[..last], values[..last]);
      assert BindAll(names, values)[..last] == BindAll(names[..last], values[..last]);
    }
  }

  lemma IterableAgrees(
    c: Context, e: FlowExpression, json: bool, target: Hir.ExceptionTarget, t: nat, m: Machine, r: Rust.Machine,
    fuel: nat)
    requires Related(m, r)
    ensures var (a, m1) := RangeElements(c, e, json, m);
            var (w, r1) := Rust.Eval(c.oracle, EmitExpression(LowerIterable(e, json, target), t).0, r, fuel);
            ValuesAgree(a, m1, w, r1, r.env, target)
  {
    EvalAgrees(c.oracle, e, target, t, m, r, fuel);
    if json {
      ArgumentsAgree(c.oracle, [e], target, t, m, r, fuel);
      CallAgrees(c.oracle, ARRAY_SNAPSHOT, [e], true, target, t, m, r, fuel);
      SnapshotIsCall(c, e, m);
      assert LowerArguments([e], target) == [LowerExpression(e, target)] by {
        assert [e][1..] == [];
      }
    }
  }

  /** The copy of a JSON array is a call of the runtime. */
  lemma SnapshotIsCall(c: Context, e: FlowExpression, m: Machine)
    ensures RangeElements(c, e, true, m) == Eval(c.oracle, Call(ARRAY_SNAPSHOT, [e], true), m)
  {
    var (v, m1) := Eval(c.oracle, e, m);
    assert [e][1..] == [];
    assert EvalArguments(c.oracle, [], m1) == (None, [], m1);
    assert v.Produced? ==> [v.value] + [] == [v.value];
  }

  lemma {:induction false} RangeForAgrees(
    c: Context, x: Enclosing, n: Counters, s: SourceStatement, t: nat,
    caught: Option<Value>, m: Machine, r: Rust.Machine, fuel: nat)
    requires Ready(c, x, caught, m, r) && s.kind.For? && s.kind.clause.Range? && LowerStatement(s, x, n).Success?
    ensures StatementSimulated(c, x, n, s, t, caught, m, r, fuel)
    decreases fuel, s, 0, 2
  {
    RangeEmission(x, n, s, t);
    RangeLoopAgrees(c, x, n, s, t, caught, m, r, fuel);
    OneIsSimulated(c.oracle, ExecForStatement(c, s, caught, m, fuel), RangeLoop(x, n, s, t), r, fuel, x);
  }

  lemma {:induction false} RangeLoopAgrees(
    c: Context, x: Enclosing, n: Counters, s: SourceStatement, t: nat,
    caught: Option<Value>, m: Machine, r: Rust.Machine, fuel: nat)
    requires Ready(c, x, caught, m, r) && s.kind.For? && s.kind.clause.Range? && LoweredFor(s, x, n).Success?
    ensures OneSimulated(c.oracle, ExecForStatement(c, s, caught, m, fuel), RangeLoop(x, n, s, t), r, fuel, x)
    decreases fuel, s, 0, 1
  {
    var loop := RangeLoop(x, n, s, t);
    var iterable, json := s.kind.clause.iterable, s.kind.clause.json;
    IterableAgrees(c, iterable, json, x.target, t, m, r, fuel);
    var (a, m1) := RangeElements(c, iterable, json, m);
    var (w, r1) := Rust.Eval(c.oracle, loop.iterable, r, fuel);
    RangeStarts(c, s, caught, m, fuel);
    RustForStarts(c.oracle, loop, r, fuel);
    if a.Produced? {
      CaughtKept(x, caught, r.env, r1.env);
      ElementsAgree(c, x, n, s, t, caught, if a.value.Collection? then a.value.elements else [], m, r, m1, r1, fuel);
    } else {
      AlreadyLeft(Throwing(a.error), m1, w.jump, r1, m, r, x);
    }
  }

  /** The loop over the elements, and the end of its scope. */
  lemma {:induction false} ElementsAgree(
    c: Context, x: Enclosing, n: Counters, s: SourceStatement, t: nat, caught: Option<Value>, elements: seq<Value>,
    m: Machine, r: Rust.Machine, m1: Machine, r1: Rust.Machine, fuel: nat)
    requires Ready(c, x, caught, m1, r1) && Related(m, r) && Settles(r.env, r1.env) && |r1.env| == |r.env|
    requires s.kind.For? && s.kind.clause.Range? && LoweredFor(s, x, n).Success?
    ensures var (k, m2) := ExecRange(c, s, caught, elements, m1, fuel);
            var (j, r2) := Rust.ExecFor(c.oracle, RangeLoop(x, n, s, t), elements, r1, fuel);
            Agree(k, Leave(|m.env|, m2), j, r2, r.env, x)
    decreases fuel, s, 0, 0, |elements| + 1
  {
    RangeAgrees(c, x, n, s, t, caught, elements, m1, r1, fuel);
    var (k, m2) := ExecRange(c, s, caught, elements, m1, fuel);
    var (j, r2) := Rust.ExecFor(c.oracle, RangeLoop(x, n, s, t), elements, r1, fuel);
    AgreeAfter(k, m2, j, r2, r.env, r1.env, x);
    AlreadyLeft(k, m2, j, r2, m, r, x);
  }

  lemma AgreeAfter(k: Completion, m: Machine, j: Rust.Jump, r: Rust.Machine, before: Env, later: Env, x: Enclosing)
    requires Settles(before, later) && Agree(k, m, j, r, later, x)
    ensures Agree(k, m, j, r, before, x)
  {
    if !k.OutOfFuel? {
      SettlesTransitive(before, later, r.env);
    }
  }

  /** Leaving a scope in which the target has nothing more than before changes nothing. */
  lemma AlreadyLeft(
    k: Completion, m: Machine, j: Rust.Jump, r: Rust.Machine, m0: Machine, r0: Rust.Machine, x: Enclosing)
    requires Agree(k, m, j, r, r0.env, x) && Related(m0, r0)
    requires !k.OutOfFuel? ==> |r.env| == |r0.env|
    ensures Agree(k, Leave(|m0.env|, m), j, r, r0.env, x)
  {
    if !k.OutOfFuel? {
      LeavingAgrees(k, m, j, r, m0, r0, x);
      assert r.env[..|r0.env|] == r.env;
    }
  }

  /** A range loop evaluates its range and then goes over it. */
  lemma RangeStarts(c: Context, s: SourceStatement, caught: Option<Value>, m: Machine, fuel: nat)
    requires s.kind.For? && s.kind.clause.Range?
    ensures var (a, m1) := RangeElements(c, s.kind.clause.iterable, s.kind.clause.json, m);
            var (k, m2) :=
              if a.Raises? then (Throwing(a.error), m1)
              else ExecRange(c, s, caught, if a.value.Collection? then a.value.elements else [], m1, fuel);
            ExecForStatement(c, s, caught, m, fuel) == (k, Leave(|m.env|, m2))
  {
  }

  lemma RustForStarts(o: Oracle, loop: Rust.Statement, r: Rust.Machine, fuel: nat)
    requires loop.For?
    ensures var (w, r1) := Rust.Eval(o, loop.iterable, r, fuel);
            Rust.Exec(o, loop, r, fuel)
            == if w.Jumps? then (w.jump, r1)
               else Rust.ExecFor(o, loop, if w.value.Collection? then w.value.elements else [], r1, fuel)
  {
  }

  /** What a range loop is emitted as. */
  function RangeLoop(x: Enclosing, n: Counters, s: SourceStatement, t: nat): (loop: Rust.Statement)
    requires s.kind.For? && s.kind.clause.Range? && LoweredFor(s, x, n).Success?
  {
    var (iterable, t1) := EmitExpression(LowerIterable(s.kind.clause.iterable, s.kind.clause.json, x.target), t);
    Rust.For(
      Hir.LoopLabel(n.loops), BindingNames(s.kind.clause.bindings), iterable,
      EmitStatements(LowerLoop(s.kind.body, x, n).value.0, t1).0)
  }

  lemma RangeEmission(x: Enclosing, n: Counters, s: SourceStatement, t: nat)
    requires s.kind.For? && s.kind.clause.Range? && LowerStatement(s, x, n).Success?
    ensures EmitStatement(LowerStatement(s, x, n).value.0, t).0 == [RangeLoop(x, n, s, t)]
  {
  }

  /** The variables of one iteration are the same on both sides. */
  lemma IterationScope(
    c: Context, x: Enclosing, s: SourceStatement, caught: Option<Value>, element: Value, m: Machine, r: Rust.Machine)
    requires Ready(c, x, caught, m, r) && s.kind.For? && s.kind.clause.Range?
    ensures var bindings := s.kind.clause.bindings;
            var names := RangeNames(bindings);
            var scope := BindAll(names, Components(element, |names|));
            && Rust.Bind(BindingNames(bindings), Components(element, |bindings|)) == scope
            && Ready(c, x, caught, m.(env := m.env + scope), r.(env := r.env + scope))
            && Settles(r.env, r.env + scope)
  {
    var bindings := s.kind.clause.bindings;
    var names := RangeNames(bindings);
    var scope := BindAll(names, Components(element, |names|));
    BindAllVisible(names, Components(element, |names|));
    VisibleAppend(r.env, scope);
    CaughtKept(x, caught, r.env, r.env + scope);
  }

  /** One iteration of a range loop, with its variables, which go at its end. */
  function SourceIteration(
    c: Context, s: SourceStatement, caught: Option<Value>, element: Value, m: Machine, fuel: nat): (Completion, Machine)
    requires s.kind.For? && s.kind.clause.Range?
  {
    var names := RangeNames(s.kind.clause.bindings);
    var scope := BindAll(names, Components(element, |names|));
    var (k, m1) := ExecScoped(c, s.kind.body, caught, m.(env := m.env + scope), fuel);
    (k, Leave(|m.env|, m1))
  }

  function RustIteration(o: Oracle, loop: Rust.Statement, element: Value, r: Rust.Machine, fuel: nat)
    : (Rust.Jump, Rust.Machine)
    requires loop.For?
  {
    var scope := Rust.Bind(loop.bindings, Components(element, |loop.bindings|));
    var (j, r1) := Rust.ExecBraces(o, loop.body, r.(env := r.env + scope), fuel);
    (j, Rust.Leave(|r.env|, r1))
  }

  lemma {:induction false} RangeRoundAgrees(
    c: Context, x: Enclosing, n: Counters, s: SourceStatement, t: nat,
    caught: Option<Value>, element: Value, m: Machine, r: Rust.Machine, fuel: nat)
    requires Ready(c, x, caught, m, r) && s.kind.For? && s.kind.clause.Range? && LoweredFor(s, x, n).Success?
    ensures var (k, m1) := SourceIteration(c, s, caught, element, m, fuel);
            var (j, r1) := RustIteration(c.oracle, RangeLoop(x, n, s, t), element, r, fuel);
            RoundSimulated(k, m1, j, r1, Hir.LoopLabel(n.loops), r.env, x)
    decreases fuel, s, 0, 0, 0, 0
  {
    var t1 := EmitExpression(LowerIterable(s.kind.clause.iterable, s.kind.clause.json, x.target), t).1;
    var names := RangeNames(s.kind.clause.bindings);
    var scope := BindAll(names, Components(element, |names|));
    IterationScope(c, x, s, caught, element, m, r);
    var m1, r1 := m.(env := m.env + scope), r.(env := r.env + scope);
    LoopBodyAgrees(c, x, n, s.kind.body, t1, caught, m1, r1, r.env, fuel);
    var (k, m2) := ExecScoped(c, s.kind.body, caught, m1, fuel);
    var (j, r2) := Rust.ExecBraces(c.oracle, RangeLoop(x, n, s, t).body, r1, fuel);
    RoundLeft(k, m2, j, r2, Hir.LoopLabel(n.loops), m, r, scope, x);
  }

  /** The variables of a round go at its end. */
  lemma RoundLeft(
    k: Completion, m1: Machine, j: Rust.Jump, r1: Rust.Machine, tag: Hir.Label, m: Machine, r: Rust.Machine, scope: Env,
    x: Enclosing)
    requires RoundSimulated(k, m1, j, r1, tag, r.env + scope, x) && Related(m, r)
    ensures RoundSimulated(k, Leave(|m.env|, m1), j, Rust.Leave(|r.env|, r1), tag, r.env, x)
  {
    if !k.OutOfFuel? {
      assert Continues(r.env, r.env + scope);
      assert Continues(r.env, r1.env);
      VisibleTruncate(r.env, r1.env);
    }
  }

  lemma {:induction false} RangeAgrees(
    c: Context, x: Enclosing, n: Counters, s: SourceStatement, t: nat,
    caught: Option<Value>, elements: seq<Value>, m: Machine, r: Rust.Machine, fuel: nat)
    requires Ready(c, x, caught, m, r) && s.kind.For? && s.kind.clause.Range? && LoweredFor(s, x, n).Success?
    ensures var (k, m1) := ExecRange(c, s, caught, elements, m, fuel);
            var (j, r1) := Rust.ExecFor(c.oracle, RangeLoop(x, n, s, t), elements, r, fuel);
            AgreeScoped(k, m1, j, r1, r.env, x)
    decreases fuel, s, 0, 0, |elements|
  {
    if |elements| > 0 {
      var loop := RangeLoop(x, n, s, t);
      RangeRoundAgrees(c, x, n, s, t, caught, elements[0], m, r, fuel);
      var (k, m1) := SourceIteration(c, s, caught, elements[0], m, fuel);
      var (j, r1) := RustIteration(c.oracle, loop, elements[0], r, fuel);
      if k.Normal? || k.Continuing? {
        CaughtKept(x, caught, r.env, r1.env);
        RangeAgrees(c, x, n, s, t, caught, elements[1..], m1, r1, fuel);
        var (k2, m2) := ExecRange(c, s, caught, elements[1..], m1, fuel);
        var (j2, r2) := Rust.ExecFor(c.oracle, loop, elements[1..], r1, fuel);
        AgreeAfter(k2, m2, j2, r2, r.env, r1.env, x);
      }
    }
  }

  // ----- try -----

  /** The generated chain walk finds the same object as the search along the data bases. */
  lemma {:induction false} ProjectFindsBase(v: Value, ty: nat)
    ensures Rust.Project(v, ty) == FirstOfType(Subobjects(v), ty)
    decreases v
  {
    match v
    case Struct(own, _, base) =>
      assert Subobjects(v)[1..] == if base.Some? then Subobjects(base.value) else [];
      if base.Some? {
        ProjectFindsBase(base.value, ty);
      }
    case _ =>
  }

  /** The two statements a try is emitted as. */
  function LabelledBlock(x: Enclosing, n: Counters, s: SourceStatement, t: nat): Rust.Statement
    requires s.kind.Try? && LoweredTry(s, x, n).Success?
  {
    var hs := LowerBlock(s.kind.guarded, InTry(x, n.tries), n.(tries := n.tries + 1)).value.0;
    var falls := BlockMayFallThrough(s.kind.guarded);
    var completion := if falls then [Rust.BreakWith(Hir.TryLabel(n.tries), Rust.OkUnit)] else [];
    Rust.LetLabelled(
      Temporary(t), Hir.TryLabel(n.tries), [Rust.Braces(EmitStatements(hs, t + 1).0)] + completion)
  }

  function Handlers(x: Enclosing, n: Counters, s: SourceStatement, t: nat): seq<Rust.Statement>
    requires s.kind.Try? && LoweredTry(s, x, n).Success?
  {
    var (hs, n2) := LowerBlock(s.kind.guarded, InTry(x, n.tries), n.(tries := n.tries + 1)).value;
    var catches := LowerCatches(s.kind.catches, InCatch(x, n.tries), n2).value.0;
    EmitCatches(catches, TryError(n.tries), UnmatchedTarget(x), EmitStatements(hs, t + 1).1).0
  }

  function Dispatch(x: Enclosing, n: Counters, s: SourceStatement, t: nat): Rust.Statement
    requires s.kind.Try? && LoweredTry(s, x, n).Success?
  {
    if BlockDefinitelyReturns(s.kind.guarded) && AllDefinitelyReturn(s.kind.catches) then
      Rust.MatchDiverging(TryError(n.tries), Temporary(t), Handlers(x, n, s, t))
    else Rust.IfLetErr(TryError(n.tries), Temporary(t), Handlers(x, n, s, t))
  }

  lemma TryEmission(x: Enclosing, n: Counters, s: SourceStatement, t: nat)
    requires s.kind.Try? && LowerStatement(s, x, n).Success?
    ensures EmitStatement(LowerStatement(s, x, n).value.0, t).0 == [LabelledBlock(x, n, s, t), Dispatch(x, n, s, t)]
  {
  }

  lemma TwoStatements(o: Oracle, a: Rust.Statement, b: Rust.Statement, r: Rust.Machine, fuel: nat)
    ensures var (j, r1) := Rust.Exec(o, a, r, fuel);
            Rust.ExecStatements(o, [a, b], r, fuel) == if j.Next? then Rust.Exec(o, b, r1, fuel) else (j, r1)
  {
    StatementsAppend(o, [a], [b], r, fuel);
    SingleStatement(o, a, r, fuel);
    assert [a, b] == [a] + [b];
    var (j, r1) := Rust.Exec(o, a, r, fuel);
    SingleStatement(o, b, r1, fuel);
  }

  /** The guarded statements, emitted. */
  function GuardedBody(x: Enclosing, n: Counters, s: SourceStatement, t: nat): seq<Rust.Statement>
    requires s.kind.Try? && LoweredTry(s, x, n).Success?
  {
    EmitStatements(LowerBlock(s.kind.guarded, InTry(x, n.tries), n.(tries := n.tries + 1)).value.0, t + 1).0
  }

  /** How the labelled block ends, for each way the guarded statements end. */
  ghost predicate GuardedEnds(
    k: Completion, m: Machine, r: Rust.Machine, j: Rust.Jump, end: Rust.Machine, result: Name, before: Env,
    x: Enclosing)
  {
    && (!k.OutOfFuel? ==> Related(m, r) && Settles(before, r.env))
    && (k.Normal? ==> (j, end) == (Rust.Next, Rust.Push(r, result, Ok(Unit))))
    && (k.Throwing? ==> (j, end) == (Rust.Next, Rust.Push(r, result, Err(k.error))))
    && (!k.Normal? && !k.Throwing? ==> !j.Next? && Agree(k, m, j, end, before, x))
  }

  lemma {:induction false} GuardedAgrees(
    c: Context, x: Enclosing, n: Counters, s: SourceStatement, t: nat,
    caught: Option<Value>, m: Machine, r: Rust.Machine, fuel: nat)
    requires Ready(c, x, caught, m, r) && s.kind.Try? && LoweredTry(s, x, n).Success?
    ensures var (k, m1) := ExecBlock(c, s.kind.guarded, caught, m, fuel);
            var r1 := Rust.ExecBraces(c.oracle, GuardedBody(x, n, s, t), r, fuel).1;
            var (j, r2) := Rust.Exec(c.oracle, LabelledBlock(x, n, s, t), r, fuel);
            GuardedEnds(k, m1, r1, j, r2, Temporary(t), r.env, x)
    decreases fuel, s, 0, 1
  {
    var guarded := s.kind.guarded;
    BlockAgrees(c, InTry(x, n.tries), n.(tries := n.tries + 1), guarded, t + 1, caught, m, r, fuel);
    DivergenceSound.NormalBlockFallsThrough(c, guarded, caught, m, fuel);
    GuardedCases(
      c.oracle, x, n.tries, ExecBlock(c, guarded, caught, m, fuel), Temporary(t), GuardedBody(x, n, s, t),
      BlockMayFallThrough(guarded), r, fuel);
  }

  lemma GuardedCases(
    o: Oracle, x: Enclosing, index: nat, end: (Completion, Machine), result: Name, body: seq<Rust.Statement>,
    fallsThrough: bool, r: Rust.Machine, fuel: nat)
    requires ScopeSimulated(o, end, body, r, fuel, InTry(x, index)) && (end.0.Normal? ==> fallsThrough)
    requires forall i :: 0 <= i < |x.loops| ==> x.loops[i].LoopLabel?
    ensures var completion := if fallsThrough then [Rust.BreakWith(Hir.TryLabel(index), Rust.OkUnit)] else [];
            var labelled := Rust.LetLabelled(result, Hir.TryLabel(index), [Rust.Braces(body)] + completion);
            var r1 := Rust.ExecBraces(o, body, r, fuel).1;
            var (j, r2) := Rust.Exec(o, labelled, r, fuel);
            GuardedEnds(end.0, end.1, r1, j, r2, result, r.env, x)
  {
    LabelledBlockEnds(o, Hir.TryLabel(index), result, body, fallsThrough, r, fuel);
  }

  lemma {:induction false} TryAgrees(
    c: Context, x: Enclosing, n: Counters, s: SourceStatement, t: nat,
    caught: Option<Value>, m: Machine, r: Rust.Machine, fuel: nat)
    requires Ready(c, x, caught, m, r) && s.kind.Try? && LowerStatement(s, x, n).Success?
    ensures StatementSimulated(c, x, n, s, t, caught, m, r, fuel)
    decreases fuel, s, 0, 3
  {
    TryEmission(x, n, s, t);
    TryPartsAgree(c, x, n, s, t, caught, m, r, fuel);
    TwoStatements(c.oracle, LabelledBlock(x, n, s, t), Dispatch(x, n, s, t), r, fuel);
  }

  /** The labelled block and, if it ends with a result, the statement that looks at it. */
  function RunParts(o: Oracle, a: Rust.Statement, b: Rust.Statement, r: Rust.Machine, fuel: nat)
    : (Rust.Jump, Rust.Machine)
  {
    var (j, r1) := Rust.Exec(o, a, r, fuel);
    if j.Next? then Rust.Exec(o, b, r1, fuel) else (j, r1)
  }

  lemma {:induction false} TryPartsAgree(
    c: Context, x: Enclosing, n: Counters, s: SourceStatement, t: nat,
    caught: Option<Value>, m: Machine, r: Rust.Machine, fuel: nat)
    requires Ready(c, x, caught, m, r) && s.kind.Try? && LoweredTry(s, x, n).Success?
    ensures var (k, m1) := ExecTry(c, s, caught, m, fuel);
            var (j, r1) := RunParts(c.oracle, LabelledBlock(x, n, s, t), Dispatch(x, n, s, t), r, fuel);
            Agree(k, m1, j, r1, r.env, x)
    decreases fuel, s, 0, 2
  {
    GuardedAgrees(c, x, n, s, t, caught, m, r, fuel);
    var (k, m1) := ExecBlock(c, s.kind.guarded, caught, m, fuel);
    var r1 := Rust.ExecBraces(c.oracle, GuardedBody(x, n, s, t), r, fuel).1;
    if k.Normal? {
      DivergenceSound.NormalBlockFallsThrough(c, s.kind.guarded, caught, m, fuel);
      DivergenceSound.BlockDefinitelyReturnsDoesNotFallThrough(s.kind.guarded);
      NormalTryAgrees(c.oracle, Temporary(t), TryError(n.tries), Handlers(x, n, s, t), m1, r1, r, fuel);
    } else if k.Throwing? {
      ThrowingTryAgrees(c, x, n, s, t, k.error, m1, r1, r, fuel);
    }
  }

  /** What the labelled block of a try leaves in its result variable, given how its body ends. */
  lemma LabelledBlockEnds(
    o: Oracle, tag: Hir.Label, result: Name, body: seq<Rust.Statement>, fallsThrough: bool, r: Rust.Machine, fuel: nat)
    ensures var completion := if fallsThrough then [Rust.BreakWith(tag, Rust.OkUnit)] else [];
            var (j, r1) := Rust.ExecBraces(o, body, r, fuel);
            Rust.Exec(o, Rust.LetLabelled(result, tag, [Rust.Braces(body)] + completion), r, fuel)
            == if j.Next? then
                 if fallsThrough then (Rust.Next, Rust.Push(r1, result, Ok(Unit))) else (Rust.IllTyped, r1)
               else if j.BreakTo? && j.tag == tag then
                 if j.result.Some? then (Rust.Next, Rust.Push(r1, result, j.result.value)) else (Rust.IllTyped, r1)
               else (j, r1)
  {
    var completion := if fallsThrough then [Rust.BreakWith(tag, Rust.OkUnit)] else [];
    LabelledBodyEnds(o, tag, body, fallsThrough, r, fuel);
    var labelled := Rust.LetLabelled(result, tag, [Rust.Braces(body)] + completion);
    assert Rust.Exec(o, labelled, r, fuel) == Rust.ExecLabelled(o, labelled, r, fuel);
  }

  lemma LabelledBodyEnds(
    o: Oracle, tag: Hir.Label, body: seq<Rust.Statement>, fallsThrough: bool, r: Rust.Machine, fuel: nat)
    ensures var completion := if fallsThrough then [Rust.BreakWith(tag, Rust.OkUnit)] else [];
            var (j, r1) := Rust.ExecBraces(o, body, r, fuel);
            Rust.ExecBraces(o, [Rust.Braces(body)] + completion, r, fuel)
            == if j.Next? && fallsThrough then (Rust.BreakTo(tag, Some(Ok(Unit))), r1) else (j, r1)
  {
    var completion := if fallsThrough then [Rust.BreakWith(tag, Rust.OkUnit)] else [];
    var (j, r1) := Rust.ExecBraces(o, body, r, fuel);
    StatementsAppend(o, [Rust.Braces(body)], completion, r, fuel);
    SingleStatement(o, Rust.Braces(body), r, fuel);
    if fallsThrough {
      SingleStatement(o, completion[0], r1, fuel);
      assert Rust.Eval(o, Rust.OkUnit, r1, fuel) == (Rust.Yields(Ok(Unit)), r1);
    }
    assert Truncate(r1.env, |r.env|) == r1.env;
  }

  lemma NormalTryAgrees(
    o: Oracle, result: Name, error: Name, handlers: seq<Rust.Statement>,
    m: Machine, r1: Rust.Machine, r: Rust.Machine, fuel: nat)
    requires Related(m, r1) && Settles(r.env, r1.env) && result.Temporary?
    ensures var pushed := Rust.Push(r1, result, Ok(Unit));
            && Rust.Exec(o, Rust.IfLetErr(error, result, handlers), pushed, fuel) == (Rust.Next, pushed)
            && Related(m, pushed) && Settles(r.env, pushed.env)
  {
    LookupPushed(r1.env, result, Ok(Unit));
    assert Lookup(Rust.Push(r1, result, Ok(Unit)).env, result) == Ok(Unit);
    PushHidden(m, r1, result, Ok(Unit));
  }

  /** What a statement needs of its surroundings, apart from a caught error. */
  ghost predicate Placed(c: Context, x: Enclosing) {
    && c.fluent == x.fluent
    && !x.target.Unreachable?
    && (x.target.ToTry? ==> x.target.tag.TryLabel?)
    && (forall i :: 0 <= i < |x.loops| ==> x.loops[i].LoopLabel?)
  }

  /** The error in a result variable is unpacked and the handlers run with it. */
  lemma HandlersRun(
    o: Oracle, diverging: bool, error: Name, result: Name, e: Value, handlers: seq<Rust.Statement>, r1: Rust.Machine,
    fuel: nat)
    requires Lookup(r1.env, result) == Err(e)
    ensures var s := if diverging then Rust.MatchDiverging(error, result, handlers)
              else Rust.IfLetErr(error, result, handlers);
            var (j, r2) := Rust.ExecStatements(o, handlers, Rust.Push(r1, error, e), fuel);
            Rust.Exec(o, s, r1, fuel) == (j, Rust.Leave(|r1.env|, r2))
  {
  }

  lemma DispatchRuns(
    o: Oracle, x: Enclosing, n: Counters, s: SourceStatement, t: nat, e: Value, r1: Rust.Machine, fuel: nat)
    requires s.kind.Try? && LoweredTry(s, x, n).Success?
    ensures var r2 := Rust.Push(r1, Temporary(t), Err(e));
            var (j, r4) := Rust.ExecStatements(o, Handlers(x, n, s, t), Rust.Push(r2, TryError(n.tries), e), fuel);
            Rust.Exec(o, Dispatch(x, n, s, t), r2, fuel) == (j, Rust.Leave(|r2.env|, r4))
  {
    var diverging := BlockDefinitelyReturns(s.kind.guarded) && AllDefinitelyReturn(s.kind.catches);
    LookupPushed(r1.env, Temporary(t), Err(e));
    HandlersRun(
      o, diverging, TryError(n.tries), Temporary(t), e, Handlers(x, n, s, t), Rust.Push(r1, Temporary(t), Err(e)),
      fuel);
  }

  /** The result and the error in it are two more variables, neither of them visible. */
  lemma ErrorPushed(m: Machine, r: Rust.Machine, t: nat, index: nat, e: Value)
    requires Related(m, r)
    ensures var r2 := Rust.Push(r, Temporary(t), Err(e));
            var r3 := Rust.Push(r2, TryError(index), e);
            Related(m, r2) && Settles(r.env, r2.env) && Related(m, r3) && Lookup(r3.env, TryError(index)) == e
  {
    var r2 := Rust.Push(r, Temporary(t), Err(e));
    PushHidden(m, r, Temporary(t), Err(e));
    PushHidden(m, r2, TryError(index), e);
    LookupPushed(r2.env, TryError(index), e);
  }

  lemma {:induction false} ThrowingTryAgrees(
    c: Context, x: Enclosing, n: Counters, s: SourceStatement, t: nat,
    e: Value, m1: Machine, r1: Rust.Machine, r: Rust.Machine, fuel: nat)
    requires s.kind.Try? && LoweredTry(s, x, n).Success? && Placed(c, x)
    requires Related(m1, r1) && Settles(r.env, r1.env)
    ensures var (k, m2) := ExecCatches(c, s.kind.catches, e, m1, fuel);
            var (j, r2) := Rust.Exec(c.oracle, Dispatch(x, n, s, t), Rust.Push(r1, Temporary(t), Err(e)), fuel);
            Agree(k, m2, j, r2, r.env, x)
    decreases fuel, s, 0, 0
  {
    var (hs, n2) := LowerBlock(s.kind.guarded, InTry(x, n.tries), n.(tries := n.tries + 1)).value;
    var t1 := EmitStatements(hs, t + 1).1;
    DispatchRuns(c.oracle, x, n, s, t, e, r1, fuel);
    ErrorPushed(m1, r1, t, n.tries, e);
    var r2 := Rust.Push(r1, Temporary(t), Err(e));
    var r3 := Rust.Push(r2, TryError(n.tries), e);
    CatchesAgree(c, x, n.tries, n2, s.kind.catches, t1, e, m1, r3, fuel);
    var (k, m2) := ExecCatches(c, s.kind.catches, e, m1, fuel);
    var (j, r4) := Rust.ExecStatements(c.oracle, Handlers(x, n, s, t), r3, fuel);
    HandlersLeft(k, m2, j, r4, m1, r2, TryError(n.tries), e, x);
    AgreeAfter(k, m2, j, Rust.Leave(|r2.env|, r4), r.env, r2.env, x);
  }

  /** The caught error goes when the handlers end. */
  lemma HandlersLeft(
    k: Completion, m2: Machine, j: Rust.Jump, r4: Rust.Machine, m1: Machine, r2: Rust.Machine, error: Name, e: Value,
    x: Enclosing)
    requires !IsVisible(error) && Related(m1, r2) && AgreeScoped(k, m2, j, r4, r2.env + [(error, e)], x)
    ensures Agree(k, m2, j, Rust.Leave(|r2.env|, r4), r2.env, x)
  {
    LeavingScope(k, m2, j, r4, m1, r2, [(error, e)], x);
    if !k.OutOfFuel? {
      PushHidden(m1, r2, error, e);
      VisibleNamesOnly(r2.env + [(error, e)], r4.env);
      assert m2.env[..|m1.env|] == m2.env;
    }
  }

  lemma {:induction false} CatchesAgree(
    c: Context, x: Enclosing, index: nat, n: Counters, catches: seq<SourceCatch>, t: nat,
    e: Value, m: Machine, r: Rust.Machine, fuel: nat)
    requires Placed(c, x) && LowerCatches(catches, InCatch(x, index), n).Success?
    requires Related(m, r) && Lookup(r.env, TryError(index)) == e
    ensures var hs := LowerCatches(catches, InCatch(x, index), n).value.0;
            var (k, m1) := ExecCatches(c, catches, e, m, fuel);
            var (j, r1) := Rust.ExecStatements(
              c.oracle, EmitCatches(hs, TryError(index), UnmatchedTarget(x), t).0, r, fuel);
            AgreeScoped(k, m1, j, r1, r.env, x)
    decreases fuel, catches
  {
    if |catches| == 0 {
      PropagationRaises(c.oracle, UnmatchedTarget(x), TryError(index), e, r, fuel);
    } else {
      var (body, n1) := LowerClauseBody(catches[0], InCatch(x, index), n).value;
      var hs := LowerCatches(catches[1..], InCatch(x, index), n1).value.0;
      var h := Hir.Catch(Filter(catches[0]), body);
      assert ([h] + hs)[1..] == hs;
      var (otherwise, t1) := EmitCatches(hs, TryError(index), UnmatchedTarget(x), t);
      var rs := EmitCatch(h, TryError(index), otherwise, t1).0;
      SingleStatement(c.oracle, rs[0], r, fuel);
      if Handles(catches[0], e) {
        HandlerAgrees(c, x, index, n, catches[0], otherwise, t1, e, m, r, fuel);
      } else {
        CatchesAgree(c, x, index, n1, catches[1..], t, e, m, r, fuel);
        CatchPassed(
          c.oracle, x, catches[0], TryError(index), body, otherwise, t1, ExecCatches(c, catches[1..], e, m, fuel), e, r,
          fuel);
      }
    }
  }

  /** A handler that does not accept the error leaves it to the ones after it. */
  lemma CatchPassed(
    o: Oracle, x: Enclosing, clause: SourceCatch, error: Name, body: seq<Hir.Statement>, otherwise: seq<Rust.Statement>,
    t: nat, end: (Completion, Machine), e: Value, r: Rust.Machine, fuel: nat)
    requires !Handles(clause, e) && Lookup(r.env, error) == e
    requires var (j, r1) := Rust.ExecStatements(o, otherwise, r, fuel);
             AgreeScoped(end.0, end.1, j, r1, r.env, x)
    ensures var s := EmitCatch(Hir.Catch(Filter(clause), body), error, otherwise, t).0[0];
            var (j, r1) := Rust.Exec(o, s, r, fuel);
            AgreeScoped(end.0, end.1, j, r1, r.env, x)
  {
    ProjectFindsBase(e, clause.binding.value.exceptionType);
    var r1 := Rust.ExecStatements(o, otherwise, r, fuel).1;
    if !end.0.OutOfFuel? {
      assert r1.env[..|r.env|] == r1.env;
    }
  }

  /** The handler that accepts the error runs with the matching part of it bound. */
  lemma {:induction false} HandlerAgrees(
    c: Context, x: Enclosing, index: nat, n: Counters, clause: SourceCatch, otherwise: seq<Rust.Statement>, t: nat,
    e: Value, m: Machine, r: Rust.Machine, fuel: nat)
    requires Placed(c, x) && LowerClauseBody(clause, InCatch(x, index), n).Success? && Handles(clause, e)
    requires Related(m, r) && Lookup(r.env, TryError(index)) == e
    ensures var h := Hir.Catch(Filter(clause), LowerClauseBody(clause, InCatch(x, index), n).value.0);
            var (k, m1) := ExecHandler(c, clause, e, m, fuel);
            var (j, r1) := Rust.Exec(c.oracle, EmitCatch(h, TryError(index), otherwise, t).0[0], r, fuel);
            AgreeScoped(k, m1, j, r1, r.env, x)
    decreases fuel, clause
  {
    if clause.binding.None? {
      AnyHandlerAgrees(c, x, index, n, clause, otherwise, t, e, m, r, fuel);
    } else {
      TypedHandlerAgrees(c, x, index, n, clause, otherwise, t, e, m, r, fuel);
    }
  }

  lemma {:induction false} AnyHandlerAgrees(
    c: Context, x: Enclosing, index: nat, n: Counters, clause: SourceCatch, otherwise: seq<Rust.Statement>, t: nat,
    e: Value, m: Machine, r: Rust.Machine, fuel: nat)
    requires Placed(c, x) && LowerClauseBody(clause, InCatch(x, index), n).Success? && clause.binding.None?
    requires Related(m, r) && Lookup(r.env, TryError(index)) == e
    ensures var h := Hir.Catch(Filter(clause), LowerClauseBody(clause, InCatch(x, index), n).value.0);
            var (k, m1) := ExecHandler(c, clause, e, m, fuel);
            var (j, r1) := Rust.Exec(c.oracle, EmitCatch(h, TryError(index), otherwise, t).0[0], r, fuel);
            AgreeScoped(k, m1, j, r1, r.env, x)
    decreases fuel, clause, 0
  {
    var body := EmitStatements(LowerClauseBody(clause, InCatch(x, index), n).value.0, t).0;
    assert m.env + [] == m.env;
    BlockAgrees(c, InCatch(x, index), n, clause.body, t, Some(e), m, r, fuel);
    var (k, m1) := ExecBlock(c, clause.body, Some(e), m, fuel);
    var (j, r1) := Rust.ExecBraces(c.oracle, body, r, fuel);
    AlreadyLeft(k, m1, j, r1, m, r, x);
  }

  lemma {:induction false} TypedHandlerAgrees(
    c: Context, x: Enclosing, index: nat, n: Counters, clause: SourceCatch, otherwise: seq<Rust.Statement>, t: nat,
    e: Value, m: Machine, r: Rust.Machine, fuel: nat)
    requires Placed(c, x) && LowerClauseBody(clause, InCatch(x, index), n).Success? && Handles(clause, e)
    requires clause.binding.Some? && Related(m, r) && Lookup(r.env, TryError(index)) == e
    ensures var h := Hir.Catch(Filter(clause), LowerClauseBody(clause, InCatch(x, index), n).value.0);
            var (k, m1) := ExecHandler(c, clause, e, m, fuel);
            var (j, r1) := Rust.Exec(c.oracle, EmitCatch(h, TryError(index), otherwise, t).0[0], r, fuel);
            AgreeScoped(k, m1, j, r1, r.env, x)
    decreases fuel, clause, 0
  {
    var body := EmitStatements(LowerClauseBody(clause, InCatch(x, index), n).value.0, t).0;
    var ty, name := clause.binding.value.exceptionType, Source(clause.binding.value.name);
    var part := FirstOfType(Subobjects(e), ty).value;
    var m0, r0 := m.(env := m.env + [(name, part)]), Rust.Push(r, name, part);
    PushVisible(m, r, name, part);
    LookupPushed(r.env, name, part);
    BlockAgrees(c, InCatch(x, index), n, clause.body, t, Some(e), m0, r0, fuel);
    var (k, m1) := ExecBlock(c, clause.body, Some(e), m0, fuel);
    var (j, r1) := Rust.ExecBraces(c.oracle, body, r0, fuel);
    LeavingScope(k, m1, j, r1, m, r, [(name, part)], x);
    ProjectionRuns(c.oracle, name, TryError(index), ty, e, body, otherwise, r, fuel);
  }

  /** The generated `if let` on the projected error runs the handler with the part found. */
  lemma ProjectionRuns(
    o: Oracle, binding: Name, error: Name, ty: nat, e: Value, body: seq<Rust.Statement>, otherwise: seq<Rust.Statement>,
    r: Rust.Machine, fuel: nat)
    requires Lookup(r.env, error) == e && FirstOfType(Subobjects(e), ty).Some?
    ensures var r0 := Rust.Push(r, binding, FirstOfType(Subobjects(e), ty).value);
            var (j, r1) := Rust.ExecBraces(o, body, r0, fuel);
            Rust.Exec(o, Rust.IfLetProject(binding, error, ty, [Rust.Braces(body)], otherwise), r, fuel)
            == (j, Rust.Leave(|r.env|, r1))
  {
    ProjectFindsBase(e, ty);
    SingleStatement(o, Rust.Braces(body), Rust.Push(r, binding, FirstOfType(Subobjects(e), ty).value), fuel);
  }

  // ----- three-clause loops -----

  /** The body of the generated `loop` after the update step. */
  function RoundStatements(x: Enclosing, n: Counters, s: SourceStatement, t: nat): seq<Rust.Statement>
    requires s.kind.For? && s.kind.clause.Classic? && LoweredFor(s, x, n).Success?
  {
    var t1 := EmitInitializer(LowerInitializer(s.kind.clause.initializer, x.target), t).1;
    var (condition, t2) := EmitOptional(LowerOptional(s.kind.clause.condition, x.target), t1);
    ConditionCheck(condition, Hir.LoopLabel(n.loops))
    + [Rust.Braces(EmitStatements(LowerLoop(s.kind.body, x, n).value.0, t2).0)]
  }

  /** The emitted test leaves the loop, goes on into the body, or raises as the condition does. */
  lemma TestAgrees(
    c: Context, x: Enclosing, condition: Option<FlowExpression>, tag: Hir.Label, t: nat, m: Machine, r: Rust.Machine,
    fuel: nat)
    requires Related(m, r)
    ensures var (v, m1) := Test(c, condition, m);
            var check := ConditionCheck(EmitOptional(LowerOptional(condition, x.target), t).0, tag);
            var (j, r1) := Rust.ExecStatements(c.oracle, check, r, fuel);
            && Related(m1, r1) && Continues(r.env, r1.env) && |r1.env| == |r.env|
            && (v.Raises? ==> Raised(v.error, j, x.target))
            && (v.Produced? ==> j == if Truthy(v.value) then Rust.Next else Rust.BreakTo(tag, None))
  {
    if condition.Some? {
      EvalAgrees(c.oracle, condition.value, x.target, t, m, r, fuel);
      CheckEnds(c.oracle, Compiled(condition.value, x.target, t), tag, r, fuel);
    } else {
      assert Rust.ExecStatements(c.oracle, [], r, fuel) == (Rust.Next, r);
    }
  }

  /** One round of the loop: its jumps end or repeat the loop exactly when the source does. */
  lemma {:induction false} RoundAgrees(
    c: Context, x: Enclosing, n: Counters, s: SourceStatement, t: nat,
    caught: Option<Value>, m: Machine, r: Rust.Machine, fuel: nat)
    requires Ready(c, x, caught, m, r) && s.kind.For? && s.kind.clause.Classic? && LoweredFor(s, x, n).Success?
    ensures var (k, m1) := ClassicRound(c, s, caught, m, fuel);
            var (j, r1) := Rust.ExecStatements(c.oracle, RoundStatements(x, n, s, t), r, fuel);
            RoundSimulated(k, m1, j, r1, Hir.LoopLabel(n.loops), r.env, x)
    decreases fuel, s, 0, 0
  {
    var tag, condition := Hir.LoopLabel(n.loops), s.kind.clause.condition;
    var t1 := EmitInitializer(LowerInitializer(s.kind.clause.initializer, x.target), t).1;
    var (check, t2) := EmitOptional(LowerOptional(condition, x.target), t1);
    var body := EmitStatements(LowerLoop(s.kind.body, x, n).value.0, t2).0;
    TestAgrees(c, x, condition, tag, t1, m, r, fuel);
    StatementsAppend(c.oracle, ConditionCheck(check, tag), [Rust.Braces(body)], r, fuel);
    var (v, m1) := Test(c, condition, m);
    var (j, r1) := Rust.ExecStatements(c.oracle, ConditionCheck(check, tag), r, fuel);
    if v.Raises? {
      RaisedElsewhere(v.error, j, x, tag);
    } else if Truthy(v.value) {
      SingleStatement(c.oracle, Rust.Braces(body), r1, fuel);
      CaughtKept(x, caught, r.env, r1.env);
      LoopBodyAgrees(c, x, n, s.kind.body, t2, caught, m1, r1, r.env, fuel);
    }
  }

  /** The generated `if !(condition) { break 'tag; }`. */
  lemma CheckEnds(o: Oracle, condition: Rust.Expression, tag: Hir.Label, r: Rust.Machine, fuel: nat)
    ensures var (w, r1) := Rust.Eval(o, condition, r, fuel);
            Rust.ExecStatements(o, ConditionCheck(Some(condition), tag), r, fuel)
            == if w.Jumps? then (w.jump, r1)
               else if Truthy(w.value) then (Rust.Next, r1)
               else (Rust.BreakTo(tag, None), r1)
  {
    var (w, r1) := Rust.Eval(o, condition, r, fuel);
    var check := ConditionCheck(Some(condition), tag)[0];
    SingleStatement(o, check, r, fuel);
    SingleStatement(o, Rust.Break(tag), r1, fuel);
    assert Rust.Eval(o, Rust.Not(condition), r, fuel)
        == (if w.Jumps? then w else Rust.Yields(Flag(!Truthy(w.value))), r1);
    assert r1.env[..|r1.env|] == r1.env;
    assert Rust.ExecStatements(o, [], r1, fuel) == (Rust.Next, r1);
    assert Rust.ExecBraces(o, [Rust.Break(tag)], r1, fuel) == (Rust.BreakTo(tag, None), r1);
    assert Rust.ExecBraces(o, [], r1, fuel) == (Rust.Next, r1);
    assert Rust.Exec(o, check, r, fuel) == Rust.ExecIf(o, check, r, fuel);
  }

  /** The braces of a loop body leave nothing behind that the round has not left already. */
  lemma RoundInBraces(
    k: Completion, m: Machine, j: Rust.Jump, r1: Rust.Machine, tag: Hir.Label, r: Rust.Machine, x: Enclosing)
    requires RoundSimulated(k, m, j, r1, tag, r.env, x)
    ensures RoundSimulated(k, m, j, Rust.Leave(|r.env|, r1), tag, r.env, x)
  {
    if !k.OutOfFuel? {
      assert r1.env[..|r.env|] == r1.env;
    }
  }

  lemma {:induction false} PlainLoopAgrees(
    c: Context, x: Enclosing, n: Counters, s: SourceStatement, t: nat,
    caught: Option<Value>, m: Machine, r: Rust.Machine, fuel: nat)
    requires Ready(c, x, caught, m, r) && s.kind.For? && s.kind.clause.Classic? && LoweredFor(s, x, n).Success?
    requires s.kind.clause.update.None?
    ensures var loop := Rust.Loop(Hir.LoopLabel(n.loops), RoundStatements(x, n, s, t));
            OneSimulated(c.oracle, ExecClassic(c, s, caught, m, fuel), loop, r, fuel, x)
    decreases fuel, s, 0, 1
  {
    if fuel > 0 {
      var tag, body := Hir.LoopLabel(n.loops), RoundStatements(x, n, s, t);
      RoundAgrees(c, x, n, s, t, caught, m, r, fuel);
      var (k, m1) := ClassicRound(c, s, caught, m, fuel);
      var (j, r1) := Rust.ExecStatements(c.oracle, body, r, fuel);
      RoundInBraces(k, m1, j, r1, tag, r, x);
      if k.Normal? || k.Continuing? {
        CaughtKept(x, caught, r.env, Rust.Leave(|r.env|, r1).env);
        PlainLoopAgrees(c, x, n, s, t, caught, m1, Rust.Leave(|r.env|, r1), fuel - 1);
      }
      PlainGoesOn(c, x, s, tag, body, caught, m, r, fuel);
    }
  }

  lemma PlainGoesOn(
    c: Context, x: Enclosing, s: SourceStatement, tag: Hir.Label, body: seq<Rust.Statement>, caught: Option<Value>,
    m: Machine, r: Rust.Machine, fuel: nat)
    requires s.kind.For? && s.kind.clause.Classic? && s.kind.clause.update.None? && fuel > 0
    requires var (k, m1) := ClassicRound(c, s, caught, m, fuel);
             var (j, r1) := Rust.ExecBraces(c.oracle, body, r, fuel);
             && RoundSimulated(k, m1, j, r1, tag, r.env, x)
             && (k.Normal? || k.Continuing? ==>
                   OneSimulated(
                     c.oracle, ExecClassic(c, s, caught, m1, fuel - 1), Rust.Loop(tag, body), r1, fuel - 1, x))
    ensures OneSimulated(c.oracle, ExecClassic(c, s, caught, m, fuel), Rust.Loop(tag, body), r, fuel, x)
  {
    var (k, m1) := ClassicRound(c, s, caught, m, fuel);
    var (j, r1) := Rust.ExecBraces(c.oracle, body, r, fuel);
    RustLoopUnfolds(c.oracle, tag, body, r, fuel);
    ClassicUnfolds(c, s, caught, m, fuel);
    RoundThen(
      k, m1, j, r1, tag, r.env, x, ExecClassic(c, s, caught, m1, fuel - 1),
      Rust.ExecLoop(c.oracle, Rust.Loop(tag, body), r1, fuel - 1));
  }

  /** A three-clause loop without an update. */
  lemma ClassicUnfolds(c: Context, s: SourceStatement, caught: Option<Value>, m: Machine, fuel: nat)
    requires s.kind.For? && s.kind.clause.Classic? && s.kind.clause.update.None? && fuel > 0
    ensures var (k, m1) := ClassicRound(c, s, caught, m, fuel);
            ExecClassic(c, s, caught, m, fuel) == AfterRound(k, m1, ExecClassic(c, s, caught, m1, fuel - 1))
  {
  }

  /** The `first` flag is the newest variable; it says whether the update is still to be skipped. */
  ghost predicate FlagOnTop(r: Rust.Machine, first: Name, skip: bool) {
    first.Temporary? && |r.env| > 0 && r.env[|r.env| - 1] == (first, Flag(skip))
  }

  /** The part of a round before the condition. */
  function SkipOrUpdate(c: Context, s: SourceStatement, skip: bool, m: Machine): (Completion, Machine)
    requires s.kind.For? && s.kind.clause.Classic? && s.kind.clause.update.Some?
  {
    if skip then (Normal, m) else Discard(c, s.kind.clause.update.value, m)
  }

  /** How a part of an iteration ends that starts and ends with the flag on top. */
  ghost predicate Flagged(
    c: Context, x: Enclosing, caught: Option<Value>, m: Machine, before: Env, first: Name, r: Rust.Machine)
    requires |before| > 0
  {
    && Ready(c, x, caught, m, r) && |r.env| == |before|
    && Continues(before[..|before| - 1], r.env) && FlagOnTop(r, first, false)
  }

  lemma StepAgrees(
    c: Context, x: Enclosing, s: SourceStatement, u: nat, first: Name, skip: bool,
    caught: Option<Value>, m: Machine, r: Rust.Machine, fuel: nat)
    requires Ready(c, x, caught, m, r) && FlagOnTop(r, first, skip)
    requires s.kind.For? && s.kind.clause.Classic? && s.kind.clause.update.Some?
    ensures var update := Compiled(s.kind.clause.update.value, x.target, u);
            var (k, m1) := SkipOrUpdate(c, s, skip, m);
            var (j, r1) := Rust.Exec(c.oracle, UpdateStep(first, update), r, fuel);
            && (k.Normal? ==> j.Next?) && (k.Throwing? ==> Raised(k.error, j, x.target))
            && Flagged(c, x, caught, m1, r.env, first, r1)
  {
    var update := s.kind.clause.update.value;
    StepRuns(c.oracle, first, Compiled(update, x.target, u), skip, r, fuel);
    if skip {
      ClearsFlag(c, x, first, caught, m, r, fuel);
    } else {
      EvalAgrees(c.oracle, update, x.target, u, m, r, fuel);
      var (w, r1) := Rust.Eval(c.oracle, Compiled(update, x.target, u), r, fuel);
      CaughtKept(x, caught, r.env, r1.env);
      FlagStays(r, r1, first);
      assert r1.env[..|r.env|] == r1.env;
    }
  }

  /** The flag decides whether the step clears it or runs the update. */
  lemma StepRuns(o: Oracle, first: Name, update: Rust.Expression, skip: bool, r: Rust.Machine, fuel: nat)
    requires FlagOnTop(r, first, skip)
    ensures var (w, r1) := Rust.Eval(o, update, r, fuel);
            var clear := Rust.Evaluate(Rust.Assign(first, Rust.Constant(Flag(false))));
            Rust.Exec(o, UpdateStep(first, update), r, fuel)
            == if skip then Rust.ExecBraces(o, [clear], r, fuel)
               else (if w.Jumps? then w.jump else Rust.Next, Rust.Leave(|r.env|, r1))
  {
    var step := UpdateStep(first, update);
    FlagIsRead(r, first, skip);
    assert Rust.Eval(o, Rust.Variable(first), r, fuel) == (Rust.Yields(Flag(skip)), r);
    var clear := Rust.Evaluate(Rust.Assign(first, Rust.Constant(Flag(false))));
    var branch := if skip then [clear] else [Rust.Evaluate(update)];
    assert Rust.Exec(o, step, r, fuel) == Rust.ExecIf(o, step, r, fuel) == Rust.ExecBraces(o, branch, r, fuel);
    if !skip {
      SingleStatement(o, Rust.Evaluate(update), r, fuel);
    }
  }

  lemma FlagIsRead(r: Rust.Machine, first: Name, skip: bool)
    requires FlagOnTop(r, first, skip)
    ensures Lookup(r.env, first) == Flag(skip)
  {
    var rest := r.env[..|r.env| - 1];
    LookupPushed(rest, first, Flag(skip));
    assert rest + [(first, Flag(skip))] == r.env;
  }

  lemma FlagStays(r: Rust.Machine, r1: Rust.Machine, first: Name)
    requires FlagOnTop(r, first, false) && Continues(r.env, r1.env) && |r1.env| == |r.env|
    ensures FlagOnTop(r1, first, false) && Continues(r.env[..|r.env| - 1], r1.env)
  {
  }

  /** The first iteration clears the flag instead of running the update. */
  lemma ClearsFlag(
    c: Context, x: Enclosing, first: Name, caught: Option<Value>, m: Machine, r: Rust.Machine, fuel: nat)
    requires Ready(c, x, caught, m, r) && FlagOnTop(r, first, true)
    ensures var clear := Rust.Evaluate(Rust.Assign(first, Rust.Constant(Flag(false))));
            var (j, r1) := Rust.ExecBraces(c.oracle, [clear], r, fuel);
            j.Next? && Flagged(c, x, caught, m, r.env, first, r1)
  {
    var rest := r.env[..|r.env| - 1];
    var clear := Rust.Evaluate(Rust.Assign(first, Rust.Constant(Flag(false))));
    var r1 := r.(env := rest + [(first, Flag(false))]);
    SingleStatement(c.oracle, clear, r, fuel);
    assert rest + [(first, Flag(true))] == r.env;
    assert Rust.Eval(c.oracle, Rust.Constant(Flag(false)), r, fuel) == (Rust.Yields(Flag(false)), r);
    assert Rust.Eval(c.oracle, clear.expression, r, fuel) == (Rust.Yields(Unit), r1);
    assert Rust.Exec(c.oracle, clear, r, fuel) == (Rust.Next, r1);
    assert r1.env[..|r.env|] == r1.env;
    FlagHidden(x, first, caught, m, r, rest);
  }

  /** What is related and caught does not depend on the flag. */
  lemma FlagHidden(x: Enclosing, first: Name, caught: Option<Value>, m: Machine, r: Rust.Machine, rest: Env)
    requires first.Temporary? && r.env == rest + [(first, Flag(true))] && Related(m, r)
    requires CaughtMatches(x, caught, r.env)
    ensures var r1 := r.(env := rest + [(first, Flag(false))]);
            Related(m, r1) && CaughtMatches(x, caught, r1.env)
  {
    VisibleAppend(rest, [(first, Flag(true))]);
    VisibleAppend(rest, [(first, Flag(false))]);
    assert Visible([(first, Flag(true))]) == Visible([(first, Flag(false))]) by {
      assert [(first, Flag(true))][..0] == [] && [(first, Flag(false))][..0] == [];
    }
    if x.caught.Some? {
      assert (rest + [(first, Flag(true))])[..|rest|] == rest && (rest + [(first, Flag(false))])[..|rest|] == rest;
    }
  }

  /** One whole iteration of the generated `loop`: the update unless skipped, then a round. */
  function SkippingRound(c: Context, s: SourceStatement, skip: bool, caught: Option<Value>, m: Machine, fuel: nat)
    : (Completion, Machine)
    requires s.kind.For? && s.kind.clause.Classic? && s.kind.clause.update.Some?
  {
    var (k, m1) := SkipOrUpdate(c, s, skip, m);
    if k.Normal? then ClassicRound(c, s, caught, m1, fuel) else (k, m1)
  }

  function IterationBody(x: Enclosing, n: Counters, s: SourceStatement, t: nat, u: nat, first: Name)
    : seq<Rust.Statement>
    requires s.kind.For? && s.kind.clause.Classic? && s.kind.clause.update.Some? && LoweredFor(s, x, n).Success?
  {
    [UpdateStep(first, Compiled(s.kind.clause.update.value, x.target, u))] + RoundStatements(x, n, s, t)
  }

  /** What a loop with a flag makes of an iteration. */
  ghost predicate IterationSimulated(
    c: Context, x: Enclosing, caught: Option<Value>, k: Completion, m: Machine, j: Rust.Jump, r: Rust.Machine,
    tag: Hir.Label, before: Env, first: Name)
    requires |before| > 0
  {
    && (k.Breaking? <==> Rust.Stops(j, tag))
    && (k.Normal? || k.Continuing? <==> Rust.Repeats(j, tag))
    && (!k.Breaking? && !k.Normal? && !k.Continuing? ==> Matches(k, j, x))
    && (!k.OutOfFuel? ==> Flagged(c, x, caught, m, before, first, r))
  }

  lemma {:induction false} IterationAgrees(
    c: Context, x: Enclosing, n: Counters, s: SourceStatement, t: nat, u: nat, first: Name, skip: bool,
    caught: Option<Value>, m: Machine, r: Rust.Machine, fuel: nat)
    requires Ready(c, x, caught, m, r) && s.kind.For? && s.kind.clause.Classic? && LoweredFor(s, x, n).Success?
    requires s.kind.clause.update.Some? && FlagOnTop(r, first, skip)
    ensures var (k, m1) := SkippingRound(c, s, skip, caught, m, fuel);
            var (j, r1) := Rust.ExecBraces(c.oracle, IterationBody(x, n, s, t, u, first), r, fuel);
            IterationSimulated(c, x, caught, k, m1, j, r1, Hir.LoopLabel(n.loops), r.env, first)
    decreases fuel, s, 0, 1
  {
    var tag := Hir.LoopLabel(n.loops);
    var step := UpdateStep(first, Compiled(s.kind.clause.update.value, x.target, u));
    var round := RoundStatements(x, n, s, t);
    StepAgrees(c, x, s, u, first, skip, caught, m, r, fuel);
    StatementsAppend(c.oracle, [step], round, r, fuel);
    SingleStatement(c.oracle, step, r, fuel);
    var (k0, m0) := SkipOrUpdate(c, s, skip, m);
    var (j0, r0) := Rust.Exec(c.oracle, step, r, fuel);
    if k0.Normal? {
      RoundAgrees(c, x, n, s, t, caught, m0, r0, fuel);
      var (k, m1) := ClassicRound(c, s, caught, m0, fuel);
      var (j, r1) := Rust.ExecStatements(c.oracle, round, r0, fuel);
      FlaggedRound(c, x, caught, k, m1, j, r1, tag, m0, r0, r, first);
    } else {
      RaisedElsewhere(k0.error, j0, x, tag);
      assert r0.env[..|r.env|] == r0.env;
    }
  }

  /** A round that started with the flag on top ends with it on top. */
  lemma FlaggedRound(
    c: Context, x: Enclosing, caught: Option<Value>, k: Completion, m1: Machine, j: Rust.Jump, r1: Rust.Machine,
    tag: Hir.Label, m0: Machine, r0: Rust.Machine, r: Rust.Machine, first: Name)
    requires |r.env| > 0 && Flagged(c, x, caught, m0, r.env, first, r0) && RoundSimulated(k, m1, j, r1, tag, r0.env, x)
    ensures IterationSimulated(c, x, caught, k, m1, j, Rust.Leave(|r.env|, r1), tag, r.env, first)
  {
    if !k.OutOfFuel? {
      assert r1.env[..|r.env|] == r1.env;
      CaughtKept(x, caught, r0.env, r1.env);
      FlagStays(r0, r1, first);
      ContinuesTransitive(r.env[..|r.env| - 1], r0.env, r1.env);
    }
  }

  /** The source loop entered before the condition (`skip`) or before the update. */
  function LoopFrom(c: Context, s: SourceStatement, skip: bool, caught: Option<Value>, m: Machine, fuel: nat)
    : (Completion, Machine)
    requires s.kind.For? && s.kind.clause.Classic?
  {
    if skip then ExecClassic(c, s, caught, m, fuel) else ExecUpdate(c, s, caught, m, fuel)
  }

  lemma LoopFromUnfolds(c: Context, s: SourceStatement, skip: bool, caught: Option<Value>, m: Machine, fuel: nat)
    requires s.kind.For? && s.kind.clause.Classic? && s.kind.clause.update.Some? && fuel > 0
    ensures var (k, m1) := SkippingRound(c, s, skip, caught, m, fuel);
            LoopFrom(c, s, skip, caught, m, fuel) == AfterRound(k, m1, LoopFrom(c, s, false, caught, m1, fuel - 1))
  {
    var (u, m1) := SkipOrUpdate(c, s, skip, m);
    if u.Normal? {
      assert LoopFrom(c, s, skip, caught, m, fuel) == ExecClassic(c, s, caught, m1, fuel);
    }
  }

  lemma RustLoopUnfolds(o: Oracle, tag: Hir.Label, body: seq<Rust.Statement>, r: Rust.Machine, fuel: nat)
    requires fuel > 0
    ensures var (j, r1) := Rust.ExecBraces(o, body, r, fuel);
            Rust.ExecLoop(o, Rust.Loop(tag, body), r, fuel)
            == RustAfterRound(j, r1, tag, Rust.ExecLoop(o, Rust.Loop(tag, body), r1, fuel - 1))
  {
  }

  /** The conclusion of `UpdatingLoopAgrees`. */
  ghost predicate LoopEndsAgree(
    k: Completion, m: Machine, j: Rust.Jump, r: Rust.Machine, before: Env, first: Name, x: Enclosing)
    requires |before| > 0
  {
    && Matches(k, j, x)
    && (!k.OutOfFuel? ==>
          && Related(m, r) && Continues(before[..|before| - 1], r.env)
          && |r.env| == |before| && r.env[|before| - 1].0 == first)
  }

  lemma {:induction false} UpdatingLoopAgrees(
    c: Context, x: Enclosing, n: Counters, s: SourceStatement, t: nat, u: nat, first: Name, skip: bool,
    caught: Option<Value>, m: Machine, r: Rust.Machine, fuel: nat)
    requires Ready(c, x, caught, m, r) && s.kind.For? && s.kind.clause.Classic? && LoweredFor(s, x, n).Success?
    requires s.kind.clause.update.Some? && FlagOnTop(r, first, skip)
    ensures var loop := Rust.Loop(Hir.LoopLabel(n.loops), IterationBody(x, n, s, t, u, first));
            var (k, m1) := LoopFrom(c, s, skip, caught, m, fuel);
            var (j, r1) := Rust.ExecLoop(c.oracle, loop, r, fuel);
            LoopEndsAgree(k, m1, j, r1, r.env, first, x)
    decreases fuel, s, 0, 2
  {
    if fuel > 0 {
      var tag, body := Hir.LoopLabel(n.loops), IterationBody(x, n, s, t, u, first);
      IterationAgrees(c, x, n, s, t, u, first, skip, caught, m, r, fuel);
      LoopFromUnfolds(c, s, skip, caught, m, fuel);
      RustLoopUnfolds(c.oracle, tag, body, r, fuel);
      var (k, m1) := SkippingRound(c, s, skip, caught, m, fuel);
      var (j, r1) := Rust.ExecBraces(c.oracle, body, r, fuel);
      if k.Normal? || k.Continuing? {
        UpdatingLoopAgrees(c, x, n, s, t, u, first, false, caught, m1, r1, fuel - 1);
      }
      IterationThen(
        c, x, caught, k, m1, j, r1, tag, r.env, first, LoopFrom(c, s, false, caught, m1, fuel - 1),
        Rust.ExecLoop(c.oracle, Rust.Loop(tag, body), r1, fuel - 1));
    }
  }

  lemma IterationThen(
    c: Context, x: Enclosing, caught: Option<Value>, k: Completion, m: Machine, j: Rust.Jump, r: Rust.Machine,
    tag: Hir.Label, before: Env, first: Name, again: (Completion, Machine), rustAgain: (Rust.Jump, Rust.Machine))
    requires |before| > 0 && before[|before| - 1].0 == first
    requires IterationSimulated(c, x, caught, k, m, j, r, tag, before, first)
    requires k.Normal? || k.Continuing? ==>
               |r.env| > 0 && LoopEndsAgree(again.0, again.1, rustAgain.0, rustAgain.1, r.env, first, x)
    ensures var end, rustEnd := AfterRound(k, m, again), RustAfterRound(j, r, tag, rustAgain);
            LoopEndsAgree(end.0, end.1, rustEnd.0, rustEnd.1, before, first, x)
  {
    if (k.Normal? || k.Continuing?) && !again.0.OutOfFuel? {
      ContinuesTransitive(before[..|before| - 1], r.env[..|before| - 1], rustAgain.1.env);
    }
  }

  lemma SetupAgrees(
    c: Context, x: Enclosing, initializer: Option<ForInitializer<FlowExpression>>, t: nat, m: Machine, r: Rust.Machine,
    fuel: nat)
    requires Related(m, r)
    ensures Simulated(
              c.oracle, Setup(c, initializer, m), EmitInitializer(LowerInitializer(initializer, x.target), t).0, r,
              fuel, x)
  {
    if initializer.None? {
      assert Rust.ExecStatements(c.oracle, [], r, fuel) == (Rust.Next, r);
    } else if initializer.value.InitializerLocal? {
      var local := initializer.value.local;
      LocalAgrees(c, x, local, t, m, r, fuel);
      OneIsSimulated(c.oracle, Declare(c, local, m), EmittedLocal(local, x, t), r, fuel, x);
    } else {
      var e := initializer.value.expression;
      EvaluationAgrees(c, x, e, t, m, r, fuel);
      OneIsSimulated(c.oracle, Discard(c, e, m), Rust.Evaluate(Compiled(e, x.target, t)), r, fuel, x);
    }
  }

  function LoopStatements(x: Enclosing, n: Counters, s: SourceStatement, t: nat, u: nat, first: Name)
    : seq<Rust.Statement>
    requires s.kind.For? && s.kind.clause.Classic? && LoweredFor(s, x, n).Success?
  {
    var tag := Hir.LoopLabel(n.loops);
    if s.kind.clause.update.None? then [Rust.Loop(tag, RoundStatements(x, n, s, t))]
    else [Rust.Let(first, Rust.Constant(Flag(true))), Rust.Loop(tag, IterationBody(x, n, s, t, u, first))]
  }

  /** What a three-clause loop is emitted as. */
  lemma ClassicEmission(x: Enclosing, n: Counters, s: SourceStatement, t: nat) returns (u: nat, first: Name)
    requires s.kind.For? && s.kind.clause.Classic? && LowerStatement(s, x, n).Success?
    ensures first.Temporary?
    ensures var setup := EmitInitializer(LowerInitializer(s.kind.clause.initializer, x.target), t).0;
            EmitStatement(LowerStatement(s, x, n).value.0, t).0
            == [Rust.Braces(setup + LoopStatements(x, n, s, t, u, first))]
  {
    var tag := Hir.LoopLabel(n.loops);
    var h := LoweredFor(s, x, n).value.0;
    var (setup, t1) := EmitInitializer(h.setup, t);
    var (condition, t2) := EmitOptional(h.test, t1);
    var (body, t3) := EmitStatements(h.body, t2);
    u := t3;
    var (update, t4) := EmitOptional(h.update, t3);
    first := Temporary(t4);
    assert ConditionCheck(condition, tag) + [Rust.Braces(body)] == RoundStatements(x, n, s, t);
    if update.Some? {
      assert [UpdateStep(first, update.value)] + ConditionCheck(condition, tag) + [Rust.Braces(body)]
          == IterationBody(x, n, s, t, u, first);
      var l := Rust.Loop(tag, IterationBody(x, n, s, t, u, first));
      var flag := Rust.Let(first, Rust.Constant(Flag(true)));
      assert setup + [flag] + [l] == setup + [flag, l];
    }
  }

  lemma {:induction false} ClassicForAgrees(
    c: Context, x: Enclosing, n: Counters, s: SourceStatement, t: nat,
    caught: Option<Value>, m: Machine, r: Rust.Machine, fuel: nat)
    requires Ready(c, x, caught, m, r) && s.kind.For? && s.kind.clause.Classic? && LowerStatement(s, x, n).Success?
    ensures StatementSimulated(c, x, n, s, t, caught, m, r, fuel)
    decreases fuel, s, 0, 5
  {
    var u, first := ClassicEmission(x, n, s, t);
    var setup := EmitInitializer(LowerInitializer(s.kind.clause.initializer, x.target), t).0;
    var all := setup + LoopStatements(x, n, s, t, u, first);
    SetupAndLoopAgree(c, x, n, s, t, u, first, caught, m, r, fuel);
    ScopeLeft(c.oracle, ExecFor(c, s, caught, m, fuel), all, m, r, fuel, x);
    OneIsSimulated(c.oracle, ExecForStatement(c, s, caught, m, fuel), Rust.Braces(all), r, fuel, x);
  }

  lemma {:induction false} SetupAndLoopAgree(
    c: Context, x: Enclosing, n: Counters, s: SourceStatement, t: nat, u: nat, first: Name,
    caught: Option<Value>, m: Machine, r: Rust.Machine, fuel: nat)
    requires Ready(c, x, caught, m, r) && s.kind.For? && s.kind.clause.Classic? && LoweredFor(s, x, n).Success?
    requires first.Temporary?
    ensures var setup := EmitInitializer(LowerInitializer(s.kind.clause.initializer, x.target), t).0;
            Simulated(
              c.oracle, ExecFor(c, s, caught, m, fuel), setup + LoopStatements(x, n, s, t, u, first), r, fuel, x)
    decreases fuel, s, 0, 4
  {
    var initializer := s.kind.clause.initializer;
    var setup := EmitInitializer(LowerInitializer(initializer, x.target), t).0;
    SetupAgrees(c, x, initializer, t, m, r, fuel);
    var (k, m1) := Setup(c, initializer, m);
    var r1 := Rust.ExecStatements(c.oracle, setup, r, fuel).1;
    if k.Normal? {
      CaughtKept(x, caught, r.env, r1.env);
      LoopStatementsAgree(c, x, n, s, t, u, first, caught, m1, r1, fuel);
    }
    Sequenced(
      c.oracle, (k, m1), ExecClassic(c, s, caught, m1, fuel), setup, LoopStatements(x, n, s, t, u, first), r, fuel, x);
  }

  lemma {:induction false} LoopStatementsAgree(
    c: Context, x: Enclosing, n: Counters, s: SourceStatement, t: nat, u: nat, first: Name,
    caught: Option<Value>, m: Machine, r: Rust.Machine, fuel: nat)
    requires Ready(c, x, caught, m, r) && s.kind.For? && s.kind.clause.Classic? && LoweredFor(s, x, n).Success?
    requires first.Temporary?
    ensures Simulated(
              c.oracle, ExecClassic(c, s, caught, m, fuel), LoopStatements(x, n, s, t, u, first), r, fuel, x)
    decreases fuel, s, 0, 3
  {
    if s.kind.clause.update.None? {
      PlainLoopAgrees(c, x, n, s, t, caught, m, r, fuel);
      OneIsSimulated(
        c.oracle, ExecClassic(c, s, caught, m, fuel), Rust.Loop(Hir.LoopLabel(n.loops), RoundStatements(x, n, s, t)), r,
        fuel, x);
    } else {
      FlagPushed(c, x, first, caught, m, r);
      UpdatingLoopAgrees(c, x, n, s, t, u, first, true, caught, m, Rust.Push(r, first, Flag(true)), fuel);
      FlaggedLoopAgrees(
        c.oracle, x, ExecClassic(c, s, caught, m, fuel), first,
        Rust.Loop(Hir.LoopLabel(n.loops), IterationBody(x, n, s, t, u, first)), r, fuel);
    }
  }

  /** Declaring the flag and running the loop with it. */
  lemma FlaggedLoopAgrees(
    o: Oracle, x: Enclosing, end: (Completion, Machine), first: Name, loop: Rust.Statement, r: Rust.Machine, fuel: nat)
    requires first.Temporary? && loop.Loop?
    requires var r1 := Rust.Push(r, first, Flag(true));
             var (j, r2) := Rust.ExecLoop(o, loop, r1, fuel);
             LoopEndsAgree(end.0, end.1, j, r2, r1.env, first, x)
    ensures Simulated(o, end, [Rust.Let(first, Rust.Constant(Flag(true))), loop], r, fuel, x)
  {
    var flag := Rust.Let(first, Rust.Constant(Flag(true)));
    var r1 := Rust.Push(r, first, Flag(true));
    TwoStatements(o, flag, loop, r, fuel);
    assert Rust.Eval(o, Rust.Constant(Flag(true)), r, fuel) == (Rust.Yields(Flag(true)), r);
    assert Rust.Exec(o, flag, r, fuel) == (Rust.Next, r1);
    assert r1.env[..|r1.env| - 1] == r.env;
  }

  lemma FlagPushed(c: Context, x: Enclosing, first: Name, caught: Option<Value>, m: Machine, r: Rust.Machine)
    requires Ready(c, x, caught, m, r) && first.Temporary?
    ensures var r1 := Rust.Push(r, first, Flag(true));
            Ready(c, x, caught, m, r1) && FlagOnTop(r1, first, true)
  {
    PushHidden(m, r, first, Flag(true));
    CaughtKept(x, caught, r.env, Rust.Push(r, first, Flag(true)).env);
  }

  // ----- functions -----

  /** The emitted function body, with the label counters and the temporary index there are before it. */
  function Compile(signature: Signature, body: SourceBlock, n: Counters, t: nat): (rs: seq<Rust.Statement>)
    requires LowerFunction(signature, body, n).Success?
  {
    EmitStatements(LowerFunction(signature, body, n).value.0, t).0
  }

  /** What a Rust caller sees for each way a call ends. */
  function ResultOf(end: FunctionEnd, throwing: bool): Rust.Jump {
    match end
    case Value(v) => Rust.Exit(if throwing then Ok(v) else v)
    case Escapes(e) => Rust.Exit(Err(e))
    case Unfinished => Rust.OutOfFuel
  }

  lemma {:induction false} EmitAppend(a: seq<Hir.Statement>, b: seq<Hir.Statement>, t: nat)
    ensures var (first, t1) := EmitStatements(a, t);
            EmitStatements(a + b, t).0 == first + EmitStatements(b, t1).0
    decreases |a|
  {
    if |a| == 0 {
      assert a + b == b;
    } else {
      assert (a + b)[0] == a[0] && (a + b)[1..] == a[1..] + b;
      var (first, t1) := EmitStatement(a[0], t);
      EmitAppend(a[1..], b, t1);
      var (rest, t2) := EmitStatements(a[1..], t1);
      Joined(first, rest, EmitStatements(b, t2).0);
    }
  }

  lemma Joined(a: seq<Rust.Statement>, b: seq<Rust.Statement>, c: seq<Rust.Statement>)
    ensures a + b + c == a + (b + c)
  {
  }

  lemma ImplicitReturnEmission(signature: Signature, body: SourceBlock, t: nat)
    ensures EmitStatements(ImplicitReturn(signature, body), t).0
            == if ImplicitReturn(signature, body) == [] then [] else [EmittedReturn(None, FunctionStart(signature), t)]
  {
    var implicit := ImplicitReturn(signature, body);
    if implicit != [] {
      ReturnEmission(None, FunctionStart(signature), t);
      assert implicit[1..] == [];
    }
  }

  ghost predicate AllVisible(env: Env) {
    forall i :: 0 <= i < |env| ==> IsVisible(env[i].0)
  }

  lemma {:induction false} VisibleOfVisible(env: Env)
    requires AllVisible(env)
    ensures Visible(env) == env
    decreases |env|
  {
    if |env| > 0 {
      VisibleOfVisible(env[..|env| - 1]);
    }
  }

  /** The end of the body list, with the implicit return if there is one. */
  lemma BodyEnds(
    o: Oracle, signature: Signature, body: SourceBlock, k: Completion, m: Machine, t: nat,
    j: Rust.Jump, r: Rust.Machine, before: Env, fuel: nat)
    requires Agree(k, m, j, r, before, FunctionStart(signature))
    requires k.Normal? ==> BlockMayFallThrough(body)
    requires !signature.isVoid ==> !k.Normal?
    ensures var rest := EmitStatements(ImplicitReturn(signature, body), t).0;
            var (j1, r1) := if j.Next? then Rust.ExecStatements(o, rest, r, fuel) else (j, r);
            && r1 == r
            && (if j1.Next? then Rust.Exit(Unit) else j1)
               == if k.Normal? then
                    var v := if IsFluent(signature) then Lookup(r.env, Receiver) else Unit;
                    Rust.Exit(if signature.throwing then Ok(v) else v)
                  else j
  {
    ImplicitReturnEmission(signature, body, t);
    if k.Normal? {
      DivergenceSound.BlockDefinitelyReturnsDoesNotFallThrough(body);
      var implicit := EmittedReturn(None, FunctionStart(signature), t);
      if ImplicitReturn(signature, body) != [] {
        SingleStatement(o, implicit, r, fuel);
        if IsFluent(signature) {
          assert Rust.Eval(o, Rust.Variable(Receiver), r, fuel) == (Rust.Yields(Lookup(r.env, Receiver)), r);
          ReturnOfAgrees(o, Rust.Variable(Receiver), FunctionStart(signature), r, fuel);
        } else {
          assert Rust.Eval(o, Rust.OkUnit, r, fuel) == (Rust.Yields(Ok(Unit)), r);
        }
      } else {
        assert Rust.ExecStatements(o, [], r, fuel) == (Rust.Next, r);
      }
    }
  }

  /** The statements of the body, without the implicit return. */
  function CompiledBody(signature: Signature, body: SourceBlock, n: Counters, t: nat): (seq<Rust.Statement>, nat)
    requires LowerFunction(signature, body, n).Success?
  {
    EmitStatements(LowerStatements(body.statements, FunctionStart(signature), n).value.0, t)
  }

  lemma CompileSplits(signature: Signature, body: SourceBlock, n: Counters, t: nat)
    requires LowerFunction(signature, body, n).Success?
    ensures var (rs, t1) := CompiledBody(signature, body, n, t);
            Compile(signature, body, n, t) == rs + EmitStatements(ImplicitReturn(signature, body), t1).0
  {
    var (hs, _) := LowerStatements(body.statements, FunctionStart(signature), n).value;
    EmitAppend(hs, ImplicitReturn(signature, body), t);
  }

  lemma CompiledBodyAgrees(
    o: Oracle, signature: Signature, body: SourceBlock, n: Counters, t: nat, m: Machine, fuel: nat)
    requires LowerFunction(signature, body, n).Success? && AllVisible(m.env)
    ensures var (k, m1) := ExecStatements(Context(o, IsFluent(signature)), body.statements, None, m, fuel);
            var (j, r1) := Rust.ExecStatements(o, CompiledBody(signature, body, n, t).0, m, fuel);
            Agree(k, m1, j, r1, m.env, FunctionStart(signature)) && (k.Normal? ==> BlockMayFallThrough(body))
  {
    var c, x := Context(o, IsFluent(signature)), FunctionStart(signature);
    VisibleOfVisible(m.env);
    ListAgrees(c, x, n, body.statements, t, None, m, m, fuel);
    if ExecStatements(c, body.statements, None, m, fuel).0.Normal? {
      DivergenceSound.NormalStatementsFallThrough(c, body.statements, None, m, fuel);
    }
  }

  /** A run of a function with a result does not reach the end of the body. */
  ghost predicate EndsWithValue(o: Oracle, signature: Signature, body: SourceBlock, m: Machine, fuel: nat) {
    !signature.isVoid ==> !ExecStatements(Context(o, IsFluent(signature)), body.statements, None, m, fuel).0.Normal?
  }

  /**
   That is so in all runs of a body that cannot end by its text: one that may not fall through, or that
   ends in a loop without a condition and without a `break`, for example.
   */
  lemma StaticallyEndsWithValue(o: Oracle, signature: Signature, body: SourceBlock, m: Machine, fuel: nat)
    requires !signature.isVoid ==> !DivergenceSound.ListCanEnd(body.statements)
    ensures EndsWithValue(o, signature, body, m, fuel)
  {
    DivergenceSound.ListRunsEndAsWritten(Context(o, IsFluent(signature)), body.statements, None, m, fuel);
  }

  /** What the run of the emitted body has to do with the run of the source. */
  ghost predicate SameEnd(end: FunctionEnd, m: Machine, j: Rust.Jump, r: Rust.Machine, throwing: bool) {
    && (j == ResultOf(end, throwing) || (end.Escapes? && !throwing && j.Panic?))
    && (!end.Unfinished? ==> Visible(r.env) == m.env && r.world == m.world)
  }

  /** The end of a function, from how its body ends in source and target. */
  lemma FunctionEnds(
    o: Oracle, signature: Signature, body: SourceBlock, rs: seq<Rust.Statement>, t: nat, m: Machine, fuel: nat)
    requires Visible(m.env) == m.env && EndsWithValue(o, signature, body, m, fuel)
    requires var (k, m1) := ExecStatements(Context(o, IsFluent(signature)), body.statements, None, m, fuel);
             var (j, r1) := Rust.ExecStatements(o, rs, m, fuel);
             Agree(k, m1, j, r1, m.env, FunctionStart(signature)) && (k.Normal? ==> BlockMayFallThrough(body))
    ensures var (end, m1) := Run(Context(o, IsFluent(signature)), body, m, fuel);
            var (j, r1) := Rust.Run(o, rs + EmitStatements(ImplicitReturn(signature, body), t).0, m, fuel);
            SameEnd(end, m1, j, r1, signature.throwing)
  {
    StatementsAppend(o, rs, EmitStatements(ImplicitReturn(signature, body), t).0, m, fuel);
    var (k, m1) := ExecStatements(Context(o, IsFluent(signature)), body.statements, None, m, fuel);
    var (j, r1) := Rust.ExecStatements(o, rs, m, fuel);
    BodyEnds(o, signature, body, k, m1, t, j, r1, m.env, fuel);
    LeavingAgrees(k, m1, j, r1, m, m, FunctionStart(signature));
    VisibleLookup(r1.env, Receiver);
  }

  /**
   For every function body that lowering accepts, every argument environment, every behaviour of
   the called functions, every amount of fuel and whatever was compiled before: the emitted function
   ends as the source function does, with the same final variables and the same calls made, unless the
   run comes to the end of a body that has to return a value. The one exception is an exception that
   escapes a function declared not to throw, which the earlier passes rule out: it may also reach the
   `unreachable!` of a try.
   */
  lemma CompilationPreservesMeaning(
    o: Oracle, signature: Signature, body: SourceBlock, n: Counters, t: nat, env: Env, world: int, fuel: nat)
    requires LowerFunction(signature, body, n).Success?
    requires EndsWithValue(o, signature, body, Machine(env, world), fuel)
    requires AllVisible(env)
    ensures var m := Machine(env, world);
            var (end, m1) := Run(Context(o, IsFluent(signature)), body, m, fuel);
            var (j, r1) := Rust.Run(o, Compile(signature, body, n, t), m, fuel);
            && (j == ResultOf(end, signature.throwing) || (end.Escapes? && !signature.throwing && j.Panic?))
            && (!end.Unfinished? ==> Visible(r1.env) == m1.env && r1.world == m1.world)
  {
    VisibleOfVisible(env);
    CompileSplits(signature, body, n, t);
    CompiledBodyAgrees(o, signature, body, n, t, Machine(env, world), fuel);
    var (rs, t1) := CompiledBody(signature, body, n, t);
    FunctionEnds(o, signature, body, rs, t1, Machine(env, world), fuel);
  }
}
