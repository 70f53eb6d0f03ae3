/**
 Emission of Rust from the intermediate representation. The functions thread the counter of
 generated temporaries; `Emitter` is the pass itself, which keeps the counter in a field.
 */
module Codegen {
  import opened Wrappers
  import opened Values
  import Hir
  import Rust = RustTarget

  type Emitted = (seq<Rust.Statement>, nat)

  function ExceptionPropagation(target: Hir.ExceptionTarget, error: Rust.Expression): Rust.Statement {
    match target
    case ToFunction => Rust.Return(Rust.ErrOf(error))
    case ToTry(tag) => Rust.BreakWith(tag, Rust.ErrOf(error))
    case Unreachable => Rust.UnreachableMacro
  }

  function EmitExpression(e: Hir.Expression, t: nat): (Rust.Expression, nat) {
    match e
    case Read(name) => (Rust.Variable(name), t)
    case Constant(v) => (Rust.Constant(v), t)
    case Store(name, right) =>
      var (r, t1) := EmitExpression(right, t);
      (Rust.Assign(name, r), t1)
    case Logical(conjunction, left, right) =>
      var (l, t1) := EmitExpression(left, t);
      var (r, t2) := EmitExpression(right, t1);
      (Rust.Logical(conjunction, l, r), t2)
    case Invoke(callee, arguments, throws) =>
      var (rs, t1) := EmitExpressions(arguments, t);
      (Rust.Call(callee, rs, throws), t1)
    case Propagate(inner, target) =>
      var (r, t1) := EmitExpression(inner, t);
      var error := Temporary(t1);
      (Rust.MatchResult(r, error, [ExceptionPropagation(target, Rust.Variable(error))]), t1 + 1)
    case SuccessUnit => (Rust.OkUnit, t)
    case SuccessOf(payload) =>
      var (r, t1) := EmitExpression(payload, t);
      (Rust.OkOf(r), t1)
  }

  function EmitExpressions(es: seq<Hir.Expression>, t: nat): (seq<Rust.Expression>, nat) {
    if |es| == 0 then ([], t)
    else
      var (first, t1) := EmitExpression(es[0], t);
      var (rest, t2) := EmitExpressions(es[1..], t1);
      ([first] + rest, t2)
  }

  function EmitStatements(hs: seq<Hir.Statement>, t: nat): Emitted
    decreases hs
  {
    if |hs| == 0 then ([], t)
    else
      var (first, t1) := EmitStatement(hs[0], t);
      var (rest, t2) := EmitStatements(hs[1..], t1);
      (first + rest, t2)
  }

  function EmitInitializer(i: Hir.ForInitializer, t: nat): Emitted {
    match i
    case NoInitializer => ([], t)
    case Let(name, initializer) =>
      var (r, t1) := EmitExpression(initializer, t);
      ([Rust.Let(name, r)], t1)
    case Effect(e) =>
      var (r, t1) := EmitExpression(e, t);
      ([Rust.Evaluate(r)], t1)
  }

  function ConditionCheck(condition: Option<Rust.Expression>, tag: Hir.Label): seq<Rust.Statement> {
    if condition.None? then [] else [Rust.If(Rust.Not(condition.value), [Rust.Break(tag)], [])]
  }

  function EmitOptional(e: Option<Hir.Expression>, t: nat): (Option<Rust.Expression>, nat) {
    if e.None? then (None, t)
    else
      var (r, t1) := EmitExpression(e.value, t);
      (Some(r), t1)
  }

  /** The step between two iterations; the first iteration only clears the flag. */
  function UpdateStep(first: Name, update: Rust.Expression): Rust.Statement {
    Rust.If(
      Rust.Variable(first),
      [Rust.Evaluate(Rust.Assign(first, Rust.Constant(Flag(false))))],
      [Rust.Evaluate(update)])
  }

  function ClassicLoop(
    tag: Hir.Label,
    setup: seq<Rust.Statement>,
    condition: Option<Rust.Expression>,
    update: Option<Rust.Expression>,
    first: Name,
    body: seq<Rust.Statement>)
    : Rust.Statement
  {
    var check := ConditionCheck(condition, tag);
    if update.None? then
      Rust.Braces(setup + [Rust.Loop(tag, check + [Rust.Braces(body)])])
    else
      Rust.Braces(
        setup
        + [Rust.Let(first, Rust.Constant(Flag(true)))]
        + [Rust.Loop(tag, [UpdateStep(first, update.value)] + check + [Rust.Braces(body)])])
  }

  function TryStatements(
    tag: Hir.Label,
    result: Name,
    error: Name,
    body: seq<Rust.Statement>,
    fallsThrough: bool,
    handlers: seq<Rust.Statement>,
    diverges: bool)
    : seq<Rust.Statement>
  {
    var completion := if fallsThrough then [Rust.BreakWith(tag, Rust.OkUnit)] else [];
    [Rust.LetLabelled(result, tag, [Rust.Braces(body)] + completion)]
    + [if diverges then Rust.MatchDiverging(error, result, handlers) else Rust.IfLetErr(error, result, handlers)]
  }

  function EmitStatement(h: Hir.Statement, t: nat): Emitted
    decreases h, 1
  {
    match h
    case Block(hs) =>
      var (rs, t1) := EmitStatements(hs, t);
      ([Rust.Braces(rs)], t1)
    case LetStatement(name, initializer) =>
      var (r, t1) := EmitExpression(initializer, t);
      ([Rust.Let(name, r)], t1)
    case ReturnUnit => ([Rust.ReturnUnit], t)
    case ReturnValue(value) =>
      var (r, t1) := EmitExpression(value, t);
      ([Rust.Return(r)], t1)
    case Throw(error, target) =>
      (match error
       case New(value) =>
         var (r, t1) := EmitExpression(value, t);
         ([ExceptionPropagation(target, r)], t1)
       case Existing(name) => ([ExceptionPropagation(target, Rust.Variable(name))], t))
    case Try(_, _, _, _, _, _, _) => EmitTry(h, t)
    case If(_, _, _) => EmitIf(h, t)
    case While(_, _, _) => EmitWhile(h, t)
    case ClassicFor(_, _, _, _, _) => EmitClassic(h, t)
    case RangeFor(_, _, _, _) => EmitRange(h, t)
    case Break(tag) => ([Rust.Break(tag)], t)
    case Continue(tag) => ([Rust.Continue(tag)], t)
    case Evaluate(e) =>
      var (r, t1) := EmitExpression(e, t);
      ([Rust.Evaluate(r)], t1)
  }

  function EmitTry(h: Hir.Statement, t: nat): Emitted
    requires h.Try?
    decreases h, 0
  {
    var (body, t1) := EmitStatements(h.guarded, t + 1);
    var (handlers, t2) := EmitCatches(h.catches, h.errorName, h.unmatchedTarget, t1);
    (TryStatements(h.tag, Temporary(t), h.errorName, body, h.bodyFallsThrough, handlers, h.diverges), t2)
  }

  function EmitIf(h: Hir.Statement, t: nat): Emitted
    requires h.If?
    decreases h, 0
  {
    var (c, t1) := EmitExpression(h.condition, t);
    var (ts, t2) := EmitStatements(h.thenBranch, t1);
    var (es, t3) := EmitElse(h.elseBranch, t2);
    ([Rust.If(c, ts, es)], t3)
  }

  function EmitWhile(h: Hir.Statement, t: nat): Emitted
    requires h.While?
    decreases h, 0
  {
    var (c, t1) := EmitExpression(h.condition, t);
    var (b, t2) := EmitStatements(h.body, t1);
    ([Rust.While(h.tag, c, b)], t2)
  }

  function EmitClassic(h: Hir.Statement, t: nat): Emitted
    requires h.ClassicFor?
    decreases h, 0
  {
    var (s, t1) := EmitInitializer(h.setup, t);
    var (c, t2) := EmitOptional(h.test, t1);
    var (b, t3) := EmitStatements(h.body, t2);
    var (u, t4) := EmitOptional(h.update, t3);
    ([ClassicLoop(h.tag, s, c, u, Temporary(t4), b)], if u.None? then t4 else t4 + 1)
  }

  function EmitRange(h: Hir.Statement, t: nat): Emitted
    requires h.RangeFor?
    decreases h, 0
  {
    var (i, t1) := EmitExpression(h.iterable, t);
    var (b, t2) := EmitStatements(h.body, t1);
    ([Rust.For(h.tag, h.bindings, i, b)], t2)
  }

  /** A block keeps its own braces, any other statement is put between new ones. */
  function EmitElse(branch: Option<Hir.Statement>, t: nat): Emitted
    decreases branch
  {
    if branch.None? then ([], t)
    else if branch.value.Block? then EmitStatements(branch.value.statements, t)
    else EmitStatement(branch.value, t)
  }

  /** Handlers are emitted last to first, each around the ones after it. */
  function EmitCatches(catches: seq<Hir.Catch>, error: Name, unmatched: Hir.ExceptionTarget, t: nat): Emitted
    decreases catches
  {
    if |catches| == 0 then ([ExceptionPropagation(unmatched, Rust.Variable(error))], t)
    else
      var (otherwise, t1) := EmitCatches(catches[1..], error, unmatched, t);
      EmitCatch(catches[0], error, otherwise, t1)
  }

  function EmitCatch(clause: Hir.Catch, error: Name, otherwise: seq<Rust.Statement>, t: nat): Emitted
    decreases clause
  {
    var (body, t1) := EmitStatements(clause.body, t);
    (if clause.filter.None? then [Rust.Braces(body)]
     else [Rust.IfLetProject(clause.filter.value.1, error, clause.filter.value.0, [Rust.Braces(body)], otherwise)],
     t1)
  }

  /** The emitting pass, which numbers the temporaries it invents. */
  class Emitter {
    var temporaryIndex: nat

    constructor ()
      ensures temporaryIndex == 0
    {
      temporaryIndex := 0;
    }

    method NewTemporary() returns (name: Name)
      modifies this
      ensures name == Temporary(old(temporaryIndex)) && temporaryIndex == old(temporaryIndex) + 1
    {
      name := Temporary(temporaryIndex);
      temporaryIndex := temporaryIndex + 1;
    }

    method Expression(e: Hir.Expression) returns (r: Rust.Expression)
      modifies this
      ensures (r, temporaryIndex) == EmitExpression(e, old(temporaryIndex))
      decreases e
    {
      match e {
        case Read(name) =>
          r := Rust.Variable(name);
        case Constant(v) =>
          r := Rust.Constant(v);
        case Store(name, right) =>
          var place := Expression(right);
          r := Rust.Assign(name, place);
        case Logical(conjunction, left, right) =>
          var l := Expression(left);
          var rhs := Expression(right);
          r := Rust.Logical(conjunction, l, rhs);
        case Invoke(callee, arguments, throws) =>
          var rs := Expressions(arguments);
          r := Rust.Call(callee, rs, throws);
        case Propagate(inner, target) =>
          var scrutinee := Expression(inner);
          var error := NewTemporary();
          r := Rust.MatchResult(scrutinee, error, [ExceptionPropagation(target, Rust.Variable(error))]);
        case SuccessUnit =>
          r := Rust.OkUnit;
        case SuccessOf(payload) =>
          var value := Expression(payload);
          r := Rust.OkOf(value);
      }
    }

    method Expressions(es: seq<Hir.Expression>) returns (rs: seq<Rust.Expression>)
      modifies this
      ensures (rs, temporaryIndex) == EmitExpressions(es, old(temporaryIndex))
      decreases es
    {
      if |es| == 0 {
        return [];
      }
      var first := Expression(es[0]);
      var rest := Expressions(es[1..]);
      rs := [first] + rest;
    }

    method Block(hs: seq<Hir.Statement>) returns (rs: seq<Rust.Statement>)
      modifies this
      ensures (rs, temporaryIndex) == EmitStatements(hs, old(temporaryIndex))
      decreases hs
    {
      if |hs| == 0 {
        return [];
      }
      var first := Statement(hs[0]);
      var rest := Block(hs[1..]);
      rs := first + rest;
    }

    method Optional(e: Option<Hir.Expression>) returns (r: Option<Rust.Expression>)
      modifies this
      ensures (r, temporaryIndex) == EmitOptional(e, old(temporaryIndex))
    {
      if e.None? {
        return None;
      }
      var value := Expression(e.value);
      r := Some(value);
    }

    method ForInitializer(i: Hir.ForInitializer) returns (rs: seq<Rust.Statement>)
      modifies this
      ensures (rs, temporaryIndex) == EmitInitializer(i, old(temporaryIndex))
    {
      match i {
        case NoInitializer =>
          rs := [];
        case Let(name, initializer) =>
          var value := Expression(initializer);
          rs := [Rust.Let(name, value)];
        case Effect(e) =>
          var value := Expression(e);
          rs := [Rust.Evaluate(value)];
      }
    }

    method ClassicFor(h: Hir.Statement) returns (rs: seq<Rust.Statement>)
      requires h.ClassicFor?
      modifies this
      ensures (rs, temporaryIndex) == EmitClassic(h, old(temporaryIndex))
      decreases h, 0
    {
      var setup := ForInitializer(h.setup);
      var condition := Optional(h.test);
      var body := Block(h.body);
      var update := Optional(h.update);
      if update.None? {
        rs := [ClassicLoop(h.tag, setup, condition, None, Temporary(temporaryIndex), body)];
      } else {
        var first := NewTemporary();
        rs := [ClassicLoop(h.tag, setup, condition, update, first, body)];
      }
    }

    method TryStatement(h: Hir.Statement) returns (rs: seq<Rust.Statement>)
      requires h.Try?
      modifies this
      ensures (rs, temporaryIndex) == EmitTry(h, old(temporaryIndex))
      decreases h, 0
    {
      var result := NewTemporary();
      var body := Block(h.guarded);
      var handlers := [ExceptionPropagation(h.unmatchedTarget, Rust.Variable(h.errorName))];
      ghost var start := temporaryIndex;
      var i := |h.catches|;
      while i > 0
        invariant 0 <= i <= |h.catches|
        invariant (handlers, temporaryIndex) == EmitCatches(h.catches[i..], h.errorName, h.unmatchedTarget, start)
      {
        i := i - 1;
        var clause := h.catches[i];
        assert h.catches[i..][0] == clause && h.catches[i..][1..] == h.catches[i + 1..];
        var catchBody := Block(clause.body);
        handlers :=
          if clause.filter.None? then [Rust.Braces(catchBody)]
          else
            [Rust.IfLetProject(
               clause.filter.value.1, h.errorName, clause.filter.value.0, [Rust.Braces(catchBody)], handlers)];
      }
      assert h.catches[0..] == h.catches;
      rs := TryStatements(h.tag, result, h.errorName, body, h.bodyFallsThrough, handlers, h.diverges);
    }

    method IfStatement(h: Hir.Statement) returns (rs: seq<Rust.Statement>)
      requires h.If?
      modifies this
      ensures (rs, temporaryIndex) == EmitIf(h, old(temporaryIndex))
      decreases h, 0
    {
      var c := Expression(h.condition);
      var ts := Block(h.thenBranch);
      var es := ElseBranch(h.elseBranch);
      rs := [Rust.If(c, ts, es)];
    }

    method ElseBranch(branch: Option<Hir.Statement>) returns (rs: seq<Rust.Statement>)
      modifies this
      ensures (rs, temporaryIndex) == EmitElse(branch, old(temporaryIndex))
      decreases branch
    {
      if branch.None? {
        return [];
      }
      if branch.value.Block? {
        rs := Block(branch.value.statements);
      } else {
        rs := Statement(branch.value);
      }
    }

    method WhileStatement(h: Hir.Statement) returns (rs: seq<Rust.Statement>)
      requires h.While?
      modifies this
      ensures (rs, temporaryIndex) == EmitWhile(h, old(temporaryIndex))
      decreases h, 0
    {
      var c := Expression(h.condition);
      var b := Block(h.body);
      rs := [Rust.While(h.tag, c, b)];
    }

    method RangeFor(h: Hir.Statement) returns (rs: seq<Rust.Statement>)
      requires h.RangeFor?
      modifies this
      ensures (rs, temporaryIndex) == EmitRange(h, old(temporaryIndex))
      decreases h, 0
    {
      var i := Expression(h.iterable);
      var b := Block(h.body);
      rs := [Rust.For(h.tag, h.bindings, i, b)];
    }

    method Statement(h: Hir.Statement) returns (rs: seq<Rust.Statement>)
      modifies this
      ensures (rs, temporaryIndex) == EmitStatement(h, old(temporaryIndex))
      decreases h, 1
    {
      match h {
        case Block(hs) =>
          var inner := Block(hs);
          rs := [Rust.Braces(inner)];
        case LetStatement(name, initializer) =>
          var value := Expression(initializer);
          rs := [Rust.Let(name, value)];
        case ReturnUnit =>
          rs := [Rust.ReturnUnit];
        case ReturnValue(value) =>
          var r := Expression(value);
          rs := [Rust.Return(r)];
        case Throw(error, target) =>
          match error {
            case New(value) =>
              var r := Expression(value);
              rs := [ExceptionPropagation(target, r)];
            case Existing(name) =>
              rs := [ExceptionPropagation(target, Rust.Variable(name))];
          }
        case Try(_, _, _, _, _, _, _) =>
          rs := TryStatement(h);
        case If(_, _, _) =>
          rs := IfStatement(h);
        case While(_, _, _) =>
          rs := WhileStatement(h);
        case ClassicFor(_, _, _, _, _) =>
          rs := ClassicFor(h);
        case RangeFor(_, _, _, _) =>
          rs := RangeFor(h);
        case Break(tag) =>
          rs := [Rust.Break(tag)];
        case Continue(tag) =>
          rs := [Rust.Continue(tag)];
        case Evaluate(e) =>
          var r := Expression(e);
          rs := [Rust.Evaluate(r)];
      }
    }
  }
}
