/** Generated labels are pairwise distinct and every jump names a construct it sits in. */
module Labels {
  import opened Wrappers
  import opened Ast
  import opened Divergence
  import opened Lowering
  import Source = SourceSemantics
  import Hir

  // ----- the labels a statement declares, in order of appearance -----

  function Declared(h: Hir.Statement): seq<Label> {
    match h
    case Block(hs) => DeclaredIn(hs)
    case Try(tag, _, guarded, _, catches, _, _) => [tag] + DeclaredIn(guarded) + DeclaredInCatches(catches)
    case If(_, thenBranch, elseBranch) =>
      DeclaredIn(thenBranch) + (if elseBranch.Some? then Declared(elseBranch.value) else [])
    case While(tag, _, body) => [tag] + DeclaredIn(body)
    case ClassicFor(tag, _, _, _, body) => [tag] + DeclaredIn(body)
    case RangeFor(tag, _, _, body) => [tag] + DeclaredIn(body)
    case _ => []
  }

  function DeclaredIn(hs: seq<Hir.Statement>): seq<Label> {
    if |hs| == 0 then [] else Declared(hs[0]) + DeclaredIn(hs[1..])
  }

  function DeclaredInCatches(catches: seq<Hir.Catch>): seq<Label> {
    if |catches| == 0 then [] else DeclaredInCatch(catches[0]) + DeclaredInCatches(catches[1..])
  }

  function DeclaredInCatch(clause: Hir.Catch): seq<Label> {
    DeclaredIn(clause.body)
  }

  ghost predicate Distinct(labels: seq<Label>) {
    forall i, j :: 0 <= i < j < |labels| ==> labels[i] != labels[j]
  }

  /** The numbers handed out between two states of the counters. */
  ghost predicate Between(tag: Label, n: Counters, n1: Counters) {
    match tag
    case LoopLabel(i) => n.loops <= i < n1.loops
    case TryLabel(i) => n.tries <= i < n1.tries
  }

  ghost predicate Numbered(labels: seq<Label>, n: Counters, n1: Counters) {
    && Advances(n, n1)
    && Distinct(labels)
    && (forall i :: 0 <= i < |labels| ==> Between(labels[i], n, n1))
  }

  lemma NumberedAppend(a: seq<Label>, b: seq<Label>, n: Counters, n1: Counters, n2: Counters)
    requires Numbered(a, n, n1) && Numbered(b, n1, n2)
    ensures Numbered(a + b, n, n2)
  {
  }

  lemma NumberedFirst(tag: Label, b: seq<Label>, n: Counters, n1: Counters, n2: Counters)
    requires Advances(n, n1) && Between(tag, n, n1) && Numbered(b, n1, n2)
    ensures Numbered([tag] + b, n, n2)
  {
    NumberedAppend([tag], b, n, n1, n2);
  }

  // ----- where jumps and exceptions go -----

  ghost predicate TargetsAre(e: Hir.Expression, target: Hir.ExceptionTarget) {
    match e
    case Store(_, right) => TargetsAre(right, target)
    case Logical(_, left, right) => TargetsAre(left, target) && TargetsAre(right, target)
    case Invoke(_, arguments, _) => forall i :: 0 <= i < |arguments| ==> TargetsAre(arguments[i], target)
    case Propagate(inner, own) => own == target && TargetsAre(inner, target)
    case SuccessOf(payload) => TargetsAre(payload, target)
    case _ => true
  }

  ghost predicate OptionalTargets(e: Option<Hir.Expression>, target: Hir.ExceptionTarget) {
    e.Some? ==> TargetsAre(e.value, target)
  }

  ghost predicate SetupTargets(i: Hir.ForInitializer, target: Hir.ExceptionTarget) {
    match i
    case NoInitializer => true
    case Let(_, initializer) => TargetsAre(initializer, target)
    case Effect(e) => TargetsAre(e, target)
  }

  /**
   `loop` is the innermost enclosing source loop and `target` the innermost enclosing guarded
   block, or the function: every jump and every raise in `h` goes exactly there.
   */
  ghost predicate WellTargeted(h: Hir.Statement, loop: Option<Label>, target: Hir.ExceptionTarget) {
    match h
    case Block(hs) => AllWellTargeted(hs, loop, target)
    case LetStatement(_, initializer) => TargetsAre(initializer, target)
    case ReturnUnit => true
    case ReturnValue(value) => TargetsAre(value, target)
    case Throw(error, own) => own == target && (error.New? ==> TargetsAre(error.value, target))
    case Try(tag, _, guarded, _, catches, _, unmatched) =>
      && AllWellTargeted(guarded, loop, Hir.ToTry(tag))
      && CatchesWellTargeted(catches, loop, target)
      && (unmatched == target || (unmatched.Unreachable? && target.ToFunction?))
    case If(condition, thenBranch, elseBranch) =>
      && TargetsAre(condition, target)
      && AllWellTargeted(thenBranch, loop, target)
      && (elseBranch.Some? ==> WellTargeted(elseBranch.value, loop, target))
    case While(tag, condition, body) => TargetsAre(condition, target) && AllWellTargeted(body, Some(tag), target)
    case ClassicFor(tag, setup, condition, update, body) =>
      && SetupTargets(setup, target)
      && OptionalTargets(condition, target)
      && OptionalTargets(update, target)
      && AllWellTargeted(body, Some(tag), target)
    case RangeFor(tag, _, iterable, body) => TargetsAre(iterable, target) && AllWellTargeted(body, Some(tag), target)
    case Break(tag) => loop == Some(tag)
    case Continue(tag) => loop == Some(tag)
    case Evaluate(e) => TargetsAre(e, target)
  }

  ghost predicate AllWellTargeted(hs: seq<Hir.Statement>, loop: Option<Label>, target: Hir.ExceptionTarget) {
    |hs| == 0 || (WellTargeted(hs[0], loop, target) && AllWellTargeted(hs[1..], loop, target))
  }

  ghost predicate CatchesWellTargeted(catches: seq<Hir.Catch>, loop: Option<Label>, target: Hir.ExceptionTarget) {
    |catches| == 0 || (CatchWellTargeted(catches[0], loop, target) && CatchesWellTargeted(catches[1..], loop, target))
  }

  ghost predicate CatchWellTargeted(clause: Hir.Catch, loop: Option<Label>, target: Hir.ExceptionTarget) {
    AllWellTargeted(clause.body, loop, target)
  }

  function Innermost(x: Enclosing): Option<Label> {
    if |x.loops| == 0 then None else Some(Last(x.loops))
  }

  lemma {:induction false} ExpressionTargets(e: Source.FlowExpression, target: Hir.ExceptionTarget)
    ensures TargetsAre(LowerExpression(e, target), target)
    decreases e
  {
    match e
    case Assign(_, right) => ExpressionTargets(right, target);
    case Logical(_, left, right) =>
      ExpressionTargets(left, target);
      ExpressionTargets(right, target);
    case Call(_, arguments, _) => ArgumentTargets(arguments, target);
    case _ =>
  }

  lemma {:induction false} ArgumentTargets(es: seq<Source.FlowExpression>, target: Hir.ExceptionTarget)
    ensures forall i :: 0 <= i < |es| ==> TargetsAre(LowerArguments(es, target)[i], target)
    decreases es
  {
    if |es| > 0 {
      ExpressionTargets(es[0], target);
      ArgumentTargets(es[1..], target);
    }
  }

  lemma LocalTargets(local: LocalDeclaration<Source.FlowExpression>, target: Hir.ExceptionTarget)
    ensures TargetsAre(LowerLocal(local, target), target)
  {
    if local.initializer.Some? {
      ExpressionTargets(local.initializer.value, target);
    }
  }

  lemma ClauseTargets(
    clause: ForClause<Source.FlowExpression>, tag: Label, target: Hir.ExceptionTarget, body: seq<Hir.Statement>,
    loop: Option<Label>)
    requires AllWellTargeted(body, Some(tag), target)
    ensures WellTargeted(LowerClause(clause, tag, target, body), loop, target)
    ensures Declared(LowerClause(clause, tag, target, body)) == [tag] + DeclaredIn(body)
  {
    match clause
    case Classic(initializer, condition, update) =>
      if initializer.Some? {
        match initializer.value
        case InitializerLocal(local) => LocalTargets(local, target);
        case InitializerExpression(e) => ExpressionTargets(e, target);
      }
      if condition.Some? {
        ExpressionTargets(condition.value, target);
      }
      if update.Some? {
        ExpressionTargets(update.value, target);
      }
    case Range(_, iterable, _) => ExpressionTargets(iterable, target);
  }

  // ----- lowering keeps both -----

  lemma {:induction false} StatementsDisciplined(ss: seq<Source.SourceStatement>, x: Enclosing, n: Counters)
    requires LowerStatements(ss, x, n).Success?
    ensures var (hs, n1) := LowerStatements(ss, x, n).value;
            Numbered(DeclaredIn(hs), n, n1) && AllWellTargeted(hs, Innermost(x), x.target)
    decreases ss
  {
    if |ss| == 0 {
    } else if ss[0].kind.Empty? {
      StatementsDisciplined(ss[1..], x, n);
    } else {
      StatementDisciplined(ss[0], x, n);
      var (h, n1) := LowerStatement(ss[0], x, n).value;
      StatementsDisciplined(ss[1..], x, n1);
      var (hs, n2) := LowerStatements(ss[1..], x, n1).value;
      assert ([h] + hs)[1..] == hs;
      NumberedAppend(Declared(h), DeclaredIn(hs), n, n1, n2);
    }
  }

  lemma {:induction false} BodyDisciplined(s: Source.SourceStatement, x: Enclosing, n: Counters)
    requires LowerAsBlock(s, x, n).Success?
    ensures var (hs, n1) := LowerAsBlock(s, x, n).value;
            Numbered(DeclaredIn(hs), n, n1) && AllWellTargeted(hs, Innermost(x), x.target)
    decreases s, 2
  {
    if s.kind.BlockStatement? {
      StatementsDisciplined(s.kind.block.statements, x, n);
    } else {
      StatementDisciplined(s, x, n);
      var h := LowerStatement(s, x, n).value.0;
      assert [h][1..] == [];
      assert DeclaredIn([h]) == Declared(h) + [] == Declared(h);
    }
  }

  lemma {:induction false} CatchesDisciplined(catches: seq<Source.SourceCatch>, x: Enclosing, n: Counters)
    requires LowerCatches(catches, x, n).Success?
    ensures var (hs, n1) := LowerCatches(catches, x, n).value;
            Numbered(DeclaredInCatches(hs), n, n1) && CatchesWellTargeted(hs, Innermost(x), x.target)
    decreases catches
  {
    if |catches| > 0 {
      ClauseDisciplined(catches[0], x, n);
      var (body, n1) := LowerClauseBody(catches[0], x, n).value;
      CatchesDisciplined(catches[1..], x, n1);
      var (hs, n2) := LowerCatches(catches[1..], x, n1).value;
      var h := Hir.Catch(Filter(catches[0]), body);
      assert ([h] + hs)[1..] == hs;
      NumberedAppend(DeclaredInCatch(h), DeclaredInCatches(hs), n, n1, n2);
    }
  }

  lemma {:induction false} ClauseDisciplined(clause: Source.SourceCatch, x: Enclosing, n: Counters)
    requires LowerClauseBody(clause, x, n).Success?
    ensures var (hs, n1) := LowerClauseBody(clause, x, n).value;
            Numbered(DeclaredIn(hs), n, n1) && AllWellTargeted(hs, Innermost(x), x.target)
    decreases clause
  {
    StatementsDisciplined(clause.body.statements, x, n);
  }

  lemma {:induction false} StatementDisciplined(s: Source.SourceStatement, x: Enclosing, n: Counters)
    requires LowerStatement(s, x, n).Success?
    ensures var (h, n1) := LowerStatement(s, x, n).value;
            Numbered(Declared(h), n, n1) && WellTargeted(h, Innermost(x), x.target)
    decreases s, 1
  {
    if s.kind.BlockStatement? {
      StatementsDisciplined(s.kind.block.statements, x, n);
    } else if s.kind.Try? {
      TryDisciplined(s, x, n);
    } else if s.kind.If? {
      IfDisciplined(s, x, n);
    } else if s.kind.While? {
      ExpressionTargets(s.kind.condition, x.target);
      LoopDisciplined(s.kind.body, x, n);
    } else if s.kind.For? {
      ForDisciplined(s, x, n);
    } else {
      PlainDisciplined(s, x, n);
    }
  }

  lemma PlainDisciplined(s: Source.SourceStatement, x: Enclosing, n: Counters)
    requires LowerStatement(s, x, n).Success?
    requires s.kind.Local? || s.kind.Return? || s.kind.Throw? || s.kind.Break? || s.kind.Continue? || s.kind.Expression?
          || s.kind.Empty?
    ensures var (h, n1) := LowerStatement(s, x, n).value;
            Declared(h) == [] && n1 == n && WellTargeted(h, Innermost(x), x.target)
  {
    if s.kind.Local? {
      LocalTargets(s.kind.local, x.target);
    } else if s.kind.Return? && s.kind.value.Some? {
      ExpressionTargets(s.kind.value.value, x.target);
    } else if s.kind.Throw? && s.kind.error.Some? {
      ExpressionTargets(s.kind.error.value, x.target);
    } else if s.kind.Expression? {
      ExpressionTargets(s.kind.expression, x.target);
    }
  }

  lemma {:induction false} IfDisciplined(s: Source.SourceStatement, x: Enclosing, n: Counters)
    requires s.kind.If? && LoweredIf(s, x, n).Success?
    ensures var (h, n1) := LoweredIf(s, x, n).value;
            Numbered(Declared(h), n, n1) && WellTargeted(h, Innermost(x), x.target)
    decreases s, 0
  {
    ExpressionTargets(s.kind.condition, x.target);
    BodyDisciplined(s.kind.thenBranch, x, n);
    var (ts, n1) := LowerAsBlock(s.kind.thenBranch, x, n).value;
    if s.kind.elseBranch.Some? {
      StatementDisciplined(s.kind.elseBranch.value, x, n1);
      var (e, n2) := LowerStatement(s.kind.elseBranch.value, x, n1).value;
      NumberedAppend(DeclaredIn(ts), Declared(e), n, n1, n2);
    }
  }

  lemma {:induction false} ForDisciplined(s: Source.SourceStatement, x: Enclosing, n: Counters)
    requires s.kind.For? && LoweredFor(s, x, n).Success?
    ensures var (h, n1) := LoweredFor(s, x, n).value;
            Numbered(Declared(h), n, n1) && WellTargeted(h, Innermost(x), x.target)
    decreases s, 0
  {
    LoopDisciplined(s.kind.body, x, n);
    ClauseTargets(
      s.kind.clause, Hir.LoopLabel(n.loops), x.target, LowerLoop(s.kind.body, x, n).value.0, Innermost(x));
  }

  lemma {:induction false} LoopDisciplined(body: Source.SourceStatement, x: Enclosing, n: Counters)
    requires LowerLoop(body, x, n).Success?
    ensures var tag := Hir.LoopLabel(n.loops);
            var (hs, n1) := LowerLoop(body, x, n).value;
            Numbered([tag] + DeclaredIn(hs), n, n1) && AllWellTargeted(hs, Some(tag), x.target)
    decreases body, 3
  {
    var tag := Hir.LoopLabel(n.loops);
    var n0 := n.(loops := n.loops + 1);
    BodyDisciplined(body, WithLoop(x, tag), n0);
    var (hs, n1) := LowerAsBlock(body, WithLoop(x, tag), n0).value;
    NumberedFirst(tag, DeclaredIn(hs), n, n0, n1);
  }

  lemma {:induction false} TryDisciplined(s: Source.SourceStatement, x: Enclosing, n: Counters)
    requires s.kind.Try? && LoweredTry(s, x, n).Success?
    ensures var (h, n1) := LoweredTry(s, x, n).value;
            Numbered(Declared(h), n, n1) && WellTargeted(h, Innermost(x), x.target)
    decreases s, 0
  {
    var tag := Hir.TryLabel(n.tries);
    var n0 := n.(tries := n.tries + 1);
    StatementsDisciplined(s.kind.guarded.statements, InTry(x, n.tries), n0);
    var (gs, n1) := LowerBlock(s.kind.guarded, InTry(x, n.tries), n0).value;
    CatchesDisciplined(s.kind.catches, InCatch(x, n.tries), n1);
    var (hs, n2) := LowerCatches(s.kind.catches, InCatch(x, n.tries), n1).value;
    NumberedFirst(tag, DeclaredIn(gs), n, n0, n1);
    NumberedAppend([tag] + DeclaredIn(gs), DeclaredInCatches(hs), n, n1, n2);
  }

  /**
   The labels of a lowered function are pairwise distinct, and distinct from those of the functions lowered
   before and after it; all its jumps are well targeted.
   */
  lemma FunctionLabelDiscipline(signature: Signature, body: Source.SourceBlock, n: Counters)
    requires LowerFunction(signature, body, n).Success?
    ensures var (hs, n1) := LowerBlock(body, FunctionStart(signature), n).value;
            && Distinct(DeclaredIn(hs)) && AllWellTargeted(hs, None, Hir.ToFunction)
            && LowerFunction(signature, body, n).value.1 == n1
            && forall tag :: tag in DeclaredIn(hs) ==> Between(tag, n, n1)
  {
    StatementsDisciplined(body.statements, FunctionStart(signature), n);
  }
}
