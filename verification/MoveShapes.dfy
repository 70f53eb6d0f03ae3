/**
 Analysed code keeps the names and types of the scopes it started in; only its own innermost scope
 may gain names. With `LoopPasses` this makes the second analysed iteration repeat the first.
 */
module MoveShapes {
  import opened Wrappers
  import opened Ast
  import opened Ownership
  import opened MoveViews
  import opened LoopPasses

  ghost predicate Alike(v: View, w: View) {
    Shape(v) == Shape(w)
  }

  /** `w` has the scopes of `v`, of which the innermost may have changed, and perhaps more. */
  ghost predicate Deep(v: View, w: View) {
    0 < |v| <= |w| && Shape(w)[..|v| - 1] == Shape(v)[..|v| - 1]
  }

  ghost predicate AllAlike(v: View, ws: seq<View>) {
    forall i :: 0 <= i < |ws| ==> Alike(v, ws[i])
  }

  ghost predicate AllDeep(v: View, ws: seq<View>) {
    forall i :: 0 <= i < |ws| ==> Deep(v, ws[i])
  }

  lemma AlikeIsDeep(v: View, ws: seq<View>)
    requires |v| > 0 && AllAlike(v, ws)
    ensures AllDeep(v, ws)
  {
    forall i | 0 <= i < |ws|
      ensures Deep(v, ws[i])
    {
      ShapeKeys(v, ws[i]);
    }
  }

  lemma AlikeOneDeep(v: View, w: View)
    requires |v| > 0 && Alike(v, w)
    ensures Deep(v, w) && |w| == |v|
  {
    ShapeKeys(v, w);
  }

  lemma DeepTransitive(u: View, v: View, w: View)
    requires Deep(u, v) && Deep(v, w)
    ensures Deep(u, w)
  {
    assert Shape(w)[..|u| - 1] == Shape(w)[..|v| - 1][..|u| - 1];
    assert Shape(v)[..|u| - 1] == Shape(v)[..|v| - 1][..|u| - 1];
  }

  lemma AllDeepAfter(u: View, v: View, ws: seq<View>)
    requires Deep(u, v) && AllDeep(v, ws)
    ensures AllDeep(u, ws)
  {
    forall i | 0 <= i < |ws|
      ensures Deep(u, ws[i])
    {
      DeepTransitive(u, v, ws[i]);
    }
  }

  /** Leaving scopes down to those of `v` restores the shape of `v`. */
  lemma CutAlike(v: View, w: View)
    requires Deep(Enter(v), w)
    ensures Alike(v, Cut(w, |v|))
  {
    assert Shape(Cut(w, |v|)) == Shape(w)[..|v|];
    assert Shape(Enter(v))[..|v|] == Shape(v);
  }

  lemma CutAllAlike(v: View, ws: seq<View>)
    requires AllDeep(Enter(v), ws)
    ensures AllAlike(v, CutAll(ws, |v|))
  {
    forall i | 0 <= i < |ws|
      ensures Alike(v, CutAll(ws, |v|)[i])
    {
      CutAlike(v, ws[i]);
    }
  }

  lemma DeeperIsDeep(v: View, ws: seq<View>)
    requires |v| > 0 && AllDeep(Enter(v), ws)
    ensures AllDeep(v, ws)
  {
    forall i | 0 <= i < |ws|
      ensures Deep(v, ws[i])
    {
      DeeperOne(v, ws[i]);
    }
  }

  lemma DeeperOne(v: View, w: View)
    requires |v| > 0 && Deep(Enter(v), w)
    ensures Deep(v, w)
  {
    assert Shape(Enter(v))[..|v|] == Shape(v);
    assert Shape(w)[..|v|][..|v| - 1] == Shape(w)[..|v| - 1];
  }

  lemma LeaveIsCut(v: View)
    requires |v| > 0
    ensures Leave(v) == Cut(v, |v| - 1)
  {
  }

  lemma IntroduceDeep(v: View, name: string, ty: TypeRef)
    requires |v| > 0
    ensures Deep(v, Introduce(v, name, ty)) && |Introduce(v, name, ty)| == |v|
  {
    var w := Introduce(v, name, ty);
    forall i | 0 <= i < |v| - 1
      ensures Shape(w)[i] == Shape(v)[i]
    {
      assert w[i] == v[i];
    }
  }

  lemma {:induction false} JoinManyAlike(u: View, v: View, vs: seq<View>)
    requires Alike(u, v) && AllAlike(u, vs)
    ensures Alike(u, JoinMany(v, vs))
  {
    if |vs| > 1 {
      JoinShape(v, JoinMany(v, vs[..|vs| - 1]), vs[|vs| - 1]);
    }
  }

  // ----- expressions -----

  ghost predicate CheckedAlike(v: View, c: MoveChecked) {
    Alike(v, c.view) && AllAlike(v, c.throws)
  }

  lemma AlikeTrans(u: View, c: MoveChecked, d: MoveChecked)
    requires CheckedAlike(u, c) && CheckedAlike(c.view, d)
    ensures CheckedAlike(u, d) && CheckedAlike(u, MoveThen(c, d))
  {
  }

  lemma {:induction false} CheckAlike(e: Expression, v: View)
    ensures CheckedAlike(v, MCheck(e, v))
    decreases e, 1
  {
    match e.kind
    case Name(_) =>
    case Literal =>
    case Parenthesized(inner) => CheckAlike(inner, v);
    case Operand(operand) => CheckAlike(operand, v);
    case Increment(place) => CheckAlike(place, v);
    case Field(whole) => CheckAlike(whole, v);
    case Strict(_, _) => TwoAlike(e, v);
    case Compound(_, _) => TwoAlike(e, v);
    case Index(_, _) => TwoAlike(e, v);
    case Logical(_, _) => TwoAlike(e, v);
    case Assign(_, _, _, _) => AssignAlike(e, v);
    case Switch(_, _) => SwitchAlike(e, v);
    case Call(_, _, _, _) => CallAlike(e, v);
    case Move(_) => TakenAlike(e, v);
    case Consume(_, _) => TakenAlike(e, v);
    case Aggregate(initializers) => ElementsAlike(initializers, true, v);
    case Construct(elements, _) => ElementsAlike(elements, false, v);
  }

  lemma {:induction false} AssignAlike(e: Expression, v: View)
    requires e.kind.Assign?
    ensures CheckedAlike(v, MCheck(e, v))
    decreases e, 0
  {
    CheckAlike(e.kind.right, v);
    WriteAlike(e.kind.target, MCheck(e.kind.right, v).view);
  }

  lemma {:induction false} SwitchAlike(e: Expression, v: View)
    requires e.kind.Switch?
    ensures CheckedAlike(v, MCheck(e, v))
    decreases e, 0
  {
    var scrutinee, arms := e.kind.scrutinee, e.kind.arms;
    CheckAlike(scrutinee, v);
    ArmsAlike(arms, MCheck(scrutinee, v).view);
    JoinManyAlike(v, MCheck(scrutinee, v).view, MArms(arms, MCheck(scrutinee, v).view).0);
  }

  lemma {:induction false} CallAlike(e: Expression, v: View)
    requires e.kind.Call?
    ensures CheckedAlike(v, MCheck(e, v))
    decreases e, 0
  {
    var r := MReceiver(e.kind.receiver, v);
    ReceiverAlike(e.kind.receiver, v);
    ArgumentsAlike(e.kind.arguments, r.view);
    AlikeTrans(v, r, MArguments(e.kind.arguments, r.view));
  }

  lemma {:induction false} TakenAlike(e: Expression, v: View)
    requires e.kind.Move? || e.kind.Consume?
    ensures CheckedAlike(v, MCheck(e, v))
    decreases e, 0
  {
    var place := if e.kind.Move? then e.kind.argument else e.kind.consumed;
    CheckAlike(place, v);
    if NameOf(place).Some? {
      SetShape(v, NameOf(place).value, Gone);
    }
  }

  lemma {:induction false} TwoAlike(e: Expression, v: View)
    requires e.kind.Strict? || e.kind.Compound? || e.kind.Index? || e.kind.Logical?
    ensures CheckedAlike(v, MCheck(e, v))
    decreases e, 0
  {
    var (first, second) :=
      match e.kind
      case Strict(left, right) => (left, right)
      case Logical(left, right) => (left, right)
      case Compound(target, right) => (right, target)
      case Index(collection, index) => (collection, index);
    CheckAlike(first, v);
    var c := MCheck(first, v);
    CheckAlike(second, c.view);
    AlikeTrans(v, c, MCheck(second, c.view));
    JoinShape(c.view, c.view, MCheck(second, c.view).view);
  }

  lemma {:induction false} WriteAlike(target: Expression, v: View)
    ensures CheckedAlike(v, MWrite(target, v))
    decreases target, 2
  {
    match target.kind
    case Parenthesized(inner) => WriteAlike(inner, v);
    case Name(name) =>
      SetShape(v, name, Held);
      CheckAlike(target, v);
    case _ => CheckAlike(target, v);
  }

  lemma {:induction false} ArmsAlike(arms: seq<Expression>, v: View)
    ensures AllAlike(v, MArms(arms, v).0) && AllAlike(v, MArms(arms, v).1.throws)
    decreases arms, 0
  {
    if |arms| > 0 {
      CheckAlike(arms[0], v);
      ArmsAlike(arms[1..], v);
    }
  }

  lemma {:induction false} ElementsAlike(elements: seq<Element>, recorded: bool, v: View)
    ensures CheckedAlike(v, MElements(elements, recorded, v))
    decreases elements, 0
  {
    if |elements| > 0 {
      ElementAlike(elements[0], recorded, v);
      var first := MElement(elements[0], recorded, v);
      ElementsAlike(elements[1..], recorded, first.view);
      AlikeTrans(v, first, MElements(elements[1..], recorded, first.view));
    }
  }

  lemma {:induction false} ElementAlike(element: Element, recorded: bool, v: View)
    ensures CheckedAlike(v, MElement(element, recorded, v))
    decreases element, 0
  {
    CheckAlike(element.value, v);
  }

  lemma {:induction false} ReceiverAlike(receiver: Option<Receiver>, v: View)
    ensures CheckedAlike(v, MReceiver(receiver, v))
    decreases receiver, 0
  {
    if receiver.Some? {
      CheckAlike(receiver.value.value, v);
    }
  }

  lemma {:induction false} ArgumentsAlike(arguments: seq<Argument>, v: View)
    ensures CheckedAlike(v, MArguments(arguments, v))
    decreases arguments, 0
  {
    if |arguments| > 0 {
      ArgumentAlike(arguments[0], v);
      var first := MArgument(arguments[0], v);
      ArgumentsAlike(arguments[1..], first.view);
      AlikeTrans(v, first, MArguments(arguments[1..], first.view));
    }
  }

  lemma {:induction false} ArgumentAlike(argument: Argument, v: View)
    ensures CheckedAlike(v, MArgument(argument, v))
    decreases argument, 0
  {
    CheckAlike(argument.value, v);
  }

  lemma OptionalAlike(e: Option<Expression>, v: View)
    ensures CheckedAlike(v, MOptional(e, v))
  {
    if e.Some? {
      CheckAlike(e.value, v);
    }
  }

  // ----- statements -----

  ghost predicate Exits(v: View, o: MoveOutcome) {
    AllDeep(v, o.breaks) && AllDeep(v, o.continues) && AllDeep(v, o.throws)
  }

  ghost predicate OutcomeDeep(v: View, o: MoveOutcome) {
    |o.view| == |v| && Deep(v, o.view) && Exits(v, o)
  }

  lemma StraightDeep(v: View, c: MoveChecked)
    requires |v| > 0 && CheckedAlike(v, c)
    ensures OutcomeDeep(v, MStraight(c))
  {
    ShapeKeys(v, c.view);
    AlikeIsDeep(v, c.throws);
  }

  lemma AfterDeep(v: View, first: MoveOutcome, second: MoveOutcome)
    requires OutcomeDeep(v, first) && OutcomeDeep(first.view, second)
    ensures OutcomeDeep(v, MAfter(first, second))
  {
    DeepTransitive(v, first.view, second.view);
    AllDeepAfter(v, first.view, second.breaks);
    AllDeepAfter(v, first.view, second.continues);
    AllDeepAfter(v, first.view, second.throws);
  }

  /** Of a part that ran in a scope of its own, only the exits show outside. */
  lemma ScopeLeft(v: View, o: MoveOutcome)
    requires OutcomeDeep(Enter(v), o)
    ensures Alike(v, Leave(o.view))
    ensures |v| > 0 ==> OutcomeDeep(v, o.(view := Leave(o.view)))
  {
    CutAlike(v, o.view);
    LeaveIsCut(o.view);
    ShapeKeys(v, Leave(o.view));
    if |v| > 0 {
      DeeperIsDeep(v, o.breaks);
      DeeperIsDeep(v, o.continues);
      DeeperIsDeep(v, o.throws);
      AlikeOneDeep(v, Leave(o.view));
    }
  }

  lemma {:induction false} ListDeep(ss: seq<OwnStatement>, refs: bool, v: View)
    requires |v| > 0
    ensures OutcomeDeep(v, MList(ss, refs, v))
    decreases ss, 0
  {
    if |ss| > 0 {
      StatementDeep(ss[0], refs, v);
      var first := MAnalyze(ss[0], refs, v);
      if first.reachable {
        ListDeep(ss[1..], refs, first.view);
        AfterDeep(v, first, MList(ss[1..], refs, first.view));
      }
    }
  }

  lemma {:induction false} BlockDeep(b: OwnBlock, refs: bool, v: View)
    requires |v| > 0
    ensures OutcomeDeep(v, MBlock(b, refs, v)) && Alike(v, MBlock(b, refs, v).view)
    decreases b, 0
  {
    ListDeep(b.statements, refs, Enter(v));
    ScopeLeft(v, MList(b.statements, refs, Enter(v)));
  }

  lemma {:induction false} BranchDeep(statement: OwnStatement, refs: bool, v: View)
    requires |v| > 0
    ensures OutcomeDeep(v, MBranch(statement, refs, v)) && Alike(v, MBranch(statement, refs, v).view)
    decreases statement, 3
  {
    StatementDeep(statement, refs, Enter(v));
    ScopeLeft(v, MAnalyze(statement, refs, Enter(v)));
  }

  lemma LocalDeep(local: LocalDeclaration<Expression>, v: View)
    requires |v| > 0
    ensures OutcomeDeep(v, MLocal(local, v))
  {
    OptionalAlike(local.initializer, v);
    var c := if local.initializer.Some? then MCheck(local.initializer.value, v) else MoveChecked(v, [], true);
    ShapeKeys(v, c.view);
    StraightDeep(v, MoveCapture(c, true));
    IntroduceDeep(c.view, local.name, local.ty);
    DeepTransitive(v, c.view, Introduce(c.view, local.name, local.ty));
    assert MoveCapture(c, true).throws == c.throws + [c.view];
    StraightDeep(v, c);
  }

  lemma ExpressionDeep(e: Expression, v: View)
    requires |v| > 0
    ensures OutcomeDeep(v, MStraight(MCheck(e, v)))
  {
    CheckAlike(e, v);
    StraightDeep(v, MCheck(e, v));
  }

  lemma ReturnDeep(value: Option<Expression>, refs: bool, v: View)
    requires |v| > 0
    ensures OutcomeDeep(v, MReturn(value, refs, v))
  {
    OptionalAlike(value, v);
    StraightDeep(v, MOptional(value, v));
    if value.Some? && NameOf(value.value).Some? {
      SetShape(v, NameOf(value.value).value, Gone);
      StraightDeep(v, MoveName(v, NameOf(value.value).value));
    }
  }

  lemma ThrowDeep(error: Option<Expression>, v: View)
    requires |v| > 0
    ensures OutcomeDeep(v, MThrow(error, v))
  {
    OptionalAlike(error, v);
    StraightDeep(v, MoveCapture(MOptional(error, v), true));
  }

  lemma JumpDeep(v: View)
    requires |v| > 0
    ensures OutcomeDeep(v, MNothing(v)) && AllDeep(v, [v])
  {
  }

  lemma {:induction false} StatementDeep(statement: OwnStatement, refs: bool, v: View)
    requires |v| > 0
    ensures OutcomeDeep(v, MAnalyze(statement, refs, v))
    decreases statement, 2
  {
    match statement.kind
    case BlockStatement(b) => BlockDeep(b, refs, v);
    case Try(_, _) => TryDeep(statement, refs, v);
    case If(_, _, _) => IfDeep(statement, refs, v);
    case While(_, _) => WhileStatementDeep(statement, refs, v);
    case For(_, _) => ForStatementDeep(statement, refs, v);
    case _ => PlainDeep(statement, refs, v);
  }

  lemma PlainDeep(statement: OwnStatement, refs: bool, v: View)
    requires |v| > 0
    requires statement.kind.Local? || statement.kind.Return? || statement.kind.Throw? || statement.kind.Break?
          || statement.kind.Continue? || statement.kind.Expression? || statement.kind.Empty?
    ensures OutcomeDeep(v, MAnalyze(statement, refs, v))
  {
    match statement.kind
    case Local(local) => LocalDeep(local, v);
    case Return(value) => ReturnDeep(value, refs, v);
    case Throw(error) => ThrowDeep(error, v);
    case Expression(e) => ExpressionDeep(e, v);
    case _ => JumpDeep(v);
  }

  lemma {:induction false} IfDeep(statement: OwnStatement, refs: bool, v: View)
    requires |v| > 0 && statement.kind.If?
    ensures OutcomeDeep(v, MIf(statement, refs, v))
    decreases statement, 1
  {
    var c := MCheck(statement.kind.condition, v);
    CheckAlike(statement.kind.condition, v);
    StraightDeep(v, c);
    ShapeKeys(v, c.view);
    BranchesDeep(statement, refs, c.view);
    AfterDeep(v, MStraight(c), MBranches(statement, refs, c.view));
  }

  lemma {:induction false} BranchesDeep(statement: OwnStatement, refs: bool, v: View)
    requires |v| > 0 && statement.kind.If?
    ensures OutcomeDeep(v, MBranches(statement, refs, v))
    decreases statement, 0
  {
    var yes, no := statement.kind.thenBranch, statement.kind.elseBranch;
    BranchDeep(yes, refs, v);
    if no.Some? {
      BranchDeep(no.value, refs, v);
    }
    JumpDeep(v);
    JoinedDeep(v, MBranch(yes, refs, v), if no.Some? then MBranch(no.value, refs, v) else MNothing(v));
  }

  lemma JoinedDeep(v: View, t: MoveOutcome, e: MoveOutcome)
    requires |v| > 0 && OutcomeDeep(v, t) && OutcomeDeep(v, e) && Alike(v, t.view) && Alike(v, e.view)
    ensures OutcomeDeep(v, MJoinBranches(v, t, e))
  {
    JoinShape(v, t.view, e.view);
    AlikeOneDeep(v, MJoinBranches(v, t, e).view);
  }

  lemma {:induction false} TryDeep(statement: OwnStatement, refs: bool, v: View)
    requires |v| > 0 && statement.kind.Try?
    ensures OutcomeDeep(v, MTry(statement, refs, v))
    decreases statement, 1
  {
    var guarded, catches := statement.kind.guarded, statement.kind.catches;
    var g := MBlock(guarded, refs, v);
    var start := MCatchBaseline(v, g.throws);
    BlockDeep(guarded, refs, v);
    GuardedThrows(guarded, refs, v);
    BaselineDeep(v, g.throws);
    CatchesDeep(catches, refs, start);
    TryEndDeep(v, g, start, MCatches(catches, refs, start).0, MCatches(catches, refs, start).1);
  }

  lemma BaselineDeep(v: View, throws: seq<View>)
    requires AllDeep(Enter(v), throws)
    ensures Alike(v, MCatchBaseline(v, throws)) && |MCatchBaseline(v, throws)| == |v|
  {
    CutAllAlike(v, throws);
    JoinManyAlike(v, v, CutAll(throws, |v|));
    ShapeKeys(v, MCatchBaseline(v, throws));
  }

  lemma TryEndDeep(v: View, g: MoveOutcome, start: View, ends: seq<View>, h: MoveOutcome)
    requires |v| > 0 && OutcomeDeep(v, g) && Alike(v, g.view) && Alike(v, start)
    requires AllAlike(start, ends) && Exits(start, h)
    ensures OutcomeDeep(v, MTryEnd(v, g, ends, h))
  {
    JoinManyAlike(v, v, (if g.reachable then [g.view] else []) + ends);
    AlikeOneDeep(v, MTryEnd(v, g, ends, h).view);
    AlikeOneDeep(v, start);
    AllDeepAfter(v, start, h.breaks);
    AllDeepAfter(v, start, h.continues);
    AllDeepAfter(v, start, h.throws);
  }

  lemma {:induction false} GuardedThrows(b: OwnBlock, refs: bool, v: View)
    requires |v| > 0
    ensures AllDeep(Enter(v), MBlock(b, refs, v).throws)
    decreases b, 0
  {
    ListDeep(b.statements, refs, Enter(v));
  }

  lemma {:induction false} CatchesDeep(catches: seq<OwnCatch>, refs: bool, v: View)
    requires |v| > 0
    ensures AllAlike(v, MCatches(catches, refs, v).0) && Exits(v, MCatches(catches, refs, v).1)
    decreases catches, 0
  {
    if |catches| > 0 {
      HandlerDeep(catches[0], refs, v);
      CatchesDeep(catches[1..], refs, v);
    }
  }

  lemma {:induction false} HandlerDeep(clause: OwnCatch, refs: bool, v: View)
    requires |v| > 0
    ensures Alike(v, MHandler(clause, refs, v).view) && Exits(v, MHandler(clause, refs, v))
    decreases clause, 0
  {
    var w := MDeclareCatch(clause.binding, Enter(v));
    if clause.binding.Some? {
      IntroduceDeep(Enter(v), clause.binding.value.name, clause.binding.value.ty);
    }
    ListDeep(clause.body.statements, refs, w);
    var o := MBody(clause.body, refs, w);
    DeepTransitive(Enter(v), w, o.view);
    AllDeepAfter(Enter(v), w, o.breaks);
    AllDeepAfter(Enter(v), w, o.continues);
    AllDeepAfter(Enter(v), w, o.throws);
    ScopeLeft(v, o);
  }

  lemma {:induction false} RangeDeep(bindings: seq<RangeBinding>, v: View)
    requires |v| > 0
    ensures Deep(v, MDeclareRange(bindings, v)) && |MDeclareRange(bindings, v)| == |v|
    decreases |bindings|
  {
    if |bindings| > 0 {
      var w := Introduce(v, bindings[0].name, bindings[0].ty);
      IntroduceDeep(v, bindings[0].name, bindings[0].ty);
      RangeDeep(bindings[1..], w);
      DeepTransitive(v, w, MDeclareRange(bindings[1..], w));
    }
  }

  lemma TailAlike(update: Option<Expression>, condition: Option<Expression>, v: View)
    ensures CheckedAlike(v, MTail(update, condition, v))
  {
    OptionalAlike(update, v);
    OptionalAlike(condition, MOptional(update, v).view);
    AlikeTrans(v, MOptional(update, v), MOptional(condition, MOptional(update, v).view));
  }

  lemma {:induction false} TailsAlike(update: Option<Expression>, condition: Option<Expression>, v: View, vs: seq<View>)
    requires AllAlike(v, vs)
    ensures AllAlike(v, MTails(update, condition, vs).0) && AllAlike(v, MTails(update, condition, vs).1)
    decreases |vs|
  {
    if |vs| > 0 {
      TailAlike(update, condition, vs[0]);
      TailsAlike(update, condition, v, vs[1..]);
    }
  }

  /** How the scope of an iteration is left. */
  lemma {:induction false} IterationLeft(bindings: seq<RangeBinding>, body: OwnStatement, refs: bool, v: View)
    requires |v| > 0
    ensures var o := MAnalyze(body, refs, MDeclareRange(bindings, Enter(v)));
            && AllAlike(v, MTailViews(o, |v|)) && AllAlike(v, CutAll(o.breaks, |v|)) && AllDeep(v, o.throws)
    decreases body, 3, 0
  {
    var w := MDeclareRange(bindings, Enter(v));
    RangeDeep(bindings, Enter(v));
    StatementDeep(body, refs, w);
    var o := MAnalyze(body, refs, w);
    DeepTransitive(Enter(v), w, o.view);
    AllDeepAfter(Enter(v), w, o.breaks);
    AllDeepAfter(Enter(v), w, o.continues);
    AllDeepAfter(Enter(v), w, o.throws);
    ScopeLeft(v, o);
    CutAllAlike(v, o.continues);
    CutAllAlike(v, o.breaks);
  }

  lemma {:induction false} IterateDeep(
    bindings: seq<RangeBinding>, body: OwnStatement, update: Option<Expression>, condition: Option<Expression>,
    refs: bool, v: View)
    requires |v| > 0
    ensures IterationAlike(v, MIterate(bindings, body, update, condition, refs, v))
    decreases body, 3
  {
    IterationLeft(bindings, body, refs, v);
    IterationEndAlike(MAnalyze(body, refs, MDeclareRange(bindings, Enter(v))), update, condition, v);
  }

  lemma IterationEndAlike(o: MoveOutcome, update: Option<Expression>, condition: Option<Expression>, v: View)
    requires |v| > 0
    requires AllAlike(v, MTailViews(o, |v|)) && AllAlike(v, CutAll(o.breaks, |v|)) && AllDeep(v, o.throws)
    ensures IterationAlike(v, MIterationEnd(o, update, condition, |v|))
  {
    var vs := MTailViews(o, |v|);
    TailsAlike(update, condition, v, vs);
    if |vs| > 0 {
      var (ends, throws, _) := MTails(update, condition, vs);
      JoinManyAlike(v, vs[0], ends);
      AlikeIsDeep(v, throws);
    }
  }

  lemma {:induction false} LoopDeep(
    bindings: seq<RangeBinding>, body: OwnStatement, update: Option<Expression>, condition: Option<Expression>,
    refs: bool, v: View)
    requires |v| > 0
    ensures OutcomeDeep(v, MLoop(bindings, body, update, condition, refs, v))
    decreases body, 5
  {
    IterateDeep(bindings, body, update, condition, refs, v);
    var first := MIterate(bindings, body, update, condition, refs, v);
    if first.next.Some? {
      ShapeKeys(v, first.next.value);
      IterateDeep(bindings, body, update, condition, refs, first.next.value);
    }
    LoopExitsDeep(v, first, MSecond(bindings, body, update, condition, refs, first));
  }

  ghost predicate IterationAlike(v: View, i: MoveIteration) {
    (i.next.Some? ==> Alike(v, i.next.value)) && AllAlike(v, i.breaks) && AllDeep(v, i.throws)
  }

  lemma SecondDeep(v: View, w: View, second: MoveIteration)
    requires |v| > 0 && Alike(v, w) && IterationAlike(w, second)
    ensures IterationAlike(v, second)
  {
    AlikeOneDeep(v, w);
    AllDeepAfter(v, w, second.throws);
  }

  lemma ExitsAllAlike(v: View, first: MoveIteration, second: MoveIteration)
    requires IterationAlike(v, first) && IterationAlike(v, second)
    ensures AllAlike(v, MExits(v, first, second))
  {
  }

  lemma LoopExitsDeep(v: View, first: MoveIteration, second: MoveIteration)
    requires |v| > 0 && IterationAlike(v, first)
    requires IterationAlike(if first.next.Some? then first.next.value else v, second)
    ensures OutcomeDeep(v, MBoth(first, second, JoinMany(v, MExits(v, first, second))))
  {
    SecondDeep(v, if first.next.Some? then first.next.value else v, second);
    ExitsAllAlike(v, first, second);
    JoinManyAlike(v, v, MExits(v, first, second));
    AlikeOneDeep(v, JoinMany(v, MExits(v, first, second)));
  }

  lemma {:induction false} WhileStatementDeep(statement: OwnStatement, refs: bool, v: View)
    requires |v| > 0 && statement.kind.While?
    ensures OutcomeDeep(v, MWhileStatement(statement, refs, v))
    decreases statement, 1
  {
    WhileDeep(statement.kind.condition, statement.kind.body, refs, Enter(v));
    ScopeLeft(v, MWhile(statement.kind.condition, statement.kind.body, refs, Enter(v)));
  }

  lemma {:induction false} WhileDeep(condition: Expression, body: OwnStatement, refs: bool, v: View)
    requires |v| > 0
    ensures OutcomeDeep(v, MWhile(condition, body, refs, v))
    decreases body, 6
  {
    var c := MCheck(condition, v);
    ExpressionDeep(condition, v);
    LoopDeep([], body, None, Some(condition), refs, c.view);
    AfterDeep(v, MStraight(c), MLoop([], body, None, Some(condition), refs, c.view));
  }

  lemma {:induction false} ForStatementDeep(statement: OwnStatement, refs: bool, v: View)
    requires |v| > 0 && statement.kind.For?
    ensures OutcomeDeep(v, MForStatement(statement, refs, v))
    decreases statement, 1
  {
    var clause, body := statement.kind.clause, statement.kind.body;
    if clause.Classic? {
      ClassicDeep(clause, body, refs, Enter(v));
    } else {
      RangeLoopDeep(clause, body, refs, Enter(v));
    }
    ScopeLeft(v, MFor(clause, body, refs, Enter(v)));
  }

  lemma InitializerDeep(initializer: Option<ForInitializer<Expression>>, v: View)
    requires |v| > 0
    ensures OutcomeDeep(v, MInitializer(initializer, v))
  {
    JumpDeep(v);
    if initializer.Some? {
      match initializer.value
      case InitializerLocal(local) => LocalDeep(local, v);
      case InitializerExpression(e) => ExpressionDeep(e, v);
    }
  }

  lemma {:induction false} ClassicDeep(clause: ForClause<Expression>, body: OwnStatement, refs: bool, v: View)
    requires |v| > 0 && clause.Classic?
    ensures OutcomeDeep(v, MClassic(clause, body, refs, v))
    decreases body, 6
  {
    var i := MInitializer(clause.initializer, v);
    var c := MOptional(clause.condition, i.view);
    InitializerDeep(clause.initializer, v);
    OptionalAlike(clause.condition, i.view);
    StraightDeep(i.view, c);
    AfterDeep(v, i, MStraight(c));
    LoopDeep([], body, clause.update, clause.condition, refs, c.view);
    AfterDeep(v, MAfter(i, MStraight(c)), MLoop([], body, clause.update, clause.condition, refs, c.view));
  }

  lemma {:induction false} RangeLoopDeep(clause: ForClause<Expression>, body: OwnStatement, refs: bool, v: View)
    requires |v| > 0 && clause.Range?
    ensures OutcomeDeep(v, MRange(clause, body, refs, v))
    decreases body, 6
  {
    var c := MCheck(clause.iterable, v);
    ExpressionDeep(clause.iterable, v);
    LoopDeep(clause.bindings, body, None, None, refs, c.view);
    AfterDeep(v, MStraight(c), MLoop(clause.bindings, body, None, None, refs, c.view));
  }

  // ----- the fixed point -----

  /** Views of the same names and types whose statuses agree are equal. */
  lemma SameView(v: View, w: View)
    requires Shape(v) == Shape(w)
    requires forall i: nat, n :: StatusAt(v, i, n) == StatusAt(w, i, n)
    ensures v == w
  {
    ShapeKeys(v, w);
    forall i | 0 <= i < |v|
      ensures v[i] == w[i]
    {
      forall n | n in v[i]
        ensures v[i][n] == w[i][n]
      {
        assert StatusAt(v, i, n) == StatusAt(w, i, n);
      }
    }
  }

  /** Making one change twice is making it once. */
  lemma TiedRepeats(a: Status, p: Status, q: Status)
    requires Tied(a, p, p, q)
    ensures p == q
  {
  }

  /**
   The second analysed iteration of any loop leaves at the next condition test what the first one
   left there: the exits of two iterations are the exits of any number of them.
   */
  lemma TwoPassesSuffice(
    bindings: seq<RangeBinding>, body: OwnStatement, update: Option<Expression>, condition: Option<Expression>,
    refs: bool, v: View)
    requires |v| > 0
    ensures var first := MIterate(bindings, body, update, condition, refs, v);
            first.next.Some? ==> MIterate(bindings, body, update, condition, refs, first.next.value).next == first.next
  {
    var first := MIterate(bindings, body, update, condition, refs, v);
    if first.next.Some? {
      var next := first.next.value;
      var second := MIterate(bindings, body, update, condition, refs, next);
      IterateDeep(bindings, body, update, condition, refs, v);
      forall i: nat, n
        ensures second.next.Some? && Shape(next) == Shape(second.next.value)
        ensures StatusAt(next, i, n) == StatusAt(second.next.value, i, n)
      {
        var k := Slot(i, n, StatusAt(v, i, n), StatusAt(next, i, n));
        assert StatusAt(v, i, n) == JoinOptional(k.a, None) && StatusAt(next, i, n) == JoinOptional(k.b, None);
        assert Pair(k, v, next);
        IteratePair(k, bindings, body, update, condition, refs, v, next);
        TiedRepeats(k.a, k.b, StatusAt(second.next.value, i, n));
      }
      var k := Slot(0, "", StatusAt(v, 0, ""), StatusAt(next, 0, ""));
      assert StatusAt(v, 0, "") == JoinOptional(k.a, None) && StatusAt(next, 0, "") == JoinOptional(k.b, None);
      IteratePair(k, bindings, body, update, condition, refs, v, next);
      SameView(next, second.next.value);
    }
  }
}
