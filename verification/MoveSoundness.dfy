/**
 Move soundness: code that the ownership pass accepts never uses a variable while it is moved out,
 in any run. At every point the store lies in the view the pass has for that point.
 */
module MoveSoundness {
  import opened Wrappers
  import opened Ast
  import opened Ownership
  import opened MoveViews
  import opened MoveRuns
  import opened LoopPasses
  import opened MoveShapes

  // ----- what the theorem asks of the code -----

  /**
   `guarded`: inside the block of a `try`. There, every point that may raise has to be one the pass
   records. Everywhere, what is moved has to be a whole named variable.
   */
  ghost predicate Tracked(e: Expression, guarded: bool)
    decreases e, 1
  {
    match e.kind
    case Name(_) => true
    case Literal => true
    case Parenthesized(inner) => Tracked(inner, guarded)
    case Operand(operand) => Tracked(operand, guarded)
    case Increment(place) => Tracked(place, guarded)
    case Strict(left, right) => Tracked(left, guarded) && Tracked(right, guarded)
    case Logical(left, right) => Tracked(left, guarded) && Tracked(right, guarded)
    case Assign(target, right, _, _) => Tracked(target, guarded) && Tracked(right, guarded)
    case Compound(target, right) => Tracked(target, guarded) && Tracked(right, guarded)
    case Switch(scrutinee, arms) =>
      Tracked(scrutinee, guarded) && forall i :: 0 <= i < |arms| ==> Tracked(arms[i], guarded)
    case Call(receiver, arguments, _, _) =>
      && (receiver.Some? ==> Tracked(receiver.value.value, guarded))
      && forall i :: 0 <= i < |arguments| ==> Tracked(arguments[i].value, guarded)
    case Move(argument) => NameOf(argument).Some?
    case Consume(consumed, _) => Tracked(consumed, guarded)
    case Aggregate(initializers) => forall i :: 0 <= i < |initializers| ==> Tracked(initializers[i].value, guarded)
    case Construct(elements, _) =>
      forall i :: 0 <= i < |elements| ==> Tracked(elements[i].value, guarded) && (guarded ==> !elements[i].adapted)
    case Field(whole) => Tracked(whole, guarded)
    case Index(collection, index) => Tracked(collection, guarded) && Tracked(index, guarded)
  }

  ghost predicate TrackedOptional(e: Option<Expression>, guarded: bool) {
    e.Some? ==> Tracked(e.value, guarded)
  }

  ghost predicate TrackedStatement(s: OwnStatement, guarded: bool)
    decreases s, 1
  {
    match s.kind
    case BlockStatement(b) => TrackedBlock(b, guarded)
    case Local(local) => TrackedOptional(local.initializer, guarded)
    case Return(value) => TrackedOptional(value, guarded)
    case Throw(error) => TrackedOptional(error, guarded)
    case Try(block, catches) =>
      TrackedBlock(block, true) && forall i :: 0 <= i < |catches| ==> TrackedHandler(catches[i], guarded)
    case If(condition, yes, no) =>
      Tracked(condition, guarded) && TrackedStatement(yes, guarded)
        && (no.Some? ==> TrackedStatement(no.value, guarded))
    case While(condition, body) => Tracked(condition, guarded) && TrackedStatement(body, guarded)
    case For(clause, body) => TrackedClause(clause, guarded) && TrackedStatement(body, guarded)
    case Expression(e) => Tracked(e, guarded)
    case _ => true
  }

  ghost predicate TrackedBlock(b: OwnBlock, guarded: bool)
    decreases b, 0
  {
    forall i :: 0 <= i < |b.statements| ==> TrackedStatement(b.statements[i], guarded)
  }

  ghost predicate TrackedHandler(clause: OwnCatch, guarded: bool)
    decreases clause, 0
  {
    TrackedBlock(clause.body, guarded)
  }

  ghost predicate TrackedClause(clause: ForClause<Expression>, guarded: bool) {
    match clause
    case Classic(initializer, condition, update) =>
      && (initializer.Some? ==>
            match initializer.value
            case InitializerLocal(local) => TrackedOptional(local.initializer, guarded)
            case InitializerExpression(e) => Tracked(e, guarded))
      && TrackedOptional(condition, guarded) && TrackedOptional(update, guarded)
    case Range(_, iterable, json) => Tracked(iterable, guarded) && (guarded ==> !json)
  }

  // ----- what resolution guarantees -----

  /**
   A conversion of a native result takes a declared type that is no reference, guard types cannot be
   declared, and neither references nor guards have a default constructor.
   */
  predicate ResolvedLocal(local: LocalDeclaration<Expression>) {
    BorrowsInitializer(local.ty) ==> !local.adapted && !local.implicitCall.throws
  }

  ghost predicate Resolved(s: OwnStatement)
    decreases s, 1
  {
    match s.kind
    case BlockStatement(b) => ResolvedBlock(b)
    case Local(local) => ResolvedLocal(local)
    case Try(block, catches) =>
      ResolvedBlock(block) && forall i :: 0 <= i < |catches| ==> ResolvedHandler(catches[i])
    case If(_, yes, no) => Resolved(yes) && (no.Some? ==> Resolved(no.value))
    case While(_, body) => Resolved(body)
    case For(clause, body) => ResolvedClause(clause) && Resolved(body)
    case _ => true
  }

  ghost predicate ResolvedBlock(b: OwnBlock)
    decreases b, 0
  {
    forall i :: 0 <= i < |b.statements| ==> Resolved(b.statements[i])
  }

  ghost predicate ResolvedHandler(clause: OwnCatch)
    decreases clause, 0
  {
    ResolvedBlock(clause.body)
  }

  ghost predicate ResolvedClause(clause: ForClause<Expression>) {
    clause.Classic? && clause.initializer.Some? && clause.initializer.value.InitializerLocal? ==>
      ResolvedLocal(clause.initializer.value.local)
  }

  // ----- stores and views -----

  ghost predicate Fits(moved: bool, status: Status) {
    (status.Held? ==> !moved) && (status.Gone? ==> moved)
  }

  ghost predicate ScopeCovered(c: map<string, Cell>, v: map<string, Mark>) {
    && c.Keys == v.Keys
    && forall n :: n in c ==> c[n].ty == v[n].ty && Fits(c[n].moved, v[n].status)
  }

  /** The store lies in the view. */
  ghost predicate Covered(c: Store, v: View) {
    |c| == |v| && forall i :: 0 <= i < |c| ==> ScopeCovered(c[i], v[i])
  }

  /** The store lies in one of the views, of which only the outer scopes may be left. */
  ghost predicate CoveredBy(c: Store, vs: seq<View>) {
    exists i :: 0 <= i < |vs| && |c| <= |vs[i]| && Covered(c, vs[i][..|c|])
  }

  lemma {:induction false} CoveredLevel(c: Store, v: View, name: string)
    requires Covered(c, v)
    ensures LevelOf(c, name) == LevelOf(v, name)
    ensures CellOf(c, name).Some? <==> MarkOf(v, name).Some?
    ensures CellOf(c, name).Some? ==>
              && CellOf(c, name).value.ty == MarkOf(v, name).value.ty
              && Fits(CellOf(c, name).value.moved, MarkOf(v, name).value.status)
    decreases |c|
  {
    if |c| > 0 {
      assert ScopeCovered(c[|c| - 1], v[|v| - 1]);
      if name !in c[|c| - 1] {
        CoveredLevel(c[..|c| - 1], v[..|v| - 1], name);
      }
    }
  }

  lemma SetCovered(c: Store, v: View, name: string, moved: bool, status: Status)
    requires Covered(c, v) && Fits(moved, status)
    ensures Covered(SetMoved(c, name, moved), SetStatus(v, name, status))
  {
    CoveredLevel(c, v, name);
    var level := LevelOf(c, name);
    if level.Some? {
      assert ScopeCovered(c[level.value], v[level.value]);
    }
  }

  lemma EnterCovered(c: Store, v: View)
    requires Covered(c, v)
    ensures Covered(Enter(c), Enter(v))
  {
  }

  lemma BringCovered(c: Store, v: View, name: string, ty: TypeRef)
    requires Covered(c, v)
    ensures Covered(Bring(c, name, ty), Introduce(v, name, ty))
  {
    if |c| > 0 {
      assert ScopeCovered(c[|c| - 1], v[|v| - 1]);
    }
  }

  lemma CutCoveredBy(c: Store, vs: seq<View>, depth: nat)
    requires CoveredBy(c, vs) && depth <= |c|
    ensures CoveredBy(Cut(c, depth), vs)
  {
    var i :| 0 <= i < |vs| && |c| <= |vs[i]| && Covered(c, vs[i][..|c|]);
    assert vs[i][..depth] == vs[i][..|c|][..depth];
    assert Covered(Cut(c, depth), vs[i][..depth]);
  }

  lemma CoveredByCut(c: Store, vs: seq<View>)
    requires CoveredBy(c, vs)
    ensures exists i :: 0 <= i < |vs| && Covered(c, CutAll(vs, |c|)[i])
  {
    var i :| 0 <= i < |vs| && |c| <= |vs[i]| && Covered(c, vs[i][..|c|]);
    assert CutAll(vs, |c|)[i] == vs[i][..|c|];
  }

  lemma CoveredByAt(c: Store, vs: seq<View>, i: nat)
    requires i < |vs| && Covered(c, vs[i])
    ensures CoveredBy(c, vs)
  {
    assert vs[i][..|c|] == vs[i];
  }

  lemma CoveredByMore(c: Store, before: seq<View>, vs: seq<View>, after: seq<View>)
    requires CoveredBy(c, vs)
    ensures CoveredBy(c, before + vs + after)
  {
    var i :| 0 <= i < |vs| && |c| <= |vs[i]| && Covered(c, vs[i][..|c|]);
    assert (before + vs + after)[|before| + i] == vs[i];
  }

  lemma CoveredByRight(c: Store, before: seq<View>, vs: seq<View>)
    requires CoveredBy(c, vs)
    ensures CoveredBy(c, before + vs)
  {
    CoveredByMore(c, before, vs, []);
    assert before + vs + [] == before + vs;
  }

  lemma CoveredByLeft(c: Store, vs: seq<View>, after: seq<View>)
    requires CoveredBy(c, vs)
    ensures CoveredBy(c, vs + after)
  {
    CoveredByMore(c, [], vs, after);
    assert [] + vs + after == vs + after;
  }

  lemma FitsJoin(moved: bool, a: Status, b: Status)
    ensures Fits(moved, a) || Fits(moved, b) ==> Fits(moved, Join(a, b))
  {
  }

  /** A store in one of two views of the same names is in their join. */
  lemma JoinCovered(c: Store, baseline: View, l: View, r: View)
    requires Alike(baseline, l) && Alike(baseline, r)
    requires Covered(c, l) || Covered(c, r)
    ensures Covered(c, JoinViews(baseline, l, r))
  {
    ShapeKeys(baseline, l);
    ShapeKeys(baseline, r);
    var v := JoinViews(baseline, l, r);
    forall i | 0 <= i < |v|
      ensures ScopeCovered(c[i], v[i])
    {
      if Covered(c, l) {
        assert ScopeCovered(c[i], l[i]);
      } else {
        assert ScopeCovered(c[i], r[i]);
      }
      forall n | n in v[i]
        ensures n in c[i] && c[i][n].ty == v[i][n].ty && Fits(c[i][n].moved, v[i][n].status)
      {
        FitsJoin(c[i][n].moved, l[i][n].status, r[i][n].status);
      }
    }
  }

  lemma {:induction false} JoinManyCovered(c: Store, baseline: View, vs: seq<View>, i: nat)
    requires AllAlike(baseline, vs) && i < |vs| && Covered(c, vs[i])
    ensures Covered(c, JoinMany(baseline, vs))
    decreases |vs|
  {
    if |vs| > 1 {
      var rest := vs[..|vs| - 1];
      JoinManyAlike(baseline, baseline, rest);
      if i < |rest| {
        JoinManyCovered(c, baseline, rest, i);
      }
      JoinCovered(c, baseline, JoinMany(baseline, rest), vs[|vs| - 1]);
    }
  }

  // ----- expressions -----

  /** What a run `r` of checked code may be, when the pass is silent about it. */
  ghost predicate Sound(guarded: bool, depth: int, r: Run, m: MoveChecked) {
    && (r.exit.Done? || r.exit.Raised? || r.exit.Cutoff?)
    && |r.store| == depth
    && (r.exit.Done? ==> Covered(r.store, m.view))
    && (guarded && r.exit.Raised? ==> CoveredBy(r.store, m.throws))
  }

  lemma RaiseSound(guarded: bool, depth: int, r: Run, m: MoveChecked, raises: bool, recorded: bool)
    requires Sound(guarded, depth, r, m) && (guarded && raises ==> recorded)
    ensures Sound(guarded, depth, MayRaise(raises, r), MoveCapture(m, recorded))
  {
    if guarded && r.exit.Raised? {
      CoveredByLeft(r.store, m.throws, [m.view]);
    }
    if r.exit.Done? {
      var vs := m.throws + [m.view];
      assert vs[|m.throws|] == m.view;
      CoveredByAt(r.store, vs, |m.throws|);
    }
  }

  /** Runs one after the other. */
  lemma ThenSound(guarded: bool, depth: int, r: Run, m: MoveChecked, s: Run, n: MoveChecked)
    requires Sound(guarded, depth, r, m) && (r.exit.Done? ==> Sound(guarded, depth, s, n))
    ensures Sound(guarded, depth, if r.exit.Done? then s else r, MoveThen(m, n))
  {
    if guarded && r.exit.Raised? {
      CoveredByLeft(r.store, m.throws, n.throws);
    }
    if guarded && r.exit.Done? && s.exit.Raised? {
      CoveredByRight(s.store, m.throws, n.throws);
    }
  }

  lemma UseSound(name: string, guarded: bool, c: Store, v: View, tape: Tape)
    requires Covered(c, v) && Usable(v, name)
    ensures Sound(guarded, |c|, Use(name, c, tape), MoveChecked(v, [], true))
  {
    CoveredLevel(c, v, name);
  }

  lemma TakeOutSound(name: string, guarded: bool, c: Store, v: View, tape: Tape)
    requires Covered(c, v) && Usable(v, name)
    ensures Sound(guarded, |c|, TakeOut(name, c, tape), MoveName(v, name))
  {
    CoveredLevel(c, v, name);
    SetCovered(c, v, name, true, Gone);
  }

  lemma {:induction false} NamedPlace(e: Expression, c: Store, tape: Tape)
    requires NameOf(e).Some?
    ensures Eval(e, c, tape) == Use(NameOf(e).value, c, tape)
    decreases e
  {
    if e.kind.Parenthesized? {
      NamedPlace(e.kind.inner, c, tape);
    }
  }

  lemma {:induction false} EvalSound(e: Expression, guarded: bool, c: Store, v: View, tape: Tape)
    requires Tracked(e, guarded) && Covered(c, v) && MCheck(e, v).silent
    ensures Sound(guarded, |c|, Eval(e, c, tape), MCheck(e, v))
    decreases e, 1
  {
    match e.kind
    case Name(name) => UseSound(name, guarded, c, v, tape);
    case Literal =>
    case Parenthesized(inner) => EvalSound(inner, guarded, c, v, tape);
    case Operand(operand) => EvalSound(operand, guarded, c, v, tape);
    case Increment(place) => EvalSound(place, guarded, c, v, tape);
    case Field(whole) => EvalSound(whole, guarded, c, v, tape);
    case Strict(_, _) => TwoSound(e, guarded, c, v, tape);
    case Compound(_, _) => TwoSound(e, guarded, c, v, tape);
    case Index(_, _) => TwoSound(e, guarded, c, v, tape);
    case Logical(_, _) => LogicalSound(e, guarded, c, v, tape);
    case Assign(_, _, _, _) => AssignSound(e, guarded, c, v, tape);
    case Switch(_, _) => SwitchSound(e, guarded, c, v, tape);
    case Call(_, _, _, _) => CallSound(e, guarded, c, v, tape);
    case Move(_) => MoveSound(e, guarded, c, v, tape);
    case Consume(_, _) => ConsumeSound(e, guarded, c, v, tape);
    case Aggregate(initializers) => ElementsSound(initializers, true, guarded, c, v, tape);
    case Construct(elements, throws) =>
      ElementsSound(elements, false, guarded, c, v, tape);
      RaiseSound(guarded, |c|, EvalElements(elements, c, tape), MElements(elements, false, v), throws, throws);
  }

  lemma {:induction false} TwoSound(e: Expression, guarded: bool, c: Store, v: View, tape: Tape)
    requires Tracked(e, guarded) && Covered(c, v) && MCheck(e, v).silent
    requires e.kind.Strict? || e.kind.Compound? || e.kind.Index?
    ensures Sound(guarded, |c|, Eval(e, c, tape), MCheck(e, v))
    decreases e, 0
  {
    var (first, second) :=
      match e.kind
      case Strict(left, right) => (left, right)
      case Compound(target, right) => (right, target)
      case Index(collection, index) => (collection, index);
    EvalSound(first, guarded, c, v, tape);
    var r, m := Eval(first, c, tape), MCheck(first, v);
    if r.exit.Done? {
      EvalSound(second, guarded, r.store, m.view, r.tape);
    }
    ThenSound(guarded, |c|, r, m, Eval(second, r.store, r.tape), MCheck(second, m.view));
  }

  lemma {:induction false} LogicalSound(e: Expression, guarded: bool, c: Store, v: View, tape: Tape)
    requires Tracked(e, guarded) && Covered(c, v) && MCheck(e, v).silent && e.kind.Logical?
    ensures Sound(guarded, |c|, Eval(e, c, tape), MCheck(e, v))
    decreases e, 0
  {
    EvalSound(e.kind.left, guarded, c, v, tape);
    var l, m := Eval(e.kind.left, c, tape), MCheck(e.kind.left, v);
    var n := MCheck(e.kind.right, m.view);
    CheckAlike(e.kind.right, m.view);
    if l.exit.Done? && |l.tape| > 0 {
      var r := Eval(e.kind.right, l.store, l.tape[1..]);
      EvalSound(e.kind.right, guarded, l.store, m.view, l.tape[1..]);
      JoinCovered(l.store, m.view, m.view, n.view);
      if r.exit.Done? {
        JoinCovered(r.store, m.view, m.view, n.view);
      }
      ThenSound(guarded, |c|, l, m, r, n);
    } else {
      ThenSound(guarded, |c|, l.(exit := if l.exit.Done? then Cutoff else l.exit), m, l, n);
    }
  }

  lemma {:induction false} AssignSound(e: Expression, guarded: bool, c: Store, v: View, tape: Tape)
    requires Tracked(e, guarded) && Covered(c, v) && MCheck(e, v).silent && e.kind.Assign?
    ensures Sound(guarded, |c|, Eval(e, c, tape), MCheck(e, v))
    decreases e, 0
  {
    var target, right, adapted, json := e.kind.target, e.kind.right, e.kind.adapted, e.kind.jsonPlace;
    EvalSound(right, guarded, c, v, tape);
    var r, m := Eval(right, c, tape), MCheck(right, v);
    RaiseSound(guarded, |c|, r, m, adapted, adapted);
    RaiseSound(guarded, |c|, MayRaise(adapted, r), MoveCapture(m, adapted), json, json);
    var s := MayRaise(json, MayRaise(adapted, r));
    if s.exit.Done? {
      AssignedSound(target, guarded, s.store, m.view, s.tape);
    }
    ThenSound(
      guarded, |c|, s, MoveCapture(MoveCapture(m, adapted), json), Assigned(target, s.store, s.tape),
      MWrite(target, m.view));
  }

  lemma {:induction false} AssignedSound(target: Expression, guarded: bool, c: Store, v: View, tape: Tape)
    requires Tracked(target, guarded) && Covered(c, v) && MWrite(target, v).silent
    ensures Sound(guarded, |c|, Assigned(target, c, tape), MWrite(target, v))
    decreases target, 2
  {
    match target.kind
    case Parenthesized(inner) => AssignedSound(inner, guarded, c, v, tape);
    case Name(name) =>
      CoveredLevel(c, v, name);
      SetCovered(c, v, name, false, Held);
      if MWrite(target, v).view == v && Usable(v, name) {
        UseSound(name, guarded, c, v, tape);
      }
    case _ => EvalSound(target, guarded, c, v, tape);
  }

  lemma {:induction false} SwitchSound(e: Expression, guarded: bool, c: Store, v: View, tape: Tape)
    requires Tracked(e, guarded) && Covered(c, v) && MCheck(e, v).silent && e.kind.Switch?
    ensures Sound(guarded, |c|, Eval(e, c, tape), MCheck(e, v))
    decreases e, 0
  {
    var scrutinee, arms := e.kind.scrutinee, e.kind.arms;
    EvalSound(scrutinee, guarded, c, v, tape);
    var s, m := Eval(scrutinee, c, tape), MCheck(scrutinee, v);
    var (views, rest) := MArms(arms, m.view);
    var joined := rest.(view := JoinMany(m.view, views));
    ArmsAlike(arms, m.view);
    if |arms| > 0 {
      if s.exit.Done? {
        ArmSound(arms, guarded, s.store, m.view, s.tape);
        var r := EvalArm(arms, s.store, s.tape);
        if r.exit.Done? {
          var i :| 0 <= i < |views| && Covered(r.store, views[i]);
          JoinManyCovered(r.store, m.view, views, i);
        }
      }
      ThenSound(guarded, |c|, s, m, EvalArm(arms, s.store, s.tape), joined);
    } else {
      ThenSound(guarded, |c|, s, m, s, joined);
    }
  }

  lemma {:induction false} ArmSound(arms: seq<Expression>, guarded: bool, c: Store, v: View, tape: Tape)
    requires |arms| > 0 && (forall i :: 0 <= i < |arms| ==> Tracked(arms[i], guarded))
    requires Covered(c, v) && MArms(arms, v).1.silent
    ensures var r := EvalArm(arms, c, tape);
            var (views, rest) := MArms(arms, v);
            && (r.exit.Done? || r.exit.Raised? || r.exit.Cutoff?) && |r.store| == |c|
            && (r.exit.Done? ==> exists i :: 0 <= i < |views| && Covered(r.store, views[i]))
            && (guarded && r.exit.Raised? ==> CoveredBy(r.store, rest.throws))
    decreases arms, 0
  {
    var r := EvalArm(arms, c, tape);
    var (views, rest) := MArms(arms[1..], v);
    var first := MCheck(arms[0], v);
    assert MArms(arms, v).0 == [first.view] + views;
    assert MArms(arms, v).1.throws == first.throws + rest.throws;
    if |arms| > 1 && |tape| == 0 {
    } else if |arms| == 1 || tape[0] {
      var t := if |arms| == 1 then tape else tape[1..];
      EvalSound(arms[0], guarded, c, v, t);
      assert ([first.view] + views)[0] == first.view;
      if guarded && r.exit.Raised? {
        CoveredByLeft(r.store, first.throws, rest.throws);
      }
    } else {
      ArmSound(arms[1..], guarded, c, v, tape[1..]);
      if r.exit.Done? {
        var i :| 0 <= i < |views| && Covered(r.store, views[i]);
        assert ([first.view] + views)[i + 1] == views[i];
      }
      if guarded && r.exit.Raised? {
        CoveredByRight(r.store, first.throws, rest.throws);
      }
    }
  }

  lemma {:induction false} CallSound(e: Expression, guarded: bool, c: Store, v: View, tape: Tape)
    requires Tracked(e, guarded) && Covered(c, v) && MCheck(e, v).silent && e.kind.Call?
    ensures Sound(guarded, |c|, Eval(e, c, tape), MCheck(e, v))
    decreases e, 0
  {
    var receiver, arguments, throws := e.kind.receiver, e.kind.arguments, e.kind.throws;
    ReceiverSound(receiver, guarded, c, v, tape);
    var r, m := EvalReceiver(receiver, c, tape), MReceiver(receiver, v);
    if r.exit.Done? {
      ArgumentsSound(arguments, guarded, r.store, m.view, r.tape);
    }
    var a, n := EvalArguments(arguments, r.store, r.tape), MArguments(arguments, m.view);
    ThenSound(guarded, |c|, r, m, a, n);
    RaiseSound(guarded, |c|, if r.exit.Done? then a else r, MoveThen(m, n), throws, throws);
  }

  lemma MoveSound(e: Expression, guarded: bool, c: Store, v: View, tape: Tape)
    requires Tracked(e, guarded) && Covered(c, v) && MCheck(e, v).silent && e.kind.Move?
    ensures Sound(guarded, |c|, Eval(e, c, tape), MCheck(e, v))
  {
    var name := NameOf(e.kind.argument).value;
    CoveredLevel(c, v, name);
    if MarkOf(v, name).None? {
      NamedPlace(e.kind.argument, c, tape);
    } else {
      UseSound(name, guarded, c, v, tape);
      TakeOutSound(name, guarded, c, v, tape);
    }
  }

  lemma {:induction false} ConsumeSound(e: Expression, guarded: bool, c: Store, v: View, tape: Tape)
    requires Tracked(e, guarded) && Covered(c, v) && MCheck(e, v).silent && e.kind.Consume?
    ensures Sound(guarded, |c|, Eval(e, c, tape), MCheck(e, v))
    decreases e, 0
  {
    var consumed, throws := e.kind.consumed, e.kind.throws;
    var name := NameOf(consumed);
    if name.Some? {
      CoveredLevel(c, v, name.value);
    }
    if name.Some? && MarkOf(v, name.value).Some? {
      TakeOutSound(name.value, guarded, c, v, tape);
      RaiseSound(guarded, |c|, TakeOut(name.value, c, tape), MoveName(v, name.value), throws, throws);
    } else {
      EvalSound(consumed, guarded, c, v, tape);
      RaiseSound(guarded, |c|, Eval(consumed, c, tape), MCheck(consumed, v), throws, throws);
    }
  }

  lemma {:induction false} ElementsSound(
    elements: seq<Element>, recorded: bool, guarded: bool, c: Store, v: View, tape: Tape)
    requires forall i :: 0 <= i < |elements| ==>
               Tracked(elements[i].value, guarded) && (guarded && elements[i].adapted ==> recorded)
    requires Covered(c, v) && MElements(elements, recorded, v).silent
    ensures Sound(guarded, |c|, EvalElements(elements, c, tape), MElements(elements, recorded, v))
    decreases elements, 0
  {
    if |elements| > 0 {
      ElementSound(elements[0], recorded, guarded, c, v, tape);
      var r, m := EvalElement(elements[0], c, tape), MElement(elements[0], recorded, v);
      if r.exit.Done? {
        ElementsSound(elements[1..], recorded, guarded, r.store, m.view, r.tape);
      }
      ThenSound(
        guarded, |c|, r, m, EvalElements(elements[1..], r.store, r.tape), MElements(elements[1..], recorded, m.view));
    }
  }

  lemma {:induction false} ElementSound(
    element: Element, recorded: bool, guarded: bool, c: Store, v: View, tape: Tape)
    requires Tracked(element.value, guarded) && (guarded && element.adapted ==> recorded)
    requires Covered(c, v) && MElement(element, recorded, v).silent
    ensures Sound(guarded, |c|, EvalElement(element, c, tape), MElement(element, recorded, v))
    decreases element, 0
  {
    EvalSound(element.value, guarded, c, v, tape);
    RaiseSound(
      guarded, |c|, Eval(element.value, c, tape), MCheck(element.value, v), element.adapted,
      recorded && element.adapted);
  }

  lemma {:induction false} ReceiverSound(receiver: Option<Receiver>, guarded: bool, c: Store, v: View, tape: Tape)
    requires receiver.Some? ==> Tracked(receiver.value.value, guarded)
    requires Covered(c, v) && MReceiver(receiver, v).silent
    ensures Sound(guarded, |c|, EvalReceiver(receiver, c, tape), MReceiver(receiver, v))
    decreases receiver, 0
  {
    if receiver.Some? {
      EvalSound(receiver.value.value, guarded, c, v, tape);
    }
  }

  lemma {:induction false} ArgumentsSound(arguments: seq<Argument>, guarded: bool, c: Store, v: View, tape: Tape)
    requires forall i :: 0 <= i < |arguments| ==> Tracked(arguments[i].value, guarded)
    requires Covered(c, v) && MArguments(arguments, v).silent
    ensures Sound(guarded, |c|, EvalArguments(arguments, c, tape), MArguments(arguments, v))
    decreases arguments, 0
  {
    if |arguments| > 0 {
      ArgumentSound(arguments[0], guarded, c, v, tape);
      var r, m := EvalArgument(arguments[0], c, tape), MArgument(arguments[0], v);
      if r.exit.Done? {
        ArgumentsSound(arguments[1..], guarded, r.store, m.view, r.tape);
      }
      ThenSound(guarded, |c|, r, m, EvalArguments(arguments[1..], r.store, r.tape), MArguments(arguments[1..], m.view));
    }
  }

  lemma {:induction false} ArgumentSound(argument: Argument, guarded: bool, c: Store, v: View, tape: Tape)
    requires Tracked(argument.value, guarded) && Covered(c, v) && MArgument(argument, v).silent
    ensures Sound(guarded, |c|, EvalArgument(argument, c, tape), MArgument(argument, v))
    decreases argument, 0
  {
    EvalSound(argument.value, guarded, c, v, tape);
  }

  lemma OptionalSound(e: Option<Expression>, guarded: bool, c: Store, v: View, tape: Tape)
    requires TrackedOptional(e, guarded) && Covered(c, v) && MOptional(e, v).silent
    ensures Sound(guarded, |c|, EvalOptional(e, c, tape), MOptional(e, v))
  {
    if e.Some? {
      EvalSound(e.value, guarded, c, v, tape);
    }
  }

  // ----- statements -----

  ghost predicate Safe(guarded: bool, depth: int, r: Run, o: MoveOutcome) {
    && !r.exit.Fault?
    && |r.store| >= depth
    && (r.exit.Done? ==> o.reachable && |r.store| == depth && Covered(r.store, o.view))
    && (r.exit.Broke? ==> CoveredBy(r.store, o.breaks))
    && (r.exit.Continued? ==> CoveredBy(r.store, o.continues))
    && (guarded && r.exit.Raised? ==> CoveredBy(r.store, o.throws))
  }

  lemma SafeStraight(guarded: bool, depth: int, r: Run, m: MoveChecked)
    requires Sound(guarded, depth, r, m)
    ensures Safe(guarded, depth, r, MStraight(m))
  {
  }

  /** Exits of one part are exits of the whole. */
  lemma SafeFirst(guarded: bool, depth: int, r: Run, o: MoveOutcome, p: MoveOutcome)
    requires Safe(guarded, depth, r, o) && !r.exit.Done?
    ensures Safe(guarded, depth, r, MAfter(o, p))
  {
    if r.exit.Broke? {
      CoveredByLeft(r.store, o.breaks, p.breaks);
    } else if r.exit.Continued? {
      CoveredByLeft(r.store, o.continues, p.continues);
    } else if guarded && r.exit.Raised? {
      CoveredByLeft(r.store, o.throws, p.throws);
    }
  }

  lemma SafeSecond(guarded: bool, depth: int, r: Run, o: MoveOutcome, p: MoveOutcome)
    requires Safe(guarded, depth, r, p)
    ensures Safe(guarded, depth, r, MAfter(o, p))
  {
    if r.exit.Broke? {
      CoveredByRight(r.store, o.breaks, p.breaks);
    } else if r.exit.Continued? {
      CoveredByRight(r.store, o.continues, p.continues);
    } else if guarded && r.exit.Raised? {
      CoveredByRight(r.store, o.throws, p.throws);
    }
  }

  lemma SafeAfter(guarded: bool, depth: int, r: Run, o: MoveOutcome, s: Run, p: MoveOutcome)
    requires Safe(guarded, depth, r, o) && (r.exit.Done? ==> Safe(guarded, depth, s, p))
    ensures Safe(guarded, depth, if r.exit.Done? then s else r, MAfter(o, p))
  {
    if r.exit.Done? {
      SafeSecond(guarded, depth, s, o, p);
    } else {
      SafeFirst(guarded, depth, r, o, p);
    }
  }

  lemma SafeLeft(guarded: bool, depth: nat, r: Run, o: MoveOutcome)
    requires Safe(guarded, depth + 1, r, o)
    ensures Safe(guarded, depth, Leaving(r, depth), MCloseLoop(o))
    ensures |Leaving(r, depth).store| == depth
  {
    if r.exit.Broke? {
      CutCoveredBy(r.store, o.breaks, depth);
    } else if r.exit.Continued? {
      CutCoveredBy(r.store, o.continues, depth);
    } else if guarded && r.exit.Raised? {
      CutCoveredBy(r.store, o.throws, depth);
    }
  }

  lemma {:induction false} ListSound(ss: seq<OwnStatement>, refs: bool, guarded: bool, c: Store, v: View, tape: Tape)
    requires forall i :: 0 <= i < |ss| ==> TrackedStatement(ss[i], guarded) && Resolved(ss[i])
    requires |c| > 0 && Covered(c, v) && MList(ss, refs, v).silent
    ensures Safe(guarded, |c|, ExecList(ss, refs, c, tape), MList(ss, refs, v))
    decreases ss, 0, |tape|
  {
    if |ss| > 0 {
      var r, o := Exec(ss[0], refs, c, tape), MAnalyze(ss[0], refs, v);
      ExecSound(ss[0], refs, guarded, c, v, tape);
      if o.reachable {
        if r.exit.Done? {
          ListSound(ss[1..], refs, guarded, r.store, o.view, r.tape);
        }
        SafeAfter(guarded, |c|, r, o, ExecList(ss[1..], refs, r.store, r.tape), MList(ss[1..], refs, o.view));
      }
    }
  }

  lemma {:induction false} BlockSound(b: OwnBlock, refs: bool, guarded: bool, c: Store, v: View, tape: Tape)
    requires TrackedBlock(b, guarded) && Covered(c, v) && MBlock(b, refs, v).silent
    requires ResolvedBlock(b)
    ensures Safe(guarded, |c|, ExecBlock(b, refs, c, tape), MBlock(b, refs, v))
    ensures |ExecBlock(b, refs, c, tape).store| == |c|
    decreases b, 0, |tape|
  {
    EnterCovered(c, v);
    ListSound(b.statements, refs, guarded, Enter(c), Enter(v), tape);
    SafeLeft(guarded, |c|, ExecList(b.statements, refs, Enter(c), tape), MList(b.statements, refs, Enter(v)));
  }

  lemma {:induction false} BranchSound(s: OwnStatement, refs: bool, guarded: bool, c: Store, v: View, tape: Tape)
    requires TrackedStatement(s, guarded) && Covered(c, v) && MBranch(s, refs, v).silent
    requires Resolved(s)
    ensures Safe(guarded, |c|, ExecBranch(s, refs, c, tape), MBranch(s, refs, v))
    decreases s, 3, |tape|
  {
    EnterCovered(c, v);
    ExecSound(s, refs, guarded, Enter(c), Enter(v), tape);
    SafeLeft(guarded, |c|, Exec(s, refs, Enter(c), tape), MAnalyze(s, refs, Enter(v)));
  }

  lemma LocalSound(local: LocalDeclaration<Expression>, guarded: bool, c: Store, v: View, tape: Tape)
    requires TrackedOptional(local.initializer, guarded) && ResolvedLocal(local)
    requires Covered(c, v) && MLocal(local, v).silent
    ensures Safe(guarded, |c|, ExecLocal(local, c, tape), MLocal(local, v))
  {
    var recorded :=
      !BorrowsInitializer(local.ty) && if local.initializer.Some? then local.adapted else local.implicitCall.throws;
    OptionalSound(local.initializer, guarded, c, v, tape);
    var r, m := EvalOptional(local.initializer, c, tape), MOptional(local.initializer, v);
    var raises := if local.initializer.Some? then local.adapted else local.implicitCall.throws;
    RaiseSound(guarded, |c|, r, m, raises, recorded);
    var s := MayRaise(raises, r);
    if s.exit.Done? {
      BringCovered(s.store, m.view, local.name, local.ty);
    }
  }

  lemma ReturnSound(value: Option<Expression>, refs: bool, guarded: bool, c: Store, v: View, tape: Tape)
    requires TrackedOptional(value, guarded) && Covered(c, v) && MReturn(value, refs, v).silent
    ensures Safe(guarded, |c|, ExecReturn(value, refs, c, tape), MReturn(value, refs, v))
  {
    if value.Some? {
      if NameOf(value.value).Some? {
        CoveredLevel(c, v, NameOf(value.value).value);
      }
      if MReturnMoves(value.value, refs, v) {
        TakeOutSound(NameOf(value.value).value, guarded, c, v, tape);
      } else {
        EvalSound(value.value, guarded, c, v, tape);
      }
    }
  }

  lemma ThrowSound(error: Option<Expression>, guarded: bool, c: Store, v: View, tape: Tape)
    requires TrackedOptional(error, guarded) && Covered(c, v) && MThrow(error, v).silent
    ensures Safe(guarded, |c|, ExecThrow(error, c, tape), MThrow(error, v))
  {
    OptionalSound(error, guarded, c, v, tape);
    var r, m := EvalOptional(error, c, tape), MOptional(error, v);
    RaiseSound(guarded, |c|, r, m, false, true);
    if r.exit.Done? {
      assert (m.throws + [m.view])[|m.throws|] == m.view;
      CoveredByAt(r.store, m.throws + [m.view], |m.throws|);
    }
  }

  lemma ExpressionSound(e: Expression, guarded: bool, c: Store, v: View, tape: Tape)
    requires Tracked(e, guarded) && Covered(c, v) && MCheck(e, v).silent
    ensures Safe(guarded, |c|, Eval(e, c, tape), MStraight(MCheck(e, v)))
  {
    EvalSound(e, guarded, c, v, tape);
    SafeStraight(guarded, |c|, Eval(e, c, tape), MCheck(e, v));
  }

  lemma NothingSound(guarded: bool, c: Store, v: View, tape: Tape)
    requires Covered(c, v)
    ensures Safe(guarded, |c|, Run(c, Done, tape), MNothing(v)) && CoveredBy(c, [v])
  {
    CoveredByAt(c, [v], 0);
  }

  lemma {:induction false} ExecSound(s: OwnStatement, refs: bool, guarded: bool, c: Store, v: View, tape: Tape)
    requires TrackedStatement(s, guarded) && |c| > 0 && Covered(c, v) && MAnalyze(s, refs, v).silent
    requires Resolved(s)
    ensures Safe(guarded, |c|, Exec(s, refs, c, tape), MAnalyze(s, refs, v))
    decreases s, 2, |tape|
  {
    if s.kind.BlockStatement? || s.kind.Try? || s.kind.If? {
      BranchingSound(s, refs, guarded, c, v, tape);
    } else if s.kind.While? || s.kind.For? {
      RepeatingSound(s, refs, guarded, c, v, tape);
    } else {
      PlainSound(s, refs, guarded, c, v, tape);
    }
  }

  lemma {:induction false} BranchingSound(
    s: OwnStatement, refs: bool, guarded: bool, c: Store, v: View, tape: Tape)
    requires TrackedStatement(s, guarded) && |c| > 0 && Covered(c, v) && MAnalyze(s, refs, v).silent
    requires Resolved(s)
    requires s.kind.BlockStatement? || s.kind.Try? || s.kind.If?
    ensures Safe(guarded, |c|, Exec(s, refs, c, tape), MAnalyze(s, refs, v))
    decreases s, 1, |tape|, 1
  {
    if s.kind.BlockStatement? {
      BlockSound(s.kind.block, refs, guarded, c, v, tape);
    } else if s.kind.Try? {
      TrySound(s, refs, guarded, c, v, tape);
    } else {
      IfSound(s, refs, guarded, c, v, tape);
    }
  }

  lemma {:induction false} RepeatingSound(
    s: OwnStatement, refs: bool, guarded: bool, c: Store, v: View, tape: Tape)
    requires TrackedStatement(s, guarded) && |c| > 0 && Covered(c, v) && MAnalyze(s, refs, v).silent
    requires Resolved(s)
    requires s.kind.While? || s.kind.For?
    ensures Safe(guarded, |c|, Exec(s, refs, c, tape), MAnalyze(s, refs, v))
    decreases s, 1, |tape|, 1
  {
    if s.kind.While? {
      WhileStatementSound(s, refs, guarded, c, v, tape);
    } else {
      ForSound(s, refs, guarded, c, v, tape);
    }
  }

  lemma PlainSound(s: OwnStatement, refs: bool, guarded: bool, c: Store, v: View, tape: Tape)
    requires TrackedStatement(s, guarded) && Covered(c, v) && MAnalyze(s, refs, v).silent
    requires Resolved(s)
    requires s.kind.Local? || s.kind.Return? || s.kind.Throw? || s.kind.Break? || s.kind.Continue?
          || s.kind.Expression? || s.kind.Empty?
    ensures Safe(guarded, |c|, Exec(s, refs, c, tape), MAnalyze(s, refs, v))
  {
    if s.kind.Local? {
      LocalSound(s.kind.local, guarded, c, v, tape);
    } else if s.kind.Return? {
      ReturnSound(s.kind.value, refs, guarded, c, v, tape);
    } else if s.kind.Throw? {
      ThrowSound(s.kind.error, guarded, c, v, tape);
    } else if s.kind.Expression? {
      ExpressionSound(s.kind.expression, guarded, c, v, tape);
    } else {
      NothingSound(guarded, c, v, tape);
    }
  }

  lemma IfJoined(guarded: bool, depth: int, r: Run, base: View, t: MoveOutcome, e: MoveOutcome)
    requires Safe(guarded, depth, r, t) || Safe(guarded, depth, r, e)
    requires Alike(base, t.view) && Alike(base, e.view)
    ensures Safe(guarded, depth, r, MJoinBranches(base, t, e))
  {
    if Safe(guarded, depth, r, t) {
      if !r.exit.Done? {
        SafeFirst(guarded, depth, r, t, e);
      } else if e.reachable {
        JoinCovered(r.store, base, t.view, e.view);
      }
    } else {
      if !r.exit.Done? {
        SafeSecond(guarded, depth, r, t, e);
      } else if t.reachable {
        JoinCovered(r.store, base, t.view, e.view);
      }
    }
  }

  lemma {:induction false} IfSound(s: OwnStatement, refs: bool, guarded: bool, c: Store, v: View, tape: Tape)
    requires s.kind.If? && TrackedStatement(s, guarded) && |c| > 0 && Covered(c, v) && MIf(s, refs, v).silent
    requires Resolved(s)
    ensures Safe(guarded, |c|, ExecIf(s, refs, c, tape), MIf(s, refs, v))
    decreases s, 1, |tape|, 0
  {
    var r, m := Eval(s.kind.condition, c, tape), MCheck(s.kind.condition, v);
    ExpressionSound(s.kind.condition, guarded, c, v, tape);
    if r.exit.Done? {
      BranchesSound(s, refs, guarded, r.store, m.view, r.tape);
    }
    SafeAfter(guarded, |c|, r, MStraight(m), ExecBranches(s, refs, r.store, r.tape), MBranches(s, refs, m.view));
  }

  lemma BranchesAlike(s: OwnStatement, refs: bool, v: View)
    requires s.kind.If? && |v| > 0
    ensures Alike(v, MBranch(s.kind.thenBranch, refs, v).view)
    ensures s.kind.elseBranch.Some? ==> Alike(v, MBranch(s.kind.elseBranch.value, refs, v).view)
  {
    BranchDeep(s.kind.thenBranch, refs, v);
    if s.kind.elseBranch.Some? {
      BranchDeep(s.kind.elseBranch.value, refs, v);
    }
  }

  lemma CutoffSafe(guarded: bool, c: Store, tape: Tape, o: MoveOutcome)
    ensures Safe(guarded, |c|, Run(c, Cutoff, tape), o)
  {
  }

  lemma {:induction false} BranchesSound(s: OwnStatement, refs: bool, guarded: bool, c: Store, v: View, tape: Tape)
    requires s.kind.If? && TrackedStatement(s, guarded) && |c| > 0 && Covered(c, v) && MBranches(s, refs, v).silent
    requires Resolved(s)
    ensures Safe(guarded, |c|, ExecBranches(s, refs, c, tape), MBranches(s, refs, v))
    decreases s, 0, |tape|, 1
  {
    BranchesAlike(s, refs, v);
    TakenSound(s, refs, guarded, c, v, tape);
    IfJoined(
      guarded, |c|, ExecBranches(s, refs, c, tape), v, MBranch(s.kind.thenBranch, refs, v), MElse(s, refs, v));
  }

  function MElse(s: OwnStatement, refs: bool, v: View): MoveOutcome
    requires s.kind.If?
  {
    if s.kind.elseBranch.Some? then MBranch(s.kind.elseBranch.value, refs, v) else MNothing(v)
  }

  /** The branch that is taken, or the way past the `if`. */
  lemma {:induction false} TakenSound(s: OwnStatement, refs: bool, guarded: bool, c: Store, v: View, tape: Tape)
    requires s.kind.If? && TrackedStatement(s, guarded) && |c| > 0 && Covered(c, v)
    requires Resolved(s)
    requires MBranch(s.kind.thenBranch, refs, v).silent && MElse(s, refs, v).silent
    ensures var r := ExecBranches(s, refs, c, tape);
            Safe(guarded, |c|, r, MBranch(s.kind.thenBranch, refs, v)) || Safe(guarded, |c|, r, MElse(s, refs, v))
    decreases s, 0, |tape|, 0
  {
    if |tape| == 0 {
      CutoffSafe(guarded, c, tape, MElse(s, refs, v));
    } else if tape[0] {
      BranchSound(s.kind.thenBranch, refs, guarded, c, v, tape[1..]);
    } else if s.kind.elseBranch.Some? {
      BranchSound(s.kind.elseBranch.value, refs, guarded, c, v, tape[1..]);
    } else {
      NothingSound(guarded, c, v, tape[1..]);
    }
  }

  /** The store an error leaves a guarded block with is in the view the handlers start from. */
  lemma BaselineCovered(c: Store, v: View, throws: seq<View>)
    requires |c| == |v| && AllDeep(Enter(v), throws) && CoveredBy(c, throws)
    ensures Covered(c, MCatchBaseline(v, throws)) && Alike(v, MCatchBaseline(v, throws))
  {
    CutAllAlike(v, throws);
    CoveredByCut(c, throws);
    var i :| 0 <= i < |throws| && Covered(c, CutAll(throws, |v|)[i]);
    JoinManyCovered(c, v, CutAll(throws, |v|), i);
    JoinManyAlike(v, v, CutAll(throws, |v|));
  }

  /** What a run of the handlers may be, the error having been raised in one of the states `before`. */
  ghost predicate CatchesSafe(guarded: bool, depth: int, r: Run, before: seq<View>, views: seq<View>, h: MoveOutcome) {
    && !r.exit.Fault? && |r.store| == depth
    && (r.exit.Done? ==> exists i :: 0 <= i < |views| && Covered(r.store, views[i]))
    && (r.exit.Broke? ==> CoveredBy(r.store, h.breaks))
    && (r.exit.Continued? ==> CoveredBy(r.store, h.continues))
    && (guarded && r.exit.Raised? ==> CoveredBy(r.store, before + h.throws))
  }

  /** A run that ends in a handler, or with an error no handler takes. */
  lemma CaughtSafe(
    guarded: bool, depth: int, r: Run, v: View, g: MoveOutcome, views: seq<View>, h: MoveOutcome)
    requires CatchesSafe(guarded, depth, r, g.throws, views, h) && Alike(v, g.view) && AllAlike(v, views)
    ensures Safe(guarded, depth, r, MTryEnd(v, g, views, h))
  {
    var ends := (if g.reachable then [g.view] else []) + views;
    if r.exit.Done? {
      var i :| 0 <= i < |views| && Covered(r.store, views[i]);
      var k := (if g.reachable then 1 else 0) + i;
      assert ends[k] == views[i];
      JoinManyCovered(r.store, v, ends, k);
    } else if r.exit.Broke? {
      CoveredByRight(r.store, g.breaks, h.breaks);
    } else if r.exit.Continued? {
      CoveredByRight(r.store, g.continues, h.continues);
    }
  }

  /** A run that does not raise in the guarded block. */
  lemma UncaughtSafe(
    guarded: bool, depth: int, r: Run, v: View, g: MoveOutcome, views: seq<View>, h: MoveOutcome)
    requires Safe(true, depth, r, g) && !r.exit.Raised? && Alike(v, g.view) && AllAlike(v, views)
    ensures Safe(guarded, depth, r, MTryEnd(v, g, views, h))
  {
    var ends := (if g.reachable then [g.view] else []) + views;
    if r.exit.Done? {
      assert ends[0] == g.view;
      JoinManyCovered(r.store, v, ends, 0);
    } else {
      SafeFirst(guarded, depth, r, g, h);
    }
  }

  lemma {:induction false} TrySound(s: OwnStatement, refs: bool, guarded: bool, c: Store, v: View, tape: Tape)
    requires s.kind.Try? && TrackedStatement(s, guarded) && |c| > 0 && Covered(c, v) && MTry(s, refs, v).silent
    requires Resolved(s)
    ensures Safe(guarded, |c|, ExecTry(s, refs, c, tape), MTry(s, refs, v))
    decreases s, 1, |tape|, 0
  {
    var block, catches := s.kind.guarded, s.kind.catches;
    var g := MBlock(block, refs, v);
    var baseline := MCatchBaseline(v, g.throws);
    var (views, h) := MCatches(catches, refs, baseline);
    BlockSound(block, refs, true, c, v, tape);
    var r := ExecBlock(block, refs, c, tape);
    TryAlike(s, refs, v);
    if r.exit.Raised? {
      BaselineCovered(r.store, v, g.throws);
      CatchesSound(catches, refs, guarded, r.store, baseline, g.throws, r.tape);
      CaughtSafe(guarded, |c|, ExecCatches(catches, refs, r.store, r.tape), v, g, views, h);
    } else {
      UncaughtSafe(guarded, |c|, r, v, g, views, h);
    }
  }

  /** The views a `try` joins have the same names. */
  lemma TryAlike(s: OwnStatement, refs: bool, v: View)
    requires s.kind.Try? && |v| > 0
    ensures var g := MBlock(s.kind.guarded, refs, v);
            && Alike(v, g.view) && AllDeep(Enter(v), g.throws)
            && AllAlike(v, MCatches(s.kind.catches, refs, MCatchBaseline(v, g.throws)).0)
  {
    var g := MBlock(s.kind.guarded, refs, v);
    BlockDeep(s.kind.guarded, refs, v);
    GuardedThrows(s.kind.guarded, refs, v);
    BaselineDeep(v, g.throws);
    CatchesDeep(s.kind.catches, refs, MCatchBaseline(v, g.throws));
  }

  /** `before`: the states in which the error may have been raised. */
  lemma {:induction false} CatchesSound(
    catches: seq<OwnCatch>, refs: bool, guarded: bool, c: Store, v: View, before: seq<View>, tape: Tape)
    requires forall i :: 0 <= i < |catches| ==> TrackedHandler(catches[i], guarded) && ResolvedHandler(catches[i])
    requires |c| > 0 && Covered(c, v) && MCatches(catches, refs, v).1.silent && CoveredBy(c, before)
    ensures CatchesSafe(
              guarded, |c|, ExecCatches(catches, refs, c, tape), before,
              MCatches(catches, refs, v).0, MCatches(catches, refs, v).1)
    decreases catches, 0, |tape|
  {
    if |catches| == 0 {
      CoveredByLeft(c, before, []);
    } else if |tape| > 0 {
      var first := MHandler(catches[0], refs, v);
      var (views, rest) := MCatches(catches[1..], refs, v);
      if tape[0] {
        HandlerSound(catches[0], refs, guarded, c, v, tape[1..]);
        HandlerTaken(guarded, |c|, ExecHandler(catches[0], refs, c, tape[1..]), before, first, views, rest);
      } else {
        CatchesSound(catches[1..], refs, guarded, c, v, before, tape[1..]);
        HandlerPassed(guarded, |c|, ExecCatches(catches[1..], refs, c, tape[1..]), before, first, views, rest);
      }
    }
  }

  lemma HandlerTaken(
    guarded: bool, depth: int, r: Run, before: seq<View>, first: MoveOutcome, views: seq<View>, rest: MoveOutcome)
    requires Safe(guarded, depth, r, first) && |r.store| == depth
    ensures CatchesSafe(
              guarded, depth, r, before, (if first.reachable then [first.view] else []) + views, MAfter(first, rest))
  {
    if r.exit.Done? {
      assert ((if first.reachable then [first.view] else []) + views)[0] == first.view;
    } else {
      SafeFirst(guarded, depth, r, first, rest);
      if guarded && r.exit.Raised? {
        CoveredByRight(r.store, before, first.throws + rest.throws);
      }
    }
  }

  lemma HandlerPassed(
    guarded: bool, depth: int, r: Run, before: seq<View>, first: MoveOutcome, views: seq<View>, rest: MoveOutcome)
    requires CatchesSafe(guarded, depth, r, before, views, rest)
    ensures CatchesSafe(
              guarded, depth, r, before, (if first.reachable then [first.view] else []) + views, MAfter(first, rest))
  {
    var here := if first.reachable then [first.view] else [];
    if r.exit.Done? {
      var i :| 0 <= i < |views| && Covered(r.store, views[i]);
      assert (here + views)[|here| + i] == views[i];
    } else if r.exit.Broke? {
      CoveredByRight(r.store, first.breaks, rest.breaks);
    } else if r.exit.Continued? {
      CoveredByRight(r.store, first.continues, rest.continues);
    } else if guarded && r.exit.Raised? {
      CoveredByMiddle(r.store, before, first.throws, rest.throws);
    }
  }

  lemma CoveredByMiddle(c: Store, a: seq<View>, b: seq<View>, d: seq<View>)
    requires CoveredBy(c, a + d)
    ensures CoveredBy(c, a + (b + d))
  {
    var i :| 0 <= i < |a + d| && |c| <= |(a + d)[i]| && Covered(c, (a + d)[i][..|c|]);
    var k := if i < |a| then i else i + |b|;
    assert (a + (b + d))[k] == (a + d)[i];
  }

  lemma {:induction false} HandlerSound(
    clause: OwnCatch, refs: bool, guarded: bool, c: Store, v: View, tape: Tape)
    requires TrackedHandler(clause, guarded) && Covered(c, v) && MHandler(clause, refs, v).silent
    requires ResolvedHandler(clause)
    ensures Safe(guarded, |c|, ExecHandler(clause, refs, c, tape), MHandler(clause, refs, v))
    ensures |ExecHandler(clause, refs, c, tape).store| == |c|
    decreases clause, 0, |tape|
  {
    EnterCovered(c, v);
    if clause.binding.Some? {
      BringCovered(Enter(c), Enter(v), clause.binding.value.name, clause.binding.value.ty);
    }
    var d, w := BringCaught(clause.binding, Enter(c)), MDeclareCatch(clause.binding, Enter(v));
    BodySound(clause.body, refs, guarded, d, w, tape);
    SafeLeft(guarded, |c|, ExecBody(clause.body, refs, d, tape), MBody(clause.body, refs, w));
  }

  lemma {:induction false} BodySound(b: OwnBlock, refs: bool, guarded: bool, c: Store, v: View, tape: Tape)
    requires TrackedBlock(b, guarded) && |c| > 0 && Covered(c, v) && MBody(b, refs, v).silent
    requires ResolvedBlock(b)
    ensures Safe(guarded, |c|, ExecBody(b, refs, c, tape), MBody(b, refs, v))
    decreases b, 0, |tape|
  {
    ListSound(b.statements, refs, guarded, c, v, tape);
  }

  // ----- loops -----

  lemma {:induction false} BringRangeCovered(bindings: seq<RangeBinding>, c: Store, v: View)
    requires Covered(c, v)
    ensures Covered(BringRange(bindings, c), MDeclareRange(bindings, v)) && |BringRange(bindings, c)| == |c|
    decreases |bindings|
  {
    if |bindings| > 0 {
      var b := bindings[0];
      BringCovered(c, v, b.name, b.ty);
      BringRangeCovered(bindings[1..], Bring(c, b.name, b.ty), Introduce(v, b.name, b.ty));
    }
  }

  /** The end of an iteration, from one of the states that reach it. */
  lemma {:induction false} TailsAt(update: Option<Expression>, condition: Option<Expression>, vs: seq<View>, i: nat)
    requires i < |vs|
    ensures var (ends, throws, silent) := MTails(update, condition, vs);
            var t := MTail(update, condition, vs[i]);
            && ends[i] == t.view && (silent ==> t.silent)
            && forall c :: CoveredBy(c, t.throws) ==> CoveredBy(c, throws)
    decreases |vs|
  {
    var first := MTail(update, condition, vs[0]);
    var (ends, throws, _) := MTails(update, condition, vs[1..]);
    if i > 0 {
      TailsAt(update, condition, vs[1..], i - 1);
      forall c | CoveredBy(c, throws)
        ensures CoveredBy(c, first.throws + throws)
      {
        CoveredByRight(c, first.throws, throws);
      }
    } else {
      forall c | CoveredBy(c, first.throws)
        ensures CoveredBy(c, first.throws + throws)
      {
        CoveredByLeft(c, first.throws, throws);
      }
    }
  }

  lemma TailSound(
    update: Option<Expression>, condition: Option<Expression>, guarded: bool, c: Store, v: View, tape: Tape)
    requires TrackedOptional(update, guarded) && TrackedOptional(condition, guarded)
    requires Covered(c, v) && MTail(update, condition, v).silent
    ensures Sound(guarded, |c|, EvalTail(update, condition, c, tape), MTail(update, condition, v))
  {
    OptionalSound(update, guarded, c, v, tape);
    var u, m := EvalOptional(update, c, tape), MOptional(update, v);
    if u.exit.Done? {
      OptionalSound(condition, guarded, u.store, m.view, u.tape);
    }
    ThenSound(guarded, |c|, u, m, EvalOptional(condition, u.store, u.tape), MOptional(condition, m.view));
  }

  ghost predicate RoundSafe(guarded: bool, depth: int, r: Run, i: MoveIteration) {
    && !r.exit.Fault? && !r.exit.Continued? && |r.store| == depth
    && (r.exit.Done? ==> i.next.Some? && Covered(r.store, i.next.value))
    && (r.exit.Broke? ==> exists k :: 0 <= k < |i.breaks| && Covered(r.store, i.breaks[k]))
    && (guarded && r.exit.Raised? ==> CoveredBy(r.store, i.throws))
  }

  /** From one of the states `vs` through update and condition to the next iteration. */
  lemma TailsSound(
    update: Option<Expression>, condition: Option<Expression>, guarded: bool, c: Store, v: View, vs: seq<View>, k: nat,
    tape: Tape)
    requires TrackedOptional(update, guarded) && TrackedOptional(condition, guarded)
    requires AllAlike(v, vs) && k < |vs| && Covered(c, vs[k]) && MTails(update, condition, vs).2
    ensures var r := EvalTail(update, condition, c, tape);
            var (ends, throws, _) := MTails(update, condition, vs);
            && (r.exit.Done? || r.exit.Raised? || r.exit.Cutoff?) && |r.store| == |c|
            && (r.exit.Done? ==> Covered(r.store, JoinMany(vs[0], ends)))
            && (guarded && r.exit.Raised? ==> CoveredBy(r.store, throws))
  {
    TailsAt(update, condition, vs, k);
    TailSound(update, condition, guarded, c, vs[k], tape);
    TailsAlike(update, condition, v, vs);
    var r := EvalTail(update, condition, c, tape);
    var ends := MTails(update, condition, vs).0;
    if r.exit.Done? {
      assert AllAlike(vs[0], ends);
      JoinManyCovered(r.store, vs[0], ends, k);
    }
  }

  /** A round that reaches the end of the body, from where its body left. */
  lemma RoundGoesOn(
    update: Option<Expression>, condition: Option<Expression>, guarded: bool, v: View, o: MoveOutcome, b: Run)
    requires TrackedOptional(update, guarded) && TrackedOptional(condition, guarded)
    requires |b.store| == |v| && Safe(guarded, |v|, b, MCloseLoop(o)) && (b.exit.Done? || b.exit.Continued?)
    requires AllAlike(v, MTailViews(o, |v|)) && MTails(update, condition, MTailViews(o, |v|)).2
    ensures var r := EvalTail(update, condition, b.store, b.tape);
            var vs := MTailViews(o, |v|);
            var (ends, throws, _) := MTails(update, condition, vs);
            && |vs| > 0 && (r.exit.Done? || r.exit.Raised? || r.exit.Cutoff?) && |r.store| == |v|
            && (r.exit.Done? ==> Covered(r.store, JoinMany(vs[0], ends)))
            && (guarded && r.exit.Raised? ==> CoveredBy(r.store, o.throws + throws))
  {
    var vs := MTailViews(o, |v|);
    var k := TailStart(guarded, v, o, b);
    TailsSound(update, condition, guarded, b.store, v, vs, k, b.tape);
    var r := EvalTail(update, condition, b.store, b.tape);
    if guarded && r.exit.Raised? {
      CoveredByRight(r.store, o.throws, MTails(update, condition, vs).1);
    }
  }

  /** The view among those that reach the tail in which the store is. */
  lemma TailStart(guarded: bool, v: View, o: MoveOutcome, b: Run) returns (k: nat)
    requires |b.store| == |v| && Safe(guarded, |v|, b, MCloseLoop(o)) && (b.exit.Done? || b.exit.Continued?)
    ensures k < |MTailViews(o, |v|)| && Covered(b.store, MTailViews(o, |v|)[k])
  {
    var vs := MTailViews(o, |v|);
    if b.exit.Done? {
      k := 0;
      assert vs[0] == Leave(o.view);
    } else {
      CoveredByCut(b.store, o.continues);
      var i :| 0 <= i < |o.continues| && Covered(b.store, CutAll(o.continues, |v|)[i]);
      k := (if o.reachable then 1 else 0) + i;
      assert vs[k] == CutAll(o.continues, |v|)[i];
    }
  }

  /** A round that its body leaves. */
  lemma RoundEnds(guarded: bool, v: View, o: MoveOutcome, b: Run, throws: seq<View>)
    requires |b.store| == |v| && Safe(guarded, |v|, b, MCloseLoop(o)) && !b.exit.Done?
    ensures b.exit.Broke? ==> exists k :: 0 <= k < |o.breaks| && Covered(b.store, CutAll(o.breaks, |v|)[k])
    ensures guarded && b.exit.Raised? ==> CoveredBy(b.store, o.throws) && CoveredBy(b.store, o.throws + throws)
  {
    if b.exit.Broke? {
      CoveredByCut(b.store, o.breaks);
    } else if guarded && b.exit.Raised? {
      CoveredByLeft(b.store, o.throws, throws);
    }
  }

  lemma {:induction false} RoundSound(
    bindings: seq<RangeBinding>, body: OwnStatement, update: Option<Expression>, condition: Option<Expression>,
    refs: bool, guarded: bool, c: Store, v: View, tape: Tape)
    requires TrackedStatement(body, guarded) && TrackedOptional(update, guarded) && TrackedOptional(condition, guarded)
    requires Resolved(body)
    requires |c| > 0 && Covered(c, v) && MIterate(bindings, body, update, condition, refs, v).silent
    ensures RoundSafe(
              guarded, |c|, ExecRound(bindings, body, update, condition, refs, c, tape),
              MIterate(bindings, body, update, condition, refs, v))
    decreases body, 3, |tape|, 0
  {
    EnterCovered(c, v);
    BringRangeCovered(bindings, Enter(c), Enter(v));
    var d, w := BringRange(bindings, Enter(c)), MDeclareRange(bindings, Enter(v));
    ExecSound(body, refs, guarded, d, w, tape);
    IterationLeft(bindings, body, refs, v);
    RoundEndSound(update, condition, guarded, v, MAnalyze(body, refs, w), Exec(body, refs, d, tape));
  }

  lemma RoundEndSound(
    update: Option<Expression>, condition: Option<Expression>, guarded: bool, v: View, o: MoveOutcome, r: Run)
    requires TrackedOptional(update, guarded) && TrackedOptional(condition, guarded)
    requires Safe(guarded, |v| + 1, r, o) && AllAlike(v, MTailViews(o, |v|))
    requires MIterationEnd(o, update, condition, |v|).silent
    ensures RoundSafe(guarded, |v|, RoundEnd(r, update, condition, |v|), MIterationEnd(o, update, condition, |v|))
  {
    SafeLeft(guarded, |v|, r, o);
    var b := Leaving(r, |v|);
    if b.exit.Done? || b.exit.Continued? {
      RoundGoesOn(update, condition, guarded, v, o, b);
    } else {
      RoundEnds(guarded, v, o, b, MTails(update, condition, MTailViews(o, |v|)).1);
    }
  }

  /** Every view a loop may be left with, and a store in one of them. */
  lemma ExitCovered(c: Store, v: View, first: MoveIteration, second: MoveIteration, at: View)
    requires AllAlike(v, MExits(v, first, second)) && Covered(c, at) && at in MExits(v, first, second)
    ensures Covered(c, JoinMany(v, MExits(v, first, second)))
  {
    var exits := MExits(v, first, second);
    var i :| 0 <= i < |exits| && exits[i] == at;
    JoinManyCovered(c, v, exits, i);
  }

  lemma ExitsAlike(
    bindings: seq<RangeBinding>, body: OwnStatement, update: Option<Expression>, condition: Option<Expression>,
    refs: bool, v: View)
    requires |v| > 0
    ensures var first := MIterate(bindings, body, update, condition, refs, v);
            AllAlike(v, MExits(v, first, MSecond(bindings, body, update, condition, refs, first)))
  {
    var first := MIterate(bindings, body, update, condition, refs, v);
    IterateDeep(bindings, body, update, condition, refs, v);
    if first.next.Some? {
      ShapeKeys(v, first.next.value);
      IterateDeep(bindings, body, update, condition, refs, first.next.value);
    }
    SecondDeep(
      v, if first.next.Some? then first.next.value else v, MSecond(bindings, body, update, condition, refs, first));
    ExitsAllAlike(v, first, MSecond(bindings, body, update, condition, refs, first));
  }

  /** One round, from where the first or the second analysed iteration starts. */
  lemma {:induction false} RoundFrom(
    bindings: seq<RangeBinding>, body: OwnStatement, update: Option<Expression>, condition: Option<Expression>,
    refs: bool, guarded: bool, c: Store, v: View, at: View, tape: Tape)
    requires TrackedStatement(body, guarded) && TrackedOptional(update, guarded) && TrackedOptional(condition, guarded)
    requires Resolved(body)
    requires |c| > 0 && |v| == |c| && Covered(c, at) && MLoop(bindings, body, update, condition, refs, v).silent
    requires at == v || Some(at) == MIterate(bindings, body, update, condition, refs, v).next
    ensures var first := MIterate(bindings, body, update, condition, refs, v);
            var second := MSecond(bindings, body, update, condition, refs, first);
            var r := ExecRound(bindings, body, update, condition, refs, c, tape);
            && RoundSafe(guarded, |c|, r, if at == v then first else second)
            && (r.exit.Done? ==> first.next.Some? && Covered(r.store, first.next.value))
    decreases body, 3, |tape|, 1
  {
    TwoPassesSuffice(bindings, body, update, condition, refs, v);
    RoundSound(bindings, body, update, condition, refs, guarded, c, at, tape);
  }

  /**
   Any number of iterations. The store is in the view before the loop, or in the view after the first
   analysed iteration, which the second one repeats.
   */
  lemma {:induction false} LoopSound(
    bindings: seq<RangeBinding>, body: OwnStatement, update: Option<Expression>, condition: Option<Expression>,
    mayEnd: bool, refs: bool, guarded: bool, c: Store, v: View, at: View, tape: Tape)
    requires TrackedStatement(body, guarded) && TrackedOptional(update, guarded) && TrackedOptional(condition, guarded)
    requires Resolved(body)
    requires |c| > 0 && |v| == |c| && Covered(c, at) && MLoop(bindings, body, update, condition, refs, v).silent
    requires at == v || Some(at) == MIterate(bindings, body, update, condition, refs, v).next
    ensures Safe(
              guarded, |c|, ExecLoop(bindings, body, update, condition, mayEnd, refs, c, tape),
              MLoop(bindings, body, update, condition, refs, v))
    decreases body, 4, |tape|, 1
  {
    var first := MIterate(bindings, body, update, condition, refs, v);
    var second := MSecond(bindings, body, update, condition, refs, first);
    if |tape| == 0 {
      CutoffSafe(guarded, c, tape, MLoop(bindings, body, update, condition, refs, v));
    } else if mayEnd && !tape[0] {
      ExitsAlike(bindings, body, update, condition, refs, v);
      ExitCovered(c, v, first, second, at);
    } else {
      LoopGoesOn(bindings, body, update, condition, mayEnd, refs, guarded, c, v, at, tape);
    }
  }

  lemma {:induction false} LoopGoesOn(
    bindings: seq<RangeBinding>, body: OwnStatement, update: Option<Expression>, condition: Option<Expression>,
    mayEnd: bool, refs: bool, guarded: bool, c: Store, v: View, at: View, tape: Tape)
    requires TrackedStatement(body, guarded) && TrackedOptional(update, guarded) && TrackedOptional(condition, guarded)
    requires Resolved(body)
    requires |c| > 0 && |v| == |c| && Covered(c, at) && MLoop(bindings, body, update, condition, refs, v).silent
    requires at == v || Some(at) == MIterate(bindings, body, update, condition, refs, v).next
    requires |tape| > 0 && (mayEnd ==> tape[0])
    ensures Safe(
              guarded, |c|, ExecLoop(bindings, body, update, condition, mayEnd, refs, c, tape),
              MLoop(bindings, body, update, condition, refs, v))
    decreases body, 4, |tape|, 0
  {
    var first := MIterate(bindings, body, update, condition, refs, v);
    var second := MSecond(bindings, body, update, condition, refs, first);
    var r := ExecRound(bindings, body, update, condition, refs, c, tape[1..]);
    RoundFrom(bindings, body, update, condition, refs, guarded, c, v, at, tape[1..]);
    if r.exit.Done? {
      LoopSound(bindings, body, update, condition, mayEnd, refs, guarded, r.store, v, first.next.value, r.tape);
    } else {
      ExitsAlike(bindings, body, update, condition, refs, v);
      LoopLeft(guarded, |c|, r, v, first, second, if at == v then first else second);
    }
  }

  lemma LoopLeft(
    guarded: bool, depth: int, r: Run, v: View, first: MoveIteration, second: MoveIteration, i: MoveIteration)
    requires (i == first || i == second) && RoundSafe(guarded, depth, r, i) && !r.exit.Done?
    requires AllAlike(v, MExits(v, first, second))
    ensures Safe(
              guarded, depth, if r.exit.Broke? then r.(exit := Done) else r,
              MBoth(first, second, JoinMany(v, MExits(v, first, second))))
  {
    if r.exit.Broke? {
      var k :| 0 <= k < |i.breaks| && Covered(r.store, i.breaks[k]);
      assert i.breaks[k] in MExits(v, first, second);
      ExitCovered(r.store, v, first, second, i.breaks[k]);
    } else if guarded && r.exit.Raised? {
      if i == first {
        CoveredByLeft(r.store, first.throws, second.throws);
      } else {
        CoveredByRight(r.store, first.throws, second.throws);
      }
    }
  }

  lemma {:induction false} WhileStatementSound(
    s: OwnStatement, refs: bool, guarded: bool, c: Store, v: View, tape: Tape)
    requires s.kind.While? && TrackedStatement(s, guarded) && |c| > 0 && Covered(c, v)
    requires Resolved(s)
    requires MWhileStatement(s, refs, v).silent
    ensures Safe(guarded, |c|, ExecWhileStatement(s, refs, c, tape), MWhileStatement(s, refs, v))
    decreases s, 1, |tape|, 0
  {
    var condition, body := s.kind.condition, s.kind.body;
    EnterCovered(c, v);
    WhileSound(condition, body, refs, guarded, Enter(c), Enter(v), tape);
    SafeLeft(guarded, |c|, ExecWhile(condition, body, refs, Enter(c), tape), MWhile(condition, body, refs, Enter(v)));
  }

  lemma {:induction false} WhileSound(
    condition: Expression, body: OwnStatement, refs: bool, guarded: bool, c: Store, v: View, tape: Tape)
    requires Tracked(condition, guarded) && TrackedStatement(body, guarded)
    requires Resolved(body)
    requires |c| > 0 && Covered(c, v) && MWhile(condition, body, refs, v).silent
    ensures Safe(guarded, |c|, ExecWhile(condition, body, refs, c, tape), MWhile(condition, body, refs, v))
    decreases body, 5, |tape|
  {
    var r, m := Eval(condition, c, tape), MCheck(condition, v);
    ExpressionSound(condition, guarded, c, v, tape);
    if r.exit.Done? {
      LoopSound([], body, None, Some(condition), true, refs, guarded, r.store, m.view, m.view, r.tape);
    }
    SafeAfter(
      guarded, |c|, r, MStraight(m), ExecLoop([], body, None, Some(condition), true, refs, r.store, r.tape),
      MLoop([], body, None, Some(condition), refs, m.view));
  }

  lemma {:induction false} ForSound(s: OwnStatement, refs: bool, guarded: bool, c: Store, v: View, tape: Tape)
    requires s.kind.For? && TrackedStatement(s, guarded) && |c| > 0 && Covered(c, v)
    requires Resolved(s)
    requires MForStatement(s, refs, v).silent
    ensures Safe(guarded, |c|, ExecForStatement(s, refs, c, tape), MForStatement(s, refs, v))
    decreases s, 1, |tape|, 0
  {
    var clause, body := s.kind.clause, s.kind.body;
    EnterCovered(c, v);
    ForLoopSound(clause, body, refs, guarded, Enter(c), Enter(v), tape);
    SafeLeft(guarded, |c|, ExecFor(clause, body, refs, Enter(c), tape), MFor(clause, body, refs, Enter(v)));
  }

  lemma {:induction false} ForLoopSound(
    clause: ForClause<Expression>, body: OwnStatement, refs: bool, guarded: bool, c: Store, v: View, tape: Tape)
    requires TrackedClause(clause, guarded) && TrackedStatement(body, guarded)
    requires Resolved(body) && ResolvedClause(clause)
    requires |c| > 0 && Covered(c, v) && MFor(clause, body, refs, v).silent
    ensures Safe(guarded, |c|, ExecFor(clause, body, refs, c, tape), MFor(clause, body, refs, v))
    decreases body, 6, |tape|
  {
    if clause.Classic? {
      ClassicSound(clause, body, refs, guarded, c, v, tape);
    } else {
      RangeSound(clause, body, refs, guarded, c, v, tape);
    }
  }

  lemma InitializerSound(
    initializer: Option<ForInitializer<Expression>>, guarded: bool, c: Store, v: View, tape: Tape)
    requires initializer.Some? && initializer.value.InitializerLocal? ==>
               TrackedOptional(initializer.value.local.initializer, guarded) && ResolvedLocal(initializer.value.local)
    requires initializer.Some? && initializer.value.InitializerExpression? ==>
               Tracked(initializer.value.expression, guarded)
    requires Covered(c, v) && MInitializer(initializer, v).silent
    ensures Safe(guarded, |c|, ExecInitializer(initializer, c, tape), MInitializer(initializer, v))
  {
    if initializer.Some? {
      match initializer.value
      case InitializerLocal(local) => LocalSound(local, guarded, c, v, tape);
      case InitializerExpression(e) => EvalSound(e, guarded, c, v, tape);
    }
  }

  lemma StartSound(clause: ForClause<Expression>, guarded: bool, c: Store, v: View, tape: Tape)
    requires TrackedClause(clause, guarded) && clause.Classic? && Covered(c, v)
    requires ResolvedClause(clause)
    requires MInitializer(clause.initializer, v).silent
    requires MOptional(clause.condition, MInitializer(clause.initializer, v).view).silent
    ensures var o := MInitializer(clause.initializer, v);
            Safe(guarded, |c|, ExecStart(clause, c, tape), MAfter(o, MStraight(MOptional(clause.condition, o.view))))
  {
    InitializerSound(clause.initializer, guarded, c, v, tape);
    var i, o := ExecInitializer(clause.initializer, c, tape), MInitializer(clause.initializer, v);
    var r, m := EvalOptional(clause.condition, i.store, i.tape), MOptional(clause.condition, o.view);
    if i.exit.Done? {
      OptionalSound(clause.condition, guarded, i.store, o.view, i.tape);
      SafeStraight(guarded, |c|, r, m);
    }
    SafeAfter(guarded, |c|, i, o, r, MStraight(m));
  }

  lemma {:induction false} ClassicSound(
    clause: ForClause<Expression>, body: OwnStatement, refs: bool, guarded: bool, c: Store, v: View, tape: Tape)
    requires TrackedClause(clause, guarded) && TrackedStatement(body, guarded) && clause.Classic?
    requires Resolved(body) && ResolvedClause(clause)
    requires |c| > 0 && Covered(c, v) && MClassic(clause, body, refs, v).silent
    ensures Safe(guarded, |c|, ExecClassic(clause, body, refs, c, tape), MClassic(clause, body, refs, v))
    decreases body, 5, |tape|
  {
    var condition, update := clause.condition, clause.update;
    var r, o := ExecStart(clause, c, tape), MInitializer(clause.initializer, v);
    var m := MOptional(condition, o.view);
    StartSound(clause, guarded, c, v, tape);
    if r.exit.Done? {
      LoopSound([], body, update, condition, condition.Some?, refs, guarded, r.store, m.view, m.view, r.tape);
    }
    SafeAfter(
      guarded, |c|, r, MAfter(o, MStraight(m)),
      ExecLoop([], body, update, condition, condition.Some?, refs, r.store, r.tape),
      MLoop([], body, update, condition, refs, m.view));
  }

  lemma {:induction false} RangeSound(
    clause: ForClause<Expression>, body: OwnStatement, refs: bool, guarded: bool, c: Store, v: View, tape: Tape)
    requires TrackedClause(clause, guarded) && TrackedStatement(body, guarded) && clause.Range?
    requires Resolved(body) && ResolvedClause(clause)
    requires |c| > 0 && Covered(c, v) && MRange(clause, body, refs, v).silent
    ensures Safe(guarded, |c|, ExecRange(clause, body, refs, c, tape), MRange(clause, body, refs, v))
    decreases body, 5, |tape|
  {
    EvalSound(clause.iterable, guarded, c, v, tape);
    var m := MCheck(clause.iterable, v);
    RaiseSound(guarded, |c|, Eval(clause.iterable, c, tape), m, clause.json, false);
    var r := MayRaise(clause.json, Eval(clause.iterable, c, tape));
    SafeStraight(guarded, |c|, r, m);
    if r.exit.Done? {
      LoopSound(clause.bindings, body, None, None, true, refs, guarded, r.store, m.view, m.view, r.tape);
    }
    SafeAfter(
      guarded, |c|, r, MStraight(m), ExecLoop(clause.bindings, body, None, None, true, refs, r.store, r.tape),
      MLoop(clause.bindings, body, None, None, refs, m.view));
  }
}
