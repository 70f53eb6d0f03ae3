/**
 Two passes over a loop body are a fixed point. Whatever a piece of code does to the status of one
 name, it does by keeping it, by overwriting it, or by joining something to it, and which of these
 it is does not depend on the view it starts from. Doing it twice is doing it once.
 */
module LoopPasses {
  import opened Wrappers
  import opened Ast
  import opened Ownership
  import opened MoveViews

  /** The names and types of a view, without their status. */
  function Shape(v: View): (shape: seq<map<string, TypeRef>>)
    ensures |shape| == |v|
  {
    seq(|v|, i requires 0 <= i < |v| => map n | n in v[i] :: v[i][n].ty)
  }

  function JoinOptional(x: Status, j: Option<Status>): Status {
    if j.Some? then Join(x, j.value) else x
  }

  /** `p` and `q` come from `a` and `b` by the same change. */
  ghost predicate Tied(a: Status, b: Status, p: Status, q: Status) {
    p == q || exists j: Option<Status> :: p == JoinOptional(a, j) && q == JoinOptional(b, j)
  }

  lemma TiedJoin(a: Status, b: Status, p1: Status, q1: Status, p2: Status, q2: Status)
    requires Tied(a, b, p1, q1) && Tied(a, b, p2, q2)
    ensures Tied(a, b, Join(p1, p2), Join(q1, q2))
  {
    if p1 != q1 && p2 != q2 {
      var i: Option<Status> :| p1 == JoinOptional(a, i) && q1 == JoinOptional(b, i);
      var j: Option<Status> :| p2 == JoinOptional(a, j) && q2 == JoinOptional(b, j);
      var k := if i.None? then j else if j.None? then i else Some(Join(i.value, j.value));
      assert Join(p1, p2) == JoinOptional(a, k) && Join(q1, q2) == JoinOptional(b, k);
    } else if p1 != q1 {
      var i: Option<Status> :| p1 == JoinOptional(a, i) && q1 == JoinOptional(b, i);
      var k := Some(if i.None? then p2 else Join(i.value, p2));
      assert Join(p1, p2) == JoinOptional(a, k) && Join(q1, q2) == JoinOptional(b, k);
    } else if p2 != q2 {
      var j: Option<Status> :| p2 == JoinOptional(a, j) && q2 == JoinOptional(b, j);
      var k := Some(if j.None? then p1 else Join(j.value, p1));
      assert Join(p1, p2) == JoinOptional(a, k) && Join(q1, q2) == JoinOptional(b, k);
    }
  }

  /** One name at one scope level, with the statuses it has in two starting views. */
  datatype Slot = Slot(level: nat, name: string, a: Status, b: Status)

  ghost predicate Pair(k: Slot, v: View, w: View) {
    Shape(v) == Shape(w) && Tied(k.a, k.b, StatusAt(v, k.level, k.name), StatusAt(w, k.level, k.name))
  }

  ghost predicate Pairs(k: Slot, vs: seq<View>, ws: seq<View>) {
    |vs| == |ws| && forall i :: 0 <= i < |vs| ==> Pair(k, vs[i], ws[i])
  }

  lemma PairsAppend(k: Slot, a: seq<View>, b: seq<View>, c: seq<View>, d: seq<View>)
    requires Pairs(k, a, b) && Pairs(k, c, d)
    ensures Pairs(k, a + c, b + d)
  {
  }

  // ----- operations -----

  lemma ShapeKeys(v: View, w: View)
    requires Shape(v) == Shape(w)
    ensures |v| == |w|
    ensures forall i, n :: 0 <= i < |v| ==> (n in v[i] <==> n in w[i])
    ensures forall i, n :: 0 <= i < |v| && n in v[i] ==> v[i][n].ty == w[i][n].ty
  {
    assert |Shape(v)| == |v| && |Shape(w)| == |w|;
    forall i, n | 0 <= i < |v|
      ensures n in v[i] <==> n in w[i]
      ensures n in v[i] ==> v[i][n].ty == w[i][n].ty
    {
      assert n in v[i] <==> n in Shape(v)[i];
      assert n in w[i] <==> n in Shape(w)[i];
      if n in v[i] {
        assert v[i][n].ty == Shape(v)[i][n];
        assert w[i][n].ty == Shape(w)[i][n];
      }
    }
  }

  lemma {:induction false} SameLevel(v: View, w: View, name: string)
    requires Shape(v) == Shape(w)
    ensures LevelOf(v, name) == LevelOf(w, name)
    ensures MarkOf(v, name).Some? <==> MarkOf(w, name).Some?
    ensures MarkOf(v, name).Some? ==> MarkOf(v, name).value.ty == MarkOf(w, name).value.ty
    decreases |v|
  {
    ShapeKeys(v, w);
    if |v| > 0 && name !in v[|v| - 1] {
      assert Shape(v[..|v| - 1]) == Shape(v)[..|v| - 1];
      assert Shape(w[..|w| - 1]) == Shape(w)[..|w| - 1];
      SameLevel(v[..|v| - 1], w[..|w| - 1], name);
    }
  }

  lemma SetShape(v: View, name: string, status: Status)
    ensures Shape(SetStatus(v, name, status)) == Shape(v)
  {
    var level := LevelOf(v, name);
    if level.Some? {
      var t := SetStatus(v, name, status);
      forall i | 0 <= i < |v|
        ensures Shape(t)[i] == Shape(v)[i]
      {
      }
    }
  }

  lemma SetPair(k: Slot, v: View, w: View, name: string, status: Status)
    requires Pair(k, v, w)
    ensures Pair(k, SetStatus(v, name, status), SetStatus(w, name, status))
  {
    SameLevel(v, w, name);
    SetShape(v, name, status);
    SetShape(w, name, status);
    ShapeKeys(v, w);
  }

  lemma EnterPair(k: Slot, v: View, w: View)
    requires Pair(k, v, w)
    ensures Pair(k, Enter(v), Enter(w))
  {
    ShapeKeys(v, w);
    forall i | 0 <= i < |v| + 1
      ensures Shape(Enter(v))[i] == Shape(Enter(w))[i]
    {
      if i < |v| {
        assert Shape(Enter(v))[i] == Shape(v)[i] && Shape(Enter(w))[i] == Shape(w)[i];
      }
    }
  }

  lemma CutPair(k: Slot, v: View, w: View, depth: nat)
    requires Pair(k, v, w)
    ensures Pair(k, Cut(v, depth), Cut(w, depth))
  {
    ShapeKeys(v, w);
    if depth <= |v| {
      assert Shape(v[..depth]) == Shape(v)[..depth];
      assert Shape(w[..depth]) == Shape(w)[..depth];
    }
  }

  lemma LeavePair(k: Slot, v: View, w: View)
    requires Pair(k, v, w)
    ensures Pair(k, Leave(v), Leave(w))
  {
    ShapeKeys(v, w);
    if |v| > 0 {
      CutPair(k, v, w, |v| - 1);
    }
  }

  lemma CutPairs(k: Slot, vs: seq<View>, ws: seq<View>, depth: nat)
    requires Pairs(k, vs, ws)
    ensures Pairs(k, CutAll(vs, depth), CutAll(ws, depth))
  {
    forall i | 0 <= i < |vs|
      ensures Pair(k, CutAll(vs, depth)[i], CutAll(ws, depth)[i])
    {
      CutPair(k, vs[i], ws[i], depth);
    }
  }

  lemma IntroducePair(k: Slot, v: View, w: View, name: string, ty: TypeRef)
    requires Pair(k, v, w)
    ensures Pair(k, Introduce(v, name, ty), Introduce(w, name, ty))
  {
    ShapeKeys(v, w);
    var x, y := Introduce(v, name, ty), Introduce(w, name, ty);
    forall i | 0 <= i < |v|
      ensures Shape(x)[i] == Shape(y)[i]
    {
      assert Shape(v)[i] == Shape(w)[i];
      if i == |v| - 1 {
        assert Shape(x)[i] == Shape(v)[i][name := ty];
        assert Shape(y)[i] == Shape(w)[i][name := ty];
      } else {
        assert x[i] == v[i] && y[i] == w[i];
      }
    }
  }

  lemma JoinShape(baseline: View, l: View, r: View)
    ensures Shape(JoinViews(baseline, l, r)) == Shape(baseline)
  {
    var j := JoinViews(baseline, l, r);
    forall i | 0 <= i < |baseline|
      ensures Shape(j)[i] == Shape(baseline)[i]
    {
    }
  }

  lemma JoinPair(k: Slot, v: View, w: View, l: View, m: View, r: View, s: View)
    requires Pair(k, v, w) && Pair(k, l, m) && Pair(k, r, s)
    ensures Pair(k, JoinViews(v, l, r), JoinViews(w, m, s))
  {
    JoinShape(v, l, r);
    JoinShape(w, m, s);
    ShapeKeys(v, w);
    TiedJoin(
      k.a, k.b,
      StatusAt(l, k.level, k.name), StatusAt(m, k.level, k.name),
      StatusAt(r, k.level, k.name), StatusAt(s, k.level, k.name));
  }

  lemma {:induction false} JoinManyPair(k: Slot, v: View, w: View, vs: seq<View>, ws: seq<View>)
    requires Pair(k, v, w) && Pairs(k, vs, ws)
    ensures Pair(k, JoinMany(v, vs), JoinMany(w, ws))
    decreases |vs|
  {
    if |vs| > 1 {
      var i := |vs| - 1;
      JoinManyPair(k, v, w, vs[..i], ws[..i]);
      assert Pair(k, vs[i], ws[i]);
      JoinPair(k, v, w, JoinMany(v, vs[..i]), JoinMany(w, ws[..i]), vs[i], ws[i]);
    }
  }

  // ----- expressions -----

  ghost predicate CheckedPair(k: Slot, c: MoveChecked, d: MoveChecked) {
    Pair(k, c.view, d.view) && Pairs(k, c.throws, d.throws)
  }

  lemma CapturePair(k: Slot, c: MoveChecked, d: MoveChecked, raises: bool)
    requires CheckedPair(k, c, d)
    ensures CheckedPair(k, MoveCapture(c, raises), MoveCapture(d, raises))
  {
    PairsAppend(k, c.throws, d.throws, [c.view], [d.view]);
  }

  lemma ThenPair(k: Slot, c1: MoveChecked, d1: MoveChecked, c2: MoveChecked, d2: MoveChecked)
    requires CheckedPair(k, c1, d1) && CheckedPair(k, c2, d2)
    ensures CheckedPair(k, MoveThen(c1, c2), MoveThen(d1, d2))
  {
    PairsAppend(k, c1.throws, d1.throws, c2.throws, d2.throws);
  }

  lemma {:induction false} CheckPair(k: Slot, e: Expression, v: View, w: View)
    requires Pair(k, v, w)
    ensures CheckedPair(k, MCheck(e, v), MCheck(e, w))
    decreases e, 1
  {
    match e.kind
    case Strict(_, _) => TwoPair(k, e, v, w);
    case Compound(_, _) => TwoPair(k, e, v, w);
    case Index(_, _) => TwoPair(k, e, v, w);
    case Logical(_, _) => LogicalPair(k, e, v, w);
    case Assign(_, _, _, _) => AssignPair(k, e, v, w);
    case Switch(_, _) => SwitchPair(k, e, v, w);
    case Call(_, _, _, _) => CallPair(k, e, v, w);
    case Move(_) => MovePair(k, e, v, w);
    case Consume(_, _) => ConsumePair(k, e, v, w);
    case Aggregate(_) => BuildPair(k, e, v, w);
    case Construct(_, _) => BuildPair(k, e, v, w);
    case _ => UnaryPair(k, e, v, w);
  }

  lemma {:induction false} UnaryPair(k: Slot, e: Expression, v: View, w: View)
    requires Pair(k, v, w)
    requires e.kind.Name? || e.kind.Literal? || e.kind.Parenthesized? || e.kind.Operand? || e.kind.Increment?
          || e.kind.Field?
    ensures CheckedPair(k, MCheck(e, v), MCheck(e, w))
    decreases e, 0
  {
    match e.kind
    case Parenthesized(inner) => CheckPair(k, inner, v, w);
    case Operand(operand) => CheckPair(k, operand, v, w);
    case Increment(place) => CheckPair(k, place, v, w);
    case Field(whole) => CheckPair(k, whole, v, w);
    case _ =>
  }

  lemma {:induction false} BuildPair(k: Slot, e: Expression, v: View, w: View)
    requires Pair(k, v, w) && (e.kind.Aggregate? || e.kind.Construct?)
    ensures CheckedPair(k, MCheck(e, v), MCheck(e, w))
    decreases e, 0
  {
    if e.kind.Aggregate? {
      ElementsPair(k, e.kind.initializers, true, v, w);
    } else {
      ElementsPair(k, e.kind.elements, false, v, w);
      CapturePair(
        k, MElements(e.kind.elements, false, v), MElements(e.kind.elements, false, w), e.kind.throws);
    }
  }

  lemma {:induction false} TwoPair(k: Slot, e: Expression, v: View, w: View)
    requires Pair(k, v, w) && (e.kind.Strict? || e.kind.Compound? || e.kind.Index?)
    ensures CheckedPair(k, MCheck(e, v), MCheck(e, w))
    decreases e, 0, 1
  {
    match e.kind
    case Strict(left, right) => SequencePair(k, e, left, right, v, w);
    case Compound(target, right) => SequencePair(k, e, right, target, v, w);
    case Index(collection, index) => SequencePair(k, e, collection, index, v, w);
  }

  /** Two parts of `e`, one after the other. */
  lemma {:induction false} SequencePair(
    k: Slot, e: Expression, first: Expression, second: Expression, v: View, w: View)
    requires first < e && second < e && Pair(k, v, w)
    ensures CheckedPair(k, MPair(e, first, second, v), MPair(e, first, second, w))
    decreases e, 0, 0
  {
    CheckPair(k, first, v, w);
    var c, d := MCheck(first, v), MCheck(first, w);
    CheckPair(k, second, c.view, d.view);
    ThenPair(k, c, d, MCheck(second, c.view), MCheck(second, d.view));
  }

  lemma {:induction false} LogicalPair(k: Slot, e: Expression, v: View, w: View)
    requires Pair(k, v, w) && e.kind.Logical?
    ensures CheckedPair(k, MCheck(e, v), MCheck(e, w))
    decreases e, 0
  {
    CheckPair(k, e.kind.left, v, w);
    var l, m := MCheck(e.kind.left, v), MCheck(e.kind.left, w);
    CheckPair(k, e.kind.right, l.view, m.view);
    var r, s := MCheck(e.kind.right, l.view), MCheck(e.kind.right, m.view);
    ThenPair(k, l, m, r, s);
    JoinPair(k, l.view, m.view, l.view, m.view, r.view, s.view);
  }

  lemma {:induction false} AssignPair(k: Slot, e: Expression, v: View, w: View)
    requires Pair(k, v, w) && e.kind.Assign?
    ensures CheckedPair(k, MCheck(e, v), MCheck(e, w))
    decreases e, 0
  {
    CheckPair(k, e.kind.right, v, w);
    var r, s := MCheck(e.kind.right, v), MCheck(e.kind.right, w);
    CapturePair(k, r, s, e.kind.adapted);
    var r1, s1 := MoveCapture(r, e.kind.adapted), MoveCapture(s, e.kind.adapted);
    CapturePair(k, r1, s1, e.kind.jsonPlace);
    WritePair(k, e.kind.target, r.view, s.view);
    ThenPair(
      k, MoveCapture(r1, e.kind.jsonPlace), MoveCapture(s1, e.kind.jsonPlace),
      MWrite(e.kind.target, r.view), MWrite(e.kind.target, s.view));
  }

  lemma {:induction false} SwitchPair(k: Slot, e: Expression, v: View, w: View)
    requires Pair(k, v, w) && e.kind.Switch?
    ensures CheckedPair(k, MCheck(e, v), MCheck(e, w))
    decreases e, 0
  {
    CheckPair(k, e.kind.scrutinee, v, w);
    var c, d := MCheck(e.kind.scrutinee, v), MCheck(e.kind.scrutinee, w);
    ArmsPair(k, e.kind.arms, c.view, d.view);
    var (vs, r) := MArms(e.kind.arms, c.view);
    var (ws, s) := MArms(e.kind.arms, d.view);
    JoinManyPair(k, c.view, d.view, vs, ws);
    PairsAppend(k, c.throws, d.throws, r.throws, s.throws);
  }

  lemma {:induction false} CallPair(k: Slot, e: Expression, v: View, w: View)
    requires Pair(k, v, w) && e.kind.Call?
    ensures CheckedPair(k, MCheck(e, v), MCheck(e, w))
    decreases e, 0
  {
    ReceiverPair(k, e.kind.receiver, v, w);
    var r, s := MReceiver(e.kind.receiver, v), MReceiver(e.kind.receiver, w);
    ArgumentsPair(k, e.kind.arguments, r.view, s.view);
    var a, b := MArguments(e.kind.arguments, r.view), MArguments(e.kind.arguments, s.view);
    ThenPair(k, r, s, a, b);
    CapturePair(k, MoveThen(r, a), MoveThen(s, b), e.kind.throws);
  }

  lemma MovePair(k: Slot, e: Expression, v: View, w: View)
    requires Pair(k, v, w) && e.kind.Move?
    ensures CheckedPair(k, MCheck(e, v), MCheck(e, w))
  {
    var name := NameOf(e.kind.argument);
    if name.Some? {
      SameLevel(v, w, name.value);
      SetPair(k, v, w, name.value, Gone);
    }
  }

  lemma {:induction false} ConsumePair(k: Slot, e: Expression, v: View, w: View)
    requires Pair(k, v, w) && e.kind.Consume?
    ensures CheckedPair(k, MCheck(e, v), MCheck(e, w))
    decreases e, 0
  {
    var name := NameOf(e.kind.consumed);
    if name.Some? {
      SameLevel(v, w, name.value);
    }
    if name.Some? && MarkOf(v, name.value).Some? {
      NamePair(k, name.value, v, w);
      CapturePair(k, MoveName(v, name.value), MoveName(w, name.value), e.kind.throws);
    } else {
      CheckPair(k, e.kind.consumed, v, w);
      CapturePair(k, MCheck(e.kind.consumed, v), MCheck(e.kind.consumed, w), e.kind.throws);
    }
  }

  lemma NamePair(k: Slot, name: string, v: View, w: View)
    requires Pair(k, v, w)
    ensures CheckedPair(k, MoveName(v, name), MoveName(w, name))
  {
    SetPair(k, v, w, name, Gone);
  }

  lemma {:induction false} WritePair(k: Slot, target: Expression, v: View, w: View)
    requires Pair(k, v, w)
    ensures CheckedPair(k, MWrite(target, v), MWrite(target, w))
    decreases target, 2
  {
    match target.kind
    case Parenthesized(inner) => WritePair(k, inner, v, w);
    case Name(name) =>
      SameLevel(v, w, name);
      SetPair(k, v, w, name, Held);
      CheckPair(k, target, v, w);
    case _ => CheckPair(k, target, v, w);
  }

  lemma {:induction false} ArmsPair(k: Slot, arms: seq<Expression>, v: View, w: View)
    requires Pair(k, v, w)
    ensures Pairs(k, MArms(arms, v).0, MArms(arms, w).0)
    ensures Pairs(k, MArms(arms, v).1.throws, MArms(arms, w).1.throws)
    decreases arms, 0
  {
    if |arms| > 0 {
      CheckPair(k, arms[0], v, w);
      ArmsPair(k, arms[1..], v, w);
      PairsAppend(
        k, [MCheck(arms[0], v).view], [MCheck(arms[0], w).view], MArms(arms[1..], v).0, MArms(arms[1..], w).0);
      PairsAppend(
        k, MCheck(arms[0], v).throws, MCheck(arms[0], w).throws,
        MArms(arms[1..], v).1.throws, MArms(arms[1..], w).1.throws);
    }
  }

  lemma {:induction false} ElementsPair(k: Slot, elements: seq<Element>, recorded: bool, v: View, w: View)
    requires Pair(k, v, w)
    ensures CheckedPair(k, MElements(elements, recorded, v), MElements(elements, recorded, w))
    decreases elements, 0
  {
    if |elements| > 0 {
      ElementPair(k, elements[0], recorded, v, w);
      var c, d := MElement(elements[0], recorded, v), MElement(elements[0], recorded, w);
      ElementsPair(k, elements[1..], recorded, c.view, d.view);
      ThenPair(k, c, d, MElements(elements[1..], recorded, c.view), MElements(elements[1..], recorded, d.view));
    }
  }

  lemma {:induction false} ElementPair(k: Slot, element: Element, recorded: bool, v: View, w: View)
    requires Pair(k, v, w)
    ensures CheckedPair(k, MElement(element, recorded, v), MElement(element, recorded, w))
    decreases element, 0
  {
    CheckPair(k, element.value, v, w);
    CapturePair(k, MCheck(element.value, v), MCheck(element.value, w), recorded && element.adapted);
  }

  lemma {:induction false} ReceiverPair(k: Slot, receiver: Option<Receiver>, v: View, w: View)
    requires Pair(k, v, w)
    ensures CheckedPair(k, MReceiver(receiver, v), MReceiver(receiver, w))
    decreases receiver, 0
  {
    if receiver.Some? {
      CheckPair(k, receiver.value.value, v, w);
    }
  }

  lemma {:induction false} ArgumentsPair(k: Slot, arguments: seq<Argument>, v: View, w: View)
    requires Pair(k, v, w)
    ensures CheckedPair(k, MArguments(arguments, v), MArguments(arguments, w))
    decreases arguments, 0
  {
    if |arguments| > 0 {
      ArgumentPair(k, arguments[0], v, w);
      var c, d := MArgument(arguments[0], v), MArgument(arguments[0], w);
      ArgumentsPair(k, arguments[1..], c.view, d.view);
      ThenPair(k, c, d, MArguments(arguments[1..], c.view), MArguments(arguments[1..], d.view));
    }
  }

  lemma {:induction false} ArgumentPair(k: Slot, argument: Argument, v: View, w: View)
    requires Pair(k, v, w)
    ensures CheckedPair(k, MArgument(argument, v), MArgument(argument, w))
    decreases argument, 0
  {
    CheckPair(k, argument.value, v, w);
  }

  lemma OptionalPair(k: Slot, e: Option<Expression>, v: View, w: View)
    requires Pair(k, v, w)
    ensures CheckedPair(k, MOptional(e, v), MOptional(e, w))
  {
    if e.Some? {
      CheckPair(k, e.value, v, w);
    }
  }

  // ----- statements -----

  ghost predicate OutcomePair(k: Slot, o: MoveOutcome, p: MoveOutcome) {
    && o.reachable == p.reachable && Pair(k, o.view, p.view)
    && Pairs(k, o.breaks, p.breaks) && Pairs(k, o.continues, p.continues) && Pairs(k, o.throws, p.throws)
  }

  lemma AfterPair(k: Slot, o1: MoveOutcome, p1: MoveOutcome, o2: MoveOutcome, p2: MoveOutcome)
    requires OutcomePair(k, o1, p1) && OutcomePair(k, o2, p2)
    ensures OutcomePair(k, MAfter(o1, o2), MAfter(p1, p2))
  {
    PairsAppend(k, o1.breaks, p1.breaks, o2.breaks, p2.breaks);
    PairsAppend(k, o1.continues, p1.continues, o2.continues, p2.continues);
    PairsAppend(k, o1.throws, p1.throws, o2.throws, p2.throws);
  }

  lemma StraightPair(k: Slot, c: MoveChecked, d: MoveChecked)
    requires CheckedPair(k, c, d)
    ensures OutcomePair(k, MStraight(c), MStraight(d))
  {
  }

  lemma {:induction false} ListPair(k: Slot, ss: seq<OwnStatement>, refs: bool, v: View, w: View)
    requires Pair(k, v, w)
    ensures OutcomePair(k, MList(ss, refs, v), MList(ss, refs, w))
    decreases ss, 0
  {
    if |ss| > 0 {
      StatementPair(k, ss[0], refs, v, w);
      var o, p := MAnalyze(ss[0], refs, v), MAnalyze(ss[0], refs, w);
      if o.reachable {
        ListPair(k, ss[1..], refs, o.view, p.view);
        AfterPair(k, o, p, MList(ss[1..], refs, o.view), MList(ss[1..], refs, p.view));
      }
    }
  }

  lemma {:induction false} BlockPair(k: Slot, b: OwnBlock, refs: bool, v: View, w: View)
    requires Pair(k, v, w)
    ensures OutcomePair(k, MBlock(b, refs, v), MBlock(b, refs, w))
    decreases b, 0
  {
    EnterPair(k, v, w);
    ListPair(k, b.statements, refs, Enter(v), Enter(w));
    LeavePair(k, MList(b.statements, refs, Enter(v)).view, MList(b.statements, refs, Enter(w)).view);
  }

  lemma {:induction false} BranchPair(k: Slot, statement: OwnStatement, refs: bool, v: View, w: View)
    requires Pair(k, v, w)
    ensures OutcomePair(k, MBranch(statement, refs, v), MBranch(statement, refs, w))
    decreases statement, 3
  {
    EnterPair(k, v, w);
    StatementPair(k, statement, refs, Enter(v), Enter(w));
    LeavePair(k, MAnalyze(statement, refs, Enter(v)).view, MAnalyze(statement, refs, Enter(w)).view);
  }

  lemma LocalPair(k: Slot, local: LocalDeclaration<Expression>, v: View, w: View)
    requires Pair(k, v, w)
    ensures OutcomePair(k, MLocal(local, v), MLocal(local, w))
  {
    var c, d := MoveChecked(v, [], true), MoveChecked(w, [], true);
    if local.initializer.Some? {
      OptionalPair(k, local.initializer, v, w);
      c, d := MOptional(local.initializer, v), MOptional(local.initializer, w);
    }
    var raises := if local.initializer.Some? then local.adapted else local.implicitCall.throws;
    CapturePair(k, c, d, raises);
    IntroducePair(k, c.view, d.view, local.name, local.ty);
  }

  lemma ReturnPair(k: Slot, value: Option<Expression>, refs: bool, v: View, w: View)
    requires Pair(k, v, w)
    ensures OutcomePair(k, MReturn(value, refs, v), MReturn(value, refs, w))
  {
    if value.Some? {
      CheckPair(k, value.value, v, w);
      if NameOf(value.value).Some? {
        SameLevel(v, w, NameOf(value.value).value);
        SetPair(k, v, w, NameOf(value.value).value, Gone);
      }
    }
  }

  lemma ThrowPair(k: Slot, error: Option<Expression>, v: View, w: View)
    requires Pair(k, v, w)
    ensures OutcomePair(k, MThrow(error, v), MThrow(error, w))
  {
    OptionalPair(k, error, v, w);
    CapturePair(k, MOptional(error, v), MOptional(error, w), true);
  }

  lemma ExpressionPair(k: Slot, e: Expression, v: View, w: View)
    requires Pair(k, v, w)
    ensures OutcomePair(k, MStraight(MCheck(e, v)), MStraight(MCheck(e, w)))
  {
    CheckPair(k, e, v, w);
    StraightPair(k, MCheck(e, v), MCheck(e, w));
  }

  lemma JumpPair(k: Slot, v: View, w: View)
    requires Pair(k, v, w)
    ensures OutcomePair(k, MNothing(v), MNothing(w)) && Pairs(k, [v], [w])
  {
  }

  lemma {:induction false} StatementPair(k: Slot, statement: OwnStatement, refs: bool, v: View, w: View)
    requires Pair(k, v, w)
    ensures OutcomePair(k, MAnalyze(statement, refs, v), MAnalyze(statement, refs, w))
    decreases statement, 2
  {
    match statement.kind
    case BlockStatement(b) => BlockPair(k, b, refs, v, w);
    case Try(_, _) => TryPair(k, statement, refs, v, w);
    case If(_, _, _) => IfPair(k, statement, refs, v, w);
    case While(_, _) => WhileStatementPair(k, statement, refs, v, w);
    case For(_, _) => ForStatementPair(k, statement, refs, v, w);
    case _ => PlainPair(k, statement, refs, v, w);
  }

  lemma PlainPair(k: Slot, statement: OwnStatement, refs: bool, v: View, w: View)
    requires Pair(k, v, w)
    requires statement.kind.Local? || statement.kind.Return? || statement.kind.Throw? || statement.kind.Break?
          || statement.kind.Continue? || statement.kind.Expression? || statement.kind.Empty?
    ensures OutcomePair(k, MAnalyze(statement, refs, v), MAnalyze(statement, refs, w))
  {
    if statement.kind.Local? {
      LocalPair(k, statement.kind.local, v, w);
    } else if statement.kind.Return? {
      ReturnPair(k, statement.kind.value, refs, v, w);
    } else if statement.kind.Throw? {
      ThrowPair(k, statement.kind.error, v, w);
    } else if statement.kind.Expression? {
      ExpressionPair(k, statement.kind.expression, v, w);
    } else {
      JumpPair(k, v, w);
    }
  }

  lemma LeftPair(k: Slot, o: MoveOutcome, p: MoveOutcome)
    requires OutcomePair(k, o, p)
    ensures OutcomePair(k, MCloseLoop(o), MCloseLoop(p))
  {
    LeavePair(k, o.view, p.view);
  }

  lemma {:induction false} WhileStatementPair(k: Slot, statement: OwnStatement, refs: bool, v: View, w: View)
    requires Pair(k, v, w) && statement.kind.While?
    ensures OutcomePair(k, MWhileStatement(statement, refs, v), MWhileStatement(statement, refs, w))
    decreases statement, 1
  {
    var condition, body := statement.kind.condition, statement.kind.body;
    EnterPair(k, v, w);
    WhilePair(k, condition, body, refs, Enter(v), Enter(w));
    LeftPair(k, MWhile(condition, body, refs, Enter(v)), MWhile(condition, body, refs, Enter(w)));
  }

  lemma {:induction false} ForStatementPair(k: Slot, statement: OwnStatement, refs: bool, v: View, w: View)
    requires Pair(k, v, w) && statement.kind.For?
    ensures OutcomePair(k, MForStatement(statement, refs, v), MForStatement(statement, refs, w))
    decreases statement, 1
  {
    var clause, body := statement.kind.clause, statement.kind.body;
    EnterPair(k, v, w);
    if clause.Classic? {
      ClassicPair(k, clause, body, refs, Enter(v), Enter(w));
    } else {
      RangeLoopPair(k, clause, body, refs, Enter(v), Enter(w));
    }
    LeftPair(k, MFor(clause, body, refs, Enter(v)), MFor(clause, body, refs, Enter(w)));
  }

  lemma {:induction false} WhilePair(
    k: Slot, condition: Expression, body: OwnStatement, refs: bool, v: View, w: View)
    requires Pair(k, v, w)
    ensures OutcomePair(k, MWhile(condition, body, refs, v), MWhile(condition, body, refs, w))
    decreases body, 6
  {
    ExpressionPair(k, condition, v, w);
    var c, d := MCheck(condition, v), MCheck(condition, w);
    LoopPair(k, [], body, None, Some(condition), refs, c.view, d.view);
    AfterPair(
      k, MStraight(c), MStraight(d),
      MLoop([], body, None, Some(condition), refs, c.view), MLoop([], body, None, Some(condition), refs, d.view));
  }

  lemma {:induction false} IfPair(k: Slot, statement: OwnStatement, refs: bool, v: View, w: View)
    requires Pair(k, v, w) && statement.kind.If?
    ensures OutcomePair(k, MIf(statement, refs, v), MIf(statement, refs, w))
    decreases statement, 1
  {
    ExpressionPair(k, statement.kind.condition, v, w);
    var c, d := MCheck(statement.kind.condition, v), MCheck(statement.kind.condition, w);
    BranchesPair(k, statement, refs, c.view, d.view);
    AfterPair(k, MStraight(c), MStraight(d), MBranches(statement, refs, c.view), MBranches(statement, refs, d.view));
  }

  lemma {:induction false} BranchesPair(k: Slot, statement: OwnStatement, refs: bool, v: View, w: View)
    requires Pair(k, v, w) && statement.kind.If?
    ensures OutcomePair(k, MBranches(statement, refs, v), MBranches(statement, refs, w))
    decreases statement, 0
  {
    var yes, no := statement.kind.thenBranch, statement.kind.elseBranch;
    BranchPair(k, yes, refs, v, w);
    JumpPair(k, v, w);
    if no.Some? {
      BranchPair(k, no.value, refs, v, w);
    }
    JoinedPair(
      k, v, w, MBranch(yes, refs, v), MBranch(yes, refs, w),
      if no.Some? then MBranch(no.value, refs, v) else MNothing(v),
      if no.Some? then MBranch(no.value, refs, w) else MNothing(w));
  }

  lemma JoinedPair(
    k: Slot, v: View, w: View, t1: MoveOutcome, t2: MoveOutcome, e1: MoveOutcome, e2: MoveOutcome)
    requires Pair(k, v, w) && OutcomePair(k, t1, t2) && OutcomePair(k, e1, e2)
    ensures OutcomePair(k, MJoinBranches(v, t1, e1), MJoinBranches(w, t2, e2))
  {
    JoinPair(k, v, w, t1.view, t2.view, e1.view, e2.view);
    AfterPair(k, t1, t2, e1, e2);
  }

  lemma BaselinePair(k: Slot, v: View, w: View, vs: seq<View>, ws: seq<View>)
    requires Pair(k, v, w) && Pairs(k, vs, ws)
    ensures Pair(k, MCatchBaseline(v, vs), MCatchBaseline(w, ws))
  {
    ShapeKeys(v, w);
    CutPairs(k, vs, ws, |v|);
    JoinManyPair(k, v, w, CutAll(vs, |v|), CutAll(ws, |v|));
  }

  lemma TryEndPair(
    k: Slot, v: View, w: View, g1: MoveOutcome, g2: MoveOutcome, vs: seq<View>, ws: seq<View>,
    h1: MoveOutcome, h2: MoveOutcome)
    requires Pair(k, v, w) && OutcomePair(k, g1, g2) && Pairs(k, vs, ws) && OutcomePair(k, h1, h2)
    ensures OutcomePair(k, MTryEnd(v, g1, vs, h1), MTryEnd(w, g2, ws, h2))
  {
    AfterPair(k, g1, g2, h1, h2);
    var now1, now2 := if g1.reachable then [g1.view] else [], if g2.reachable then [g2.view] else [];
    PairsAppend(k, now1, now2, vs, ws);
    JoinManyPair(k, v, w, now1 + vs, now2 + ws);
  }

  lemma {:induction false} TryPair(k: Slot, statement: OwnStatement, refs: bool, v: View, w: View)
    requires Pair(k, v, w) && statement.kind.Try?
    ensures OutcomePair(k, MTry(statement, refs, v), MTry(statement, refs, w))
    decreases statement, 1
  {
    var guarded, catches := statement.kind.guarded, statement.kind.catches;
    BlockPair(k, guarded, refs, v, w);
    var g1, g2 := MBlock(guarded, refs, v), MBlock(guarded, refs, w);
    BaselinePair(k, v, w, g1.throws, g2.throws);
    var b1, b2 := MCatchBaseline(v, g1.throws), MCatchBaseline(w, g2.throws);
    CatchesPair(k, catches, refs, b1, b2);
    var (vs, h1) := MCatches(catches, refs, b1);
    var (ws, h2) := MCatches(catches, refs, b2);
    TryEndPair(k, v, w, g1, g2, vs, ws, h1, h2);
  }

  lemma {:induction false} CatchesPair(k: Slot, catches: seq<OwnCatch>, refs: bool, v: View, w: View)
    requires Pair(k, v, w)
    ensures Pairs(k, MCatches(catches, refs, v).0, MCatches(catches, refs, w).0)
    ensures OutcomePair(k, MCatches(catches, refs, v).1, MCatches(catches, refs, w).1)
    decreases catches, 0
  {
    if |catches| > 0 {
      HandlerPair(k, catches[0], refs, v, w);
      CatchesPair(k, catches[1..], refs, v, w);
      var f1, f2 := MHandler(catches[0], refs, v), MHandler(catches[0], refs, w);
      var (vs, h1) := MCatches(catches[1..], refs, v);
      var (ws, h2) := MCatches(catches[1..], refs, w);
      AfterPair(k, f1, f2, h1, h2);
      PairsAppend(k, if f1.reachable then [f1.view] else [], if f2.reachable then [f2.view] else [], vs, ws);
    }
  }

  lemma {:induction false} HandlerPair(k: Slot, clause: OwnCatch, refs: bool, v: View, w: View)
    requires Pair(k, v, w)
    ensures OutcomePair(k, MHandler(clause, refs, v), MHandler(clause, refs, w))
    decreases clause, 0
  {
    EnterPair(k, v, w);
    if clause.binding.Some? {
      IntroducePair(k, Enter(v), Enter(w), clause.binding.value.name, clause.binding.value.ty);
    }
    var x, y := MDeclareCatch(clause.binding, Enter(v)), MDeclareCatch(clause.binding, Enter(w));
    BodyPair(k, clause.body, refs, x, y);
    LeavePair(k, MBody(clause.body, refs, x).view, MBody(clause.body, refs, y).view);
  }

  lemma {:induction false} BodyPair(k: Slot, b: OwnBlock, refs: bool, v: View, w: View)
    requires Pair(k, v, w)
    ensures OutcomePair(k, MBody(b, refs, v), MBody(b, refs, w))
    decreases b, 0
  {
    ListPair(k, b.statements, refs, v, w);
  }

  lemma {:induction false} RangePair(k: Slot, bindings: seq<RangeBinding>, v: View, w: View)
    requires Pair(k, v, w)
    ensures Pair(k, MDeclareRange(bindings, v), MDeclareRange(bindings, w))
    decreases |bindings|
  {
    if |bindings| > 0 {
      var b := bindings[0];
      IntroducePair(k, v, w, b.name, b.ty);
      RangePair(k, bindings[1..], Introduce(v, b.name, b.ty), Introduce(w, b.name, b.ty));
    }
  }

  lemma TailPair(k: Slot, update: Option<Expression>, condition: Option<Expression>, v: View, w: View)
    requires Pair(k, v, w)
    ensures CheckedPair(k, MTail(update, condition, v), MTail(update, condition, w))
  {
    OptionalPair(k, update, v, w);
    var u1, u2 := MOptional(update, v), MOptional(update, w);
    OptionalPair(k, condition, u1.view, u2.view);
    ThenPair(k, u1, u2, MOptional(condition, u1.view), MOptional(condition, u2.view));
  }

  lemma {:induction false} TailsPair(
    k: Slot, update: Option<Expression>, condition: Option<Expression>, vs: seq<View>, ws: seq<View>)
    requires Pairs(k, vs, ws)
    ensures Pairs(k, MTails(update, condition, vs).0, MTails(update, condition, ws).0)
    ensures Pairs(k, MTails(update, condition, vs).1, MTails(update, condition, ws).1)
    decreases |vs|
  {
    if |vs| > 0 {
      TailPair(k, update, condition, vs[0], ws[0]);
      TailsPair(k, update, condition, vs[1..], ws[1..]);
      var t1, t2 := MTail(update, condition, vs[0]), MTail(update, condition, ws[0]);
      var (ends1, throws1, _) := MTails(update, condition, vs[1..]);
      var (ends2, throws2, _) := MTails(update, condition, ws[1..]);
      PairsAppend(k, [t1.view], [t2.view], ends1, ends2);
      PairsAppend(k, t1.throws, t2.throws, throws1, throws2);
    }
  }

  ghost predicate IterationPair(k: Slot, i: MoveIteration, j: MoveIteration) {
    && (i.next.Some? <==> j.next.Some?) && (i.next.Some? ==> Pair(k, i.next.value, j.next.value))
    && Pairs(k, i.breaks, j.breaks) && Pairs(k, i.throws, j.throws)
  }

  lemma TailViewsPair(k: Slot, o: MoveOutcome, p: MoveOutcome, depth: nat)
    requires OutcomePair(k, o, p)
    ensures Pairs(k, MTailViews(o, depth), MTailViews(p, depth))
    ensures Pairs(k, CutAll(o.breaks, depth), CutAll(p.breaks, depth))
  {
    LeavePair(k, o.view, p.view);
    CutPairs(k, o.continues, p.continues, depth);
    CutPairs(k, o.breaks, p.breaks, depth);
    PairsAppend(
      k, if o.reachable then [Leave(o.view)] else [], if p.reachable then [Leave(p.view)] else [],
      CutAll(o.continues, depth), CutAll(p.continues, depth));
  }

  lemma IterationEndPair(
    k: Slot, update: Option<Expression>, condition: Option<Expression>, o: MoveOutcome, p: MoveOutcome, depth: nat)
    requires OutcomePair(k, o, p)
    ensures IterationPair(
              k, MIterationEnd(o, update, condition, depth), MIterationEnd(p, update, condition, depth))
  {
    TailViewsPair(k, o, p, depth);
    var vs, ws := MTailViews(o, depth), MTailViews(p, depth);
    TailsPair(k, update, condition, vs, ws);
    if |vs| > 0 {
      JoinManyPair(k, vs[0], ws[0], MTails(update, condition, vs).0, MTails(update, condition, ws).0);
      PairsAppend(k, o.throws, p.throws, MTails(update, condition, vs).1, MTails(update, condition, ws).1);
    }
  }

  lemma {:induction false} IteratePair(
    k: Slot, bindings: seq<RangeBinding>, body: OwnStatement, update: Option<Expression>, condition: Option<Expression>,
    refs: bool, v: View, w: View)
    requires Pair(k, v, w)
    ensures IterationPair(
              k, MIterate(bindings, body, update, condition, refs, v),
              MIterate(bindings, body, update, condition, refs, w))
    decreases body, 3
  {
    ShapeKeys(v, w);
    EnterPair(k, v, w);
    RangePair(k, bindings, Enter(v), Enter(w));
    var x, y := MDeclareRange(bindings, Enter(v)), MDeclareRange(bindings, Enter(w));
    StatementPair(k, body, refs, x, y);
    IterationEndPair(k, update, condition, MAnalyze(body, refs, x), MAnalyze(body, refs, y), |v|);
  }

  lemma PresentPair(k: Slot, i: MoveIteration, j: MoveIteration)
    requires IterationPair(k, i, j)
    ensures Pairs(k, MPresent(i.next), MPresent(j.next))
  {
  }

  lemma ExitsPair(
    k: Slot, v: View, w: View, f1: MoveIteration, f2: MoveIteration, s1: MoveIteration, s2: MoveIteration)
    requires Pair(k, v, w) && IterationPair(k, f1, f2) && IterationPair(k, s1, s2)
    ensures Pairs(k, MExits(v, f1, s1), MExits(w, f2, s2))
  {
    PresentPair(k, f1, f2);
    PresentPair(k, s1, s2);
    PairsAppend(k, [v], [w], MPresent(f1.next), MPresent(f2.next));
    PairsAppend(k, [v] + MPresent(f1.next), [w] + MPresent(f2.next), MPresent(s1.next), MPresent(s2.next));
    var a, b := [v] + MPresent(f1.next) + MPresent(s1.next), [w] + MPresent(f2.next) + MPresent(s2.next);
    PairsAppend(k, a, b, f1.breaks, f2.breaks);
    PairsAppend(k, a + f1.breaks, b + f2.breaks, s1.breaks, s2.breaks);
  }

  lemma BothPair(
    k: Slot, v: View, w: View, f1: MoveIteration, f2: MoveIteration, s1: MoveIteration, s2: MoveIteration)
    requires Pair(k, v, w) && IterationPair(k, f1, f2) && IterationPair(k, s1, s2)
    ensures OutcomePair(
              k, MBoth(f1, s1, JoinMany(v, MExits(v, f1, s1))), MBoth(f2, s2, JoinMany(w, MExits(w, f2, s2))))
  {
    ExitsPair(k, v, w, f1, f2, s1, s2);
    JoinManyPair(k, v, w, MExits(v, f1, s1), MExits(w, f2, s2));
    PairsAppend(k, f1.throws, f2.throws, s1.throws, s2.throws);
  }

  lemma {:induction false} LoopPair(
    k: Slot, bindings: seq<RangeBinding>, body: OwnStatement, update: Option<Expression>, condition: Option<Expression>,
    refs: bool, v: View, w: View)
    requires Pair(k, v, w)
    ensures OutcomePair(
              k, MLoop(bindings, body, update, condition, refs, v), MLoop(bindings, body, update, condition, refs, w))
    decreases body, 5
  {
    IteratePair(k, bindings, body, update, condition, refs, v, w);
    var f1 := MIterate(bindings, body, update, condition, refs, v);
    var f2 := MIterate(bindings, body, update, condition, refs, w);
    if f1.next.Some? {
      IteratePair(k, bindings, body, update, condition, refs, f1.next.value, f2.next.value);
    }
    BothPair(
      k, v, w, f1, f2, MSecond(bindings, body, update, condition, refs, f1),
      MSecond(bindings, body, update, condition, refs, f2));
  }

  lemma InitializerPair(k: Slot, initializer: Option<ForInitializer<Expression>>, v: View, w: View)
    requires Pair(k, v, w)
    ensures OutcomePair(k, MInitializer(initializer, v), MInitializer(initializer, w))
  {
    JumpPair(k, v, w);
    if initializer.Some? {
      match initializer.value
      case InitializerLocal(local) => LocalPair(k, local, v, w);
      case InitializerExpression(e) => ExpressionPair(k, e, v, w);
    }
  }

  lemma {:induction false} ClassicPair(
    k: Slot, clause: ForClause<Expression>, body: OwnStatement, refs: bool, v: View, w: View)
    requires Pair(k, v, w) && clause.Classic?
    ensures OutcomePair(k, MClassic(clause, body, refs, v), MClassic(clause, body, refs, w))
    decreases body, 6
  {
    var i, j := MInitializer(clause.initializer, v), MInitializer(clause.initializer, w);
    var c, d := MOptional(clause.condition, i.view), MOptional(clause.condition, j.view);
    InitializerPair(k, clause.initializer, v, w);
    OptionalPair(k, clause.condition, i.view, j.view);
    StraightPair(k, c, d);
    AfterPair(k, i, j, MStraight(c), MStraight(d));
    LoopPair(k, [], body, clause.update, clause.condition, refs, c.view, d.view);
    AfterPair(
      k, MAfter(i, MStraight(c)), MAfter(j, MStraight(d)),
      MLoop([], body, clause.update, clause.condition, refs, c.view),
      MLoop([], body, clause.update, clause.condition, refs, d.view));
  }

  lemma {:induction false} RangeLoopPair(
    k: Slot, clause: ForClause<Expression>, body: OwnStatement, refs: bool, v: View, w: View)
    requires Pair(k, v, w) && clause.Range?
    ensures OutcomePair(k, MRange(clause, body, refs, v), MRange(clause, body, refs, w))
    decreases body, 6
  {
    ExpressionPair(k, clause.iterable, v, w);
    var c, d := MCheck(clause.iterable, v), MCheck(clause.iterable, w);
    LoopPair(k, clause.bindings, body, None, None, refs, c.view, d.view);
    AfterPair(
      k, MStraight(c), MStraight(d),
      MLoop(clause.bindings, body, None, None, refs, c.view), MLoop(clause.bindings, body, None, None, refs, d.view));
  }
}
