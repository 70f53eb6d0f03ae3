/**
 The availability part of the ownership pass on its own: which names are held, moved, or either,
 with no identities, loans or spans. `MoveViewsAgree` shows that a pass without reports computes it.
 */
module MoveViews {
  import opened Wrappers
  import opened Ast
  import opened Ownership
  import FlowStates

  datatype Status = Held | Gone | MaybeGone

  datatype Mark = Mark(status: Status, ty: TypeRef)

  /** Names of the open scopes, outermost scope first. */
  type View = seq<map<string, Mark>>

  /** The scope a name is found in, innermost first. */
  function LevelOf<T>(v: seq<map<string, T>>, name: string): (level: Option<nat>)
    ensures level.Some? ==> level.value < |v| && name in v[level.value]
    ensures level.Some? ==> forall j :: level.value < j < |v| ==> name !in v[j]
    ensures level.None? ==> forall j :: 0 <= j < |v| ==> name !in v[j]
  {
    if |v| == 0 then None
    else if name in v[|v| - 1] then Some(|v| - 1)
    else LevelOf(v[..|v| - 1], name)
  }

  function MarkOf(v: View, name: string): Option<Mark> {
    var level := LevelOf(v, name);
    if level.None? then None else Some(v[level.value][name])
  }

  function SetStatus(v: View, name: string, status: Status): View {
    var level := LevelOf(v, name);
    if level.None? then v
    else
      var scope := v[level.value];
      v[level.value := scope[name := scope[name].(status := status)]]
  }

  function Enter<T>(v: seq<map<string, T>>): seq<map<string, T>> {
    v + [map[]]
  }

  function Leave<T>(v: seq<map<string, T>>): seq<map<string, T>> {
    if |v| == 0 then v else v[..|v| - 1]
  }

  function Cut<T>(v: seq<map<string, T>>, depth: nat): seq<map<string, T>> {
    if depth <= |v| then v[..depth] else v
  }

  function CutAll(vs: seq<View>, depth: nat): (r: seq<View>)
    ensures |r| == |vs| && forall i :: 0 <= i < |r| ==> r[i] == Cut(vs[i], depth)
  {
    seq(|vs|, i requires 0 <= i < |vs| => Cut(vs[i], depth))
  }

  function Introduce(v: View, name: string, ty: TypeRef): View {
    if |v| == 0 then v else v[|v| - 1 := v[|v| - 1][name := Mark(Held, ty)]]
  }

  // ----- joins -----

  function Join(a: Status, b: Status): Status {
    if a == b then a else MaybeGone
  }

  function StatusAt(v: View, level: nat, name: string): Status {
    if level < |v| && name in v[level] then v[level][name].status else Held
  }

  function JoinScopes(scope: map<string, Mark>, level: nat, l: View, r: View): map<string, Mark> {
    map n | n in scope :: Mark(Join(StatusAt(l, level, n), StatusAt(r, level, n)), scope[n].ty)
  }

  function JoinViews(baseline: View, l: View, r: View): (v: View)
    ensures |v| == |baseline|
  {
    seq(|baseline|, i requires 0 <= i < |baseline| => JoinScopes(baseline[i], i, l, r))
  }

  function JoinMany(baseline: View, vs: seq<View>): View {
    if |vs| == 0 then baseline
    else if |vs| == 1 then vs[0]
    else JoinViews(baseline, JoinMany(baseline, vs[..|vs| - 1]), vs[|vs| - 1])
  }

  // ----- expressions -----

  datatype MoveChecked = MoveChecked(view: View, throws: seq<View>, silent: bool)

  function NameOf(e: Expression): Option<string> {
    match e.kind
    case Name(name) => Some(name)
    case Parenthesized(inner) => NameOf(inner)
    case _ => None
  }

  predicate Usable(v: View, name: string) {
    MarkOf(v, name).Some? ==> MarkOf(v, name).value.status.Held?
  }

  function MoveCapture(c: MoveChecked, raises: bool): MoveChecked {
    if raises then c.(throws := c.throws + [c.view]) else c
  }

  function MoveThen(first: MoveChecked, second: MoveChecked): MoveChecked {
    MoveChecked(second.view, first.throws + second.throws, first.silent && second.silent)
  }

  function MoveName(v: View, name: string): MoveChecked {
    MoveChecked(SetStatus(v, name, Gone), [], Usable(v, name))
  }

  function MCheck(e: Expression, v: View): MoveChecked
    decreases e, 1
  {
    match e.kind
    case Name(name) => MoveChecked(v, [], Usable(v, name))
    case Literal => MoveChecked(v, [], true)
    case Parenthesized(inner) => MCheck(inner, v)
    case Operand(operand) => MCheck(operand, v)
    case Increment(place) => MCheck(place, v)
    case Strict(left, right) => MPair(e, left, right, v)
    case Compound(target, right) => MPair(e, right, target, v)
    case Index(collection, index) => MPair(e, collection, index, v)
    case Logical(_, _) => MLogical(e, v)
    case Assign(_, _, _, _) => MAssign(e, v)
    case Switch(_, _) => MSwitch(e, v)
    case Call(_, _, _, _) => MCall(e, v)
    case Move(argument) => MMove(argument, v)
    case Consume(_, _) => MConsume(e, v)
    case Aggregate(initializers) => MElements(initializers, true, v)
    case Construct(elements, throws) => MoveCapture(MElements(elements, false, v), throws)
    case Field(whole) => MCheck(whole, v)
  }

  /** Two parts of `e`, one after the other. */
  function MPair(e: Expression, first: Expression, second: Expression, v: View): MoveChecked
    requires first < e && second < e
    decreases e, 0
  {
    var c := MCheck(first, v);
    MoveThen(c, MCheck(second, c.view))
  }

  function MLogical(e: Expression, v: View): MoveChecked
    requires e.kind.Logical?
    decreases e, 0
  {
    var l := MCheck(e.kind.left, v);
    var r := MCheck(e.kind.right, l.view);
    MoveThen(l, r).(view := JoinViews(l.view, l.view, r.view))
  }

  function MAssign(e: Expression, v: View): MoveChecked
    requires e.kind.Assign?
    decreases e, 0
  {
    var r := MoveCapture(MoveCapture(MCheck(e.kind.right, v), e.kind.adapted), e.kind.jsonPlace);
    MoveThen(r, MWrite(e.kind.target, r.view))
  }

  function MSwitch(e: Expression, v: View): MoveChecked
    requires e.kind.Switch?
    decreases e, 0
  {
    var c := MCheck(e.kind.scrutinee, v);
    var (views, rest) := MArms(e.kind.arms, c.view);
    MoveThen(c, rest).(view := JoinMany(c.view, views))
  }

  function MCall(e: Expression, v: View): MoveChecked
    requires e.kind.Call?
    decreases e, 0
  {
    var r := MReceiver(e.kind.receiver, v);
    MoveCapture(MoveThen(r, MArguments(e.kind.arguments, r.view)), e.kind.throws)
  }

  function MMove(argument: Expression, v: View): MoveChecked {
    var name := NameOf(argument);
    if name.None? || MarkOf(v, name.value).None? then MoveChecked(v, [], true)
    else if FlowStates.IsCopyable(MarkOf(v, name.value).value.ty) then MoveChecked(v, [], Usable(v, name.value))
    else MoveName(v, name.value)
  }

  function MConsume(e: Expression, v: View): MoveChecked
    requires e.kind.Consume?
    decreases e, 0
  {
    var name := NameOf(e.kind.consumed);
    MoveCapture(
      if name.Some? && MarkOf(v, name.value).Some? then MoveName(v, name.value) else MCheck(e.kind.consumed, v),
      e.kind.throws)
  }

  function MWrite(target: Expression, v: View): MoveChecked
    decreases target, 2
  {
    match target.kind
    case Parenthesized(inner) => MWrite(inner, v)
    case Name(name) =>
      var mark := MarkOf(v, name);
      if mark.None? then MCheck(target, v)
      else if FlowStates.IsReference(mark.value.ty) then MoveChecked(v, [], Usable(v, name))
      else MoveChecked(SetStatus(v, name, Held), [], true)
    case _ => MCheck(target, v)
  }

  function MArms(arms: seq<Expression>, v: View): (r: (seq<View>, MoveChecked))
    ensures |r.0| == |arms|
    decreases arms, 0
  {
    if |arms| == 0 then ([], MoveChecked(v, [], true))
    else
      var first := MCheck(arms[0], v);
      var (views, rest) := MArms(arms[1..], v);
      ([first.view] + views, MoveThen(first, rest))
  }

  function MElements(elements: seq<Element>, recorded: bool, v: View): MoveChecked
    decreases elements, 0
  {
    if |elements| == 0 then MoveChecked(v, [], true)
    else
      var first := MElement(elements[0], recorded, v);
      MoveThen(first, MElements(elements[1..], recorded, first.view))
  }

  function MElement(element: Element, recorded: bool, v: View): MoveChecked
    decreases element, 0
  {
    MoveCapture(MCheck(element.value, v), recorded && element.adapted)
  }

  function MReceiver(receiver: Option<Receiver>, v: View): MoveChecked
    decreases receiver, 0
  {
    if receiver.None? then MoveChecked(v, [], true) else MCheck(receiver.value.value, v)
  }

  function MArguments(arguments: seq<Argument>, v: View): MoveChecked
    decreases arguments, 0
  {
    if |arguments| == 0 then MoveChecked(v, [], true)
    else
      var first := MArgument(arguments[0], v);
      MoveThen(first, MArguments(arguments[1..], first.view))
  }

  function MArgument(argument: Argument, v: View): MoveChecked
    decreases argument, 0
  {
    MCheck(argument.value, v)
  }

  function MOptional(e: Option<Expression>, v: View): MoveChecked {
    if e.None? then MoveChecked(v, [], true) else MCheck(e.value, v)
  }

  // ----- statements -----

  datatype MoveOutcome = MoveOutcome(
    view: View,
    reachable: bool,
    breaks: seq<View>,
    continues: seq<View>,
    throws: seq<View>,
    silent: bool)

  function MStraight(c: MoveChecked): MoveOutcome {
    MoveOutcome(c.view, true, [], [], c.throws, c.silent)
  }

  function MAfter(first: MoveOutcome, second: MoveOutcome): MoveOutcome {
    MoveOutcome(
      second.view,
      second.reachable,
      first.breaks + second.breaks,
      first.continues + second.continues,
      first.throws + second.throws,
      first.silent && second.silent)
  }

  function MNothing(v: View): MoveOutcome {
    MoveOutcome(v, true, [], [], [], true)
  }

  function MList(ss: seq<OwnStatement>, byReference: bool, v: View): MoveOutcome
    decreases ss, 0
  {
    if |ss| == 0 then MNothing(v)
    else
      var first := MAnalyze(ss[0], byReference, v);
      if first.reachable then MAfter(first, MList(ss[1..], byReference, first.view)) else first
  }

  function MBlock(b: OwnBlock, byReference: bool, v: View): MoveOutcome
    decreases b, 0
  {
    var o := MList(b.statements, byReference, Enter(v));
    o.(view := Leave(o.view))
  }

  function MBranch(statement: OwnStatement, byReference: bool, v: View): MoveOutcome
    decreases statement, 3
  {
    var o := MAnalyze(statement, byReference, Enter(v));
    o.(view := Leave(o.view))
  }

  function MLocal(local: LocalDeclaration<Expression>, v: View): MoveOutcome {
    var c :=
      if BorrowsInitializer(local.ty) then MOptional(local.initializer, v)
      else if local.initializer.Some? then MoveCapture(MCheck(local.initializer.value, v), local.adapted)
      else MoveCapture(MoveChecked(v, [], true), local.implicitCall.throws);
    MStraight(c.(view := Introduce(c.view, local.name, local.ty)))
  }

  predicate MReturnMoves(value: Expression, byReference: bool, v: View) {
    var name := NameOf(value);
    && !byReference && name.Some? && MarkOf(v, name.value).Some?
    && !FlowStates.IsReference(MarkOf(v, name.value).value.ty)
    && !FlowStates.IsCopyable(MarkOf(v, name.value).value.ty)
  }

  function MReturn(value: Option<Expression>, byReference: bool, v: View): MoveOutcome {
    var c :=
      if value.None? then MoveChecked(v, [], true)
      else if MReturnMoves(value.value, byReference, v) then MoveName(v, NameOf(value.value).value)
      else MCheck(value.value, v);
    MStraight(c).(reachable := false)
  }

  function MAnalyze(statement: OwnStatement, byReference: bool, v: View): MoveOutcome
    decreases statement, 2
  {
    match statement.kind
    case BlockStatement(b) => MBlock(b, byReference, v)
    case Local(local) => MLocal(local, v)
    case Return(value) => MReturn(value, byReference, v)
    case Throw(error) => MThrow(error, v)
    case Try(_, _) => MTry(statement, byReference, v)
    case If(_, _, _) => MIf(statement, byReference, v)
    case While(_, _) => MWhileStatement(statement, byReference, v)
    case For(_, _) => MForStatement(statement, byReference, v)
    case Break => MoveOutcome(v, false, [v], [], [], true)
    case Continue => MoveOutcome(v, false, [], [v], [], true)
    case Expression(e) => MStraight(MCheck(e, v))
    case Empty => MNothing(v)
  }

  function MThrow(error: Option<Expression>, v: View): MoveOutcome {
    MStraight(MoveCapture(MOptional(error, v), true)).(reachable := false)
  }

  function MTry(statement: OwnStatement, byReference: bool, v: View): MoveOutcome
    requires statement.kind.Try?
    decreases statement, 1
  {
    var g := MBlock(statement.kind.guarded, byReference, v);
    var (views, h) := MCatches(statement.kind.catches, byReference, MCatchBaseline(v, g.throws));
    MTryEnd(v, g, views, h)
  }

  function MIf(statement: OwnStatement, byReference: bool, v: View): MoveOutcome
    requires statement.kind.If?
    decreases statement, 1
  {
    var c := MCheck(statement.kind.condition, v);
    MAfter(MStraight(c), MBranches(statement, byReference, c.view))
  }

  /** An `if` after its condition. */
  function MBranches(statement: OwnStatement, byReference: bool, v: View): MoveOutcome
    requires statement.kind.If?
    decreases statement, 0
  {
    MJoinBranches(
      v, MBranch(statement.kind.thenBranch, byReference, v),
      if statement.kind.elseBranch.Some? then MBranch(statement.kind.elseBranch.value, byReference, v) else MNothing(v))
  }

  function MJoinBranches(v: View, t: MoveOutcome, e: MoveOutcome): MoveOutcome {
    MAfter(t, e).(
      view :=
        if t.reachable && e.reachable then JoinViews(v, t.view, e.view)
        else if t.reachable then t.view
        else if e.reachable then e.view
        else v,
      reachable := t.reachable || e.reachable)
  }

  /** The scope of a loop goes. */
  function MCloseLoop(o: MoveOutcome): MoveOutcome {
    o.(view := Leave(o.view))
  }

  function MWhileStatement(statement: OwnStatement, byReference: bool, v: View): MoveOutcome
    requires statement.kind.While?
    decreases statement, 1
  {
    MCloseLoop(MWhile(statement.kind.condition, statement.kind.body, byReference, Enter(v)))
  }

  function MForStatement(statement: OwnStatement, byReference: bool, v: View): MoveOutcome
    requires statement.kind.For?
    decreases statement, 1
  {
    MCloseLoop(MFor(statement.kind.clause, statement.kind.body, byReference, Enter(v)))
  }

  /** A `try` ends where its block or one of its handlers ends. */
  function MTryEnd(v: View, g: MoveOutcome, views: seq<View>, h: MoveOutcome): MoveOutcome {
    var ends := (if g.reachable then [g.view] else []) + views;
    MAfter(g, h).(view := if |ends| == 0 then v else JoinMany(v, ends), reachable := |ends| > 0)
  }

  function MCatchBaseline(v: View, throws: seq<View>): View {
    if |throws| == 0 then v else JoinMany(v, CutAll(throws, |v|))
  }

  function MCatches(catches: seq<OwnCatch>, byReference: bool, v: View): (seq<View>, MoveOutcome)
    decreases catches, 0
  {
    if |catches| == 0 then ([], MNothing(v))
    else
      var first := MHandler(catches[0], byReference, v);
      var (views, rest) := MCatches(catches[1..], byReference, v);
      ((if first.reachable then [first.view] else []) + views, MAfter(first, rest))
  }

  function MDeclareCatch(binding: Option<CatchBinding>, v: View): View {
    if binding.None? then v else Introduce(v, binding.value.name, binding.value.ty)
  }

  function MHandler(clause: OwnCatch, byReference: bool, v: View): MoveOutcome
    decreases clause, 0
  {
    var o := MBody(clause.body, byReference, MDeclareCatch(clause.binding, Enter(v)));
    o.(view := Leave(o.view))
  }

  function MBody(b: OwnBlock, byReference: bool, v: View): MoveOutcome
    decreases b, 0
  {
    MList(b.statements, byReference, v)
  }

  function MDeclareRange(bindings: seq<RangeBinding>, v: View): View
    decreases |bindings|
  {
    if |bindings| == 0 then v else MDeclareRange(bindings[1..], Introduce(v, bindings[0].name, bindings[0].ty))
  }

  datatype MoveIteration = MoveIteration(next: Option<View>, breaks: seq<View>, throws: seq<View>, silent: bool)

  function MTail(update: Option<Expression>, condition: Option<Expression>, v: View): MoveChecked {
    var u := MOptional(update, v);
    MoveThen(u, MOptional(condition, u.view))
  }

  function MTails(update: Option<Expression>, condition: Option<Expression>, vs: seq<View>)
    : (r: (seq<View>, seq<View>, bool))
    ensures |r.0| == |vs|
  {
    if |vs| == 0 then ([], [], true)
    else
      var first := MTail(update, condition, vs[0]);
      var (ends, throws, silent) := MTails(update, condition, vs[1..]);
      ([first.view] + ends, first.throws + throws, first.silent && silent)
  }

  /** The end of an iteration whose body is analysed as `o`, in a loop with `depth` scopes around it. */
  function MIterationEnd(o: MoveOutcome, update: Option<Expression>, condition: Option<Expression>, depth: nat)
    : MoveIteration
  {
    var views := MTailViews(o, depth);
    var breaks := CutAll(o.breaks, depth);
    if |views| == 0 then MoveIteration(None, breaks, o.throws, o.silent)
    else
      var (ends, throws, silent) := MTails(update, condition, views);
      MoveIteration(Some(JoinMany(views[0], ends)), breaks, o.throws + throws, o.silent && silent)
  }

  /** The views that reach the tail of a loop. */
  function MTailViews(o: MoveOutcome, depth: nat): seq<View> {
    (if o.reachable then [Leave(o.view)] else []) + CutAll(o.continues, depth)
  }

  function MIterate(
    bindings: seq<RangeBinding>, body: OwnStatement, update: Option<Expression>, condition: Option<Expression>,
    byReference: bool, v: View)
    : MoveIteration
    decreases body, 3
  {
    MIterationEnd(MAnalyze(body, byReference, MDeclareRange(bindings, Enter(v))), update, condition, |v|)
  }

  function MPresent(v: Option<View>): seq<View> {
    if v.Some? then [v.value] else []
  }

  /** Where a loop can be left, given its two analysed iterations. */
  function MExits(v: View, first: MoveIteration, second: MoveIteration): seq<View> {
    [v] + MPresent(first.next) + MPresent(second.next) + first.breaks + second.breaks
  }

  function MSecond(
    bindings: seq<RangeBinding>, body: OwnStatement, update: Option<Expression>, condition: Option<Expression>,
    byReference: bool, first: MoveIteration)
    : MoveIteration
    decreases body, 4
  {
    if first.next.Some? then MIterate(bindings, body, update, condition, byReference, first.next.value)
    else MoveIteration(None, [], [], true)
  }

  function MLoop(
    bindings: seq<RangeBinding>, body: OwnStatement, update: Option<Expression>, condition: Option<Expression>,
    byReference: bool, v: View)
    : MoveOutcome
    decreases body, 5
  {
    var first := MIterate(bindings, body, update, condition, byReference, v);
    var second := MSecond(bindings, body, update, condition, byReference, first);
    MBoth(first, second, JoinMany(v, MExits(v, first, second)))
  }

  /** What two iterations note, with the view there is after them. */
  function MBoth(first: MoveIteration, second: MoveIteration, end: View): MoveOutcome {
    MoveOutcome(end, true, [], [], first.throws + second.throws, first.silent && second.silent)
  }

  function MWhile(condition: Expression, body: OwnStatement, byReference: bool, v: View): MoveOutcome
    decreases body, 6
  {
    var c := MCheck(condition, v);
    MAfter(MStraight(c), MLoop([], body, None, Some(condition), byReference, c.view))
  }

  function MInitializer(initializer: Option<ForInitializer<Expression>>, v: View): MoveOutcome {
    if initializer.None? then MNothing(v)
    else match initializer.value
      case InitializerLocal(local) => MLocal(local, v)
      case InitializerExpression(e) => MStraight(MCheck(e, v))
  }

  function MFor(clause: ForClause<Expression>, body: OwnStatement, byReference: bool, v: View): MoveOutcome
    decreases body, 7
  {
    if clause.Classic? then MClassic(clause, body, byReference, v) else MRange(clause, body, byReference, v)
  }

  function MClassic(clause: ForClause<Expression>, body: OwnStatement, byReference: bool, v: View): MoveOutcome
    requires clause.Classic?
    decreases body, 6
  {
    var i := MInitializer(clause.initializer, v);
    var c := MOptional(clause.condition, i.view);
    MAfter(MAfter(i, MStraight(c)), MLoop([], body, clause.update, clause.condition, byReference, c.view))
  }

  function MRange(clause: ForClause<Expression>, body: OwnStatement, byReference: bool, v: View): MoveOutcome
    requires clause.Range?
    decreases body, 6
  {
    var c := MCheck(clause.iterable, v);
    MAfter(MStraight(c), MLoop(clause.bindings, body, None, None, byReference, c.view))
  }
}
