/** Facts about source runs: fuel only decides whether a run is finished, and handlers are tried in order. */
module RunFacts {
  import opened Wrappers
  import opened Ast
  import opened Values
  import opened SourceSemantics
  import opened LoweringCorrect
  import opened Lowering
  import Divergence
  import Rust = RustTarget

  // ----- a finished run stays the same with more fuel -----

  lemma {:induction false} MoreFuel(
    c: Context, s: SourceStatement, caught: Option<Value>, m: Machine, fuel: nat, more: nat)
    requires fuel <= more && !Exec(c, s, caught, m, fuel).0.OutOfFuel?
    ensures Exec(c, s, caught, m, more) == Exec(c, s, caught, m, fuel)
    decreases fuel, s, 1
  {
    if s.kind.BlockStatement? {
      MoreFuelInBlock(c, s.kind.block, caught, m, fuel, more);
    } else if s.kind.Try? {
      MoreFuelInTry(c, s, caught, m, fuel, more);
    } else if s.kind.If? {
      MoreFuelInIf(c, s, caught, m, fuel, more);
    } else if s.kind.While? {
      MoreFuelInWhile(c, s, caught, m, fuel, more);
    } else if s.kind.For? {
      MoreFuelInFor(c, s, caught, m, fuel, more);
    }
  }

  lemma {:induction false} MoreFuelInTry(
    c: Context, s: SourceStatement, caught: Option<Value>, m: Machine, fuel: nat, more: nat)
    requires s.kind.Try? && fuel <= more && !ExecTry(c, s, caught, m, fuel).0.OutOfFuel?
    ensures ExecTry(c, s, caught, m, more) == ExecTry(c, s, caught, m, fuel)
    decreases fuel, s, 0
  {
    MoreFuelInBlock(c, s.kind.guarded, caught, m, fuel, more);
    var (k, m1) := ExecBlock(c, s.kind.guarded, caught, m, fuel);
    if k.Throwing? {
      MoreFuelInCatches(c, s.kind.catches, k.error, m1, fuel, more);
    }
  }

  lemma {:induction false} MoreFuelInIf(
    c: Context, s: SourceStatement, caught: Option<Value>, m: Machine, fuel: nat, more: nat)
    requires s.kind.If? && fuel <= more && !ExecIf(c, s, caught, m, fuel).0.OutOfFuel?
    ensures ExecIf(c, s, caught, m, more) == ExecIf(c, s, caught, m, fuel)
    decreases fuel, s, 0
  {
    var (r, m1) := Eval(c.oracle, s.kind.condition, m);
    if r.Produced? {
      if Truthy(r.value) {
        MoreFuelInBody(c, s.kind.thenBranch, caught, m1, fuel, more);
      } else if s.kind.elseBranch.Some? {
        MoreFuelInBody(c, s.kind.elseBranch.value, caught, m1, fuel, more);
      }
      assert ExecBranch(c, s, Truthy(r.value), caught, m1, more) == ExecBranch(c, s, Truthy(r.value), caught, m1, fuel);
    }
  }

  lemma {:induction false} MoreFuelInWhile(
    c: Context, s: SourceStatement, caught: Option<Value>, m: Machine, fuel: nat, more: nat)
    requires s.kind.While? && fuel <= more && !ExecWhile(c, s, caught, m, fuel).0.OutOfFuel?
    ensures ExecWhile(c, s, caught, m, more) == ExecWhile(c, s, caught, m, fuel)
    decreases fuel, s, 0
  {
    var (r, m1) := Eval(c.oracle, s.kind.condition, m);
    if r.Produced? && Truthy(r.value) {
      MoreFuelInBody(c, s.kind.body, caught, m1, fuel, more);
    }
    assert WhileRound(c, s, caught, m, more) == WhileRound(c, s, caught, m, fuel);
    var (k, m2) := WhileRound(c, s, caught, m, fuel);
    if k.Normal? || k.Continuing? {
      MoreFuelInWhile(c, s, caught, m2, fuel - 1, more - 1);
    }
  }

  lemma {:induction false} MoreFuelInBody(
    c: Context, s: SourceStatement, caught: Option<Value>, m: Machine, fuel: nat, more: nat)
    requires fuel <= more && !ExecScoped(c, s, caught, m, fuel).0.OutOfFuel?
    ensures ExecScoped(c, s, caught, m, more) == ExecScoped(c, s, caught, m, fuel)
    decreases fuel, s, 2
  {
    MoreFuel(c, s, caught, m, fuel, more);
  }

  lemma {:induction false} MoreFuelInList(
    c: Context, ss: seq<SourceStatement>, caught: Option<Value>, m: Machine, fuel: nat, more: nat)
    requires fuel <= more && !ExecStatements(c, ss, caught, m, fuel).0.OutOfFuel?
    ensures ExecStatements(c, ss, caught, m, more) == ExecStatements(c, ss, caught, m, fuel)
    decreases fuel, ss
  {
    if |ss| > 0 {
      MoreFuel(c, ss[0], caught, m, fuel, more);
      var (k, m1) := Exec(c, ss[0], caught, m, fuel);
      if k.Normal? {
        MoreFuelInList(c, ss[1..], caught, m1, fuel, more);
      }
    }
  }

  lemma {:induction false} MoreFuelInBlock(
    c: Context, b: SourceBlock, caught: Option<Value>, m: Machine, fuel: nat, more: nat)
    requires fuel <= more && !ExecBlock(c, b, caught, m, fuel).0.OutOfFuel?
    ensures ExecBlock(c, b, caught, m, more) == ExecBlock(c, b, caught, m, fuel)
    decreases fuel, b
  {
    MoreFuelInList(c, b.statements, caught, m, fuel, more);
  }

  lemma {:induction false} MoreFuelInCatches(
    c: Context, catches: seq<SourceCatch>, error: Value, m: Machine, fuel: nat, more: nat)
    requires fuel <= more && !ExecCatches(c, catches, error, m, fuel).0.OutOfFuel?
    ensures ExecCatches(c, catches, error, m, more) == ExecCatches(c, catches, error, m, fuel)
    decreases fuel, catches
  {
    if |catches| > 0 {
      if Handles(catches[0], error) {
        MoreFuelInHandler(c, catches[0], error, m, fuel, more);
      } else {
        MoreFuelInCatches(c, catches[1..], error, m, fuel, more);
      }
    }
  }

  lemma {:induction false} MoreFuelInHandler(
    c: Context, clause: SourceCatch, error: Value, m: Machine, fuel: nat, more: nat)
    requires fuel <= more && Handles(clause, error) && !ExecHandler(c, clause, error, m, fuel).0.OutOfFuel?
    ensures ExecHandler(c, clause, error, m, more) == ExecHandler(c, clause, error, m, fuel)
    decreases fuel, clause
  {
    MoreFuelInBlock(c, clause.body, Some(error), m.(env := m.env + HandlerScope(clause, error)), fuel, more);
  }

  lemma {:induction false} MoreFuelInFor(
    c: Context, s: SourceStatement, caught: Option<Value>, m: Machine, fuel: nat, more: nat)
    requires s.kind.For? && fuel <= more && !ExecFor(c, s, caught, m, fuel).0.OutOfFuel?
    ensures ExecFor(c, s, caught, m, more) == ExecFor(c, s, caught, m, fuel)
    decreases fuel, s, 0, 3
  {
    if s.kind.clause.Classic? {
      var (k, m1) := Setup(c, s.kind.clause.initializer, m);
      if k.Normal? {
        MoreFuelInClassic(c, s, caught, m1, fuel, more);
      }
    } else {
      var (a, m1) := RangeElements(c, s.kind.clause.iterable, s.kind.clause.json, m);
      if a.Produced? {
        MoreFuelInRange(c, s, caught, if a.value.Collection? then a.value.elements else [], m1, fuel, more);
      }
    }
  }

  lemma {:induction false} MoreFuelInClassic(
    c: Context, s: SourceStatement, caught: Option<Value>, m: Machine, fuel: nat, more: nat)
    requires s.kind.For? && s.kind.clause.Classic? && fuel <= more
    requires !ExecClassic(c, s, caught, m, fuel).0.OutOfFuel?
    ensures ExecClassic(c, s, caught, m, more) == ExecClassic(c, s, caught, m, fuel)
    decreases fuel, s, 0, 1
  {
    var (r, m1) := Test(c, s.kind.clause.condition, m);
    if r.Produced? && Truthy(r.value) {
      MoreFuelInBody(c, s.kind.body, caught, m1, fuel, more);
    }
    assert ClassicRound(c, s, caught, m, more) == ClassicRound(c, s, caught, m, fuel);
    var (k, m2) := ClassicRound(c, s, caught, m, fuel);
    if k.Normal? || k.Continuing? {
      MoreFuelInUpdate(c, s, caught, m2, fuel - 1, more - 1);
    }
  }

  lemma {:induction false} MoreFuelInUpdate(
    c: Context, s: SourceStatement, caught: Option<Value>, m: Machine, fuel: nat, more: nat)
    requires s.kind.For? && s.kind.clause.Classic? && fuel <= more
    requires !ExecUpdate(c, s, caught, m, fuel).0.OutOfFuel?
    ensures ExecUpdate(c, s, caught, m, more) == ExecUpdate(c, s, caught, m, fuel)
    decreases fuel, s, 0, 2
  {
    var update := s.kind.clause.update;
    var (u, m1) := if update.None? then (Normal, m) else Discard(c, update.value, m);
    if !u.Throwing? {
      MoreFuelInClassic(c, s, caught, m1, fuel, more);
    }
  }

  lemma {:induction false} MoreFuelInRange(
    c: Context, s: SourceStatement, caught: Option<Value>, elements: seq<Value>, m: Machine, fuel: nat, more: nat)
    requires s.kind.For? && s.kind.clause.Range? && fuel <= more
    requires !ExecRange(c, s, caught, elements, m, fuel).0.OutOfFuel?
    ensures ExecRange(c, s, caught, elements, m, more) == ExecRange(c, s, caught, elements, m, fuel)
    decreases fuel, s, 0, 0, |elements|
  {
    if |elements| > 0 {
      var names := RangeNames(s.kind.clause.bindings);
      var m0 := m.(env := m.env + BindAll(names, Components(elements[0], |names|)));
      MoreFuelInBody(c, s.kind.body, caught, m0, fuel, more);
      var (k, m1) := ExecScoped(c, s.kind.body, caught, m0, fuel);
      if k.Normal? || k.Continuing? {
        MoreFuelInRange(c, s, caught, elements[1..], Leave(|m.env|, m1), fuel, more);
      }
    }
  }

  /** A call has at most one end, whatever fuel it is given. */
  lemma EndIsUnique(c: Context, body: SourceBlock, m: Machine, fuel: nat, other: nat)
    requires !Run(c, body, m, fuel).0.Unfinished? && !Run(c, body, m, other).0.Unfinished?
    ensures Run(c, body, m, fuel) == Run(c, body, m, other)
  {
    MoreFuelInList(c, body.statements, None, m, if fuel <= other then fuel else other,
      if fuel <= other then other else fuel);
  }

  /** The emitted function terminates exactly when the source function does, with the same end. */
  lemma TerminationPreserved(
    o: Oracle, signature: Signature, body: SourceBlock, n: Counters, t: nat, env: Env, world: int)
    requires LowerFunction(signature, body, n).Success?
    requires forall fuel: nat :: EndsWithValue(o, signature, body, Machine(env, world), fuel)
    requires AllVisible(env)
    ensures var c, m := Context(o, IsFluent(signature)), Machine(env, world);
            (exists fuel: nat :: !Run(c, body, m, fuel).0.Unfinished?)
            <==> (exists fuel: nat :: !Rust.Run(o, Compile(signature, body, n, t), m, fuel).0.OutOfFuel?)
  {
    var c, m := Context(o, IsFluent(signature)), Machine(env, world);
    forall fuel: nat
      ensures Run(c, body, m, fuel).0.Unfinished? <==> Rust.Run(o, Compile(signature, body, n, t), m, fuel).0.OutOfFuel?
    {
      assert EndsWithValue(o, signature, body, m, fuel);
      CompilationPreservesMeaning(o, signature, body, n, t, env, world, fuel);
    }
  }

  // ----- handlers -----

  /** Index of the first handler that accepts `error`, or the number of handlers. */
  function FirstHandler(catches: seq<SourceCatch>, error: Value): (i: nat)
    ensures i <= |catches|
    ensures i < |catches| ==> Handles(catches[i], error)
    ensures forall j :: 0 <= j < i ==> !Handles(catches[j], error)
  {
    if |catches| == 0 || Handles(catches[0], error) then 0
    else
      var i := FirstHandler(catches[1..], error);
      assert forall j :: 0 < j < i + 1 ==> catches[j] == catches[1..][j - 1];
      i + 1
  }

  /**
   Only the first accepting handler runs, with the whole error as the one a bare `throw;` raises
   again; what it raises itself is not offered to its siblings. An unmatched error goes on unchanged.
   */
  lemma {:induction false} CatchDispatch(c: Context, catches: seq<SourceCatch>, error: Value, m: Machine, fuel: nat)
    ensures var i := FirstHandler(catches, error);
            ExecCatches(c, catches, error, m, fuel)
            == if i == |catches| then (Throwing(error), m)
               else
                 var inside := m.(env := m.env + HandlerScope(catches[i], error));
                 var (k, m1) := ExecBlock(c, catches[i].body, Some(error), inside, fuel);
                 (k, Leave(|m.env|, m1))
    decreases |catches|
  {
    if |catches| > 0 && !Handles(catches[0], error) {
      CatchDispatch(c, catches[1..], error, m, fuel);
    }
  }
}
