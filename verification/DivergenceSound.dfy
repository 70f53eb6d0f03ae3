/** The end-of-block analyses are right about every run. */
module DivergenceSound {
  import opened Wrappers
  import opened Ast
  import opened Values
  import opened Divergence
  import opened SourceSemantics

  lemma {:induction false} DefinitelyReturnsDoesNotFallThrough<E>(s: Statement<E>)
    ensures DefinitelyReturns(s) ==> !MayFallThrough(s)
    decreases s, 1
  {
    match s.kind
    case BlockStatement(b) => BlockDefinitelyReturnsDoesNotFallThrough(b);
    case If(_, thenBranch, elseBranch) =>
      DefinitelyReturnsDoesNotFallThrough(thenBranch);
      if elseBranch.Some? {
        DefinitelyReturnsDoesNotFallThrough(elseBranch.value);
      }
    case Try(guarded, catches) =>
      BlockDefinitelyReturnsDoesNotFallThrough(guarded);
      CatchesDefinitelyReturn(catches);
    case _ =>
  }

  lemma {:induction false} BlockDefinitelyReturnsDoesNotFallThrough<E>(b: Block<E>)
    ensures BlockDefinitelyReturns(b) ==> !BlockMayFallThrough(b)
    decreases b
  {
    if |b.statements| > 0 {
      DefinitelyReturnsDoesNotFallThrough(Last(b.statements));
    }
  }

  lemma {:induction false} CatchesDefinitelyReturn<E>(catches: seq<CatchClause<E>>)
    ensures AllDefinitelyReturn(catches) ==> !AnyMayFallThrough(catches)
    decreases catches
  {
    if |catches| > 0 {
      ClauseDefinitelyReturnsDoesNotFallThrough(catches[0]);
      CatchesDefinitelyReturn(catches[1..]);
    }
  }

  lemma {:induction false} ClauseDefinitelyReturnsDoesNotFallThrough<E>(clause: CatchClause<E>)
    ensures ClauseDefinitelyReturns(clause) ==> !ClauseMayFallThrough(clause)
    decreases clause
  {
    BlockDefinitelyReturnsDoesNotFallThrough(clause.body);
  }

  // ----- how a statement can end, by its text -----

  /** Contains a `break` of the loop it is in. */
  predicate Breaks(s: SourceStatement)
    decreases s
  {
    match s.kind
    case Break => true
    case BlockStatement(b) => ListBreaks(b.statements)
    case If(_, yes, no) => Breaks(yes) || (no.Some? && Breaks(no.value))
    case Try(guarded, catches) => ListBreaks(guarded.statements) || SomeBreaks(catches)
    case _ => false
  }

  predicate ListBreaks(ss: seq<SourceStatement>)
    decreases ss
  {
    |ss| > 0 && (Breaks(ss[0]) || ListBreaks(ss[1..]))
  }

  predicate SomeBreaks(catches: seq<SourceCatch>)
    decreases catches
  {
    |catches| > 0 && (ClauseBreaks(catches[0]) || SomeBreaks(catches[1..]))
  }

  predicate ClauseBreaks(clause: SourceCatch)
    decreases clause
  {
    ListBreaks(clause.body.statements)
  }

  /** May end normally; in particular no loop without a condition and without a `break`. */
  predicate CanEnd(s: SourceStatement)
    decreases s
  {
    match s.kind
    case Return(_) => false
    case Throw(_) => false
    case Break => false
    case Continue => false
    case BlockStatement(b) => ListCanEnd(b.statements)
    case If(_, yes, no) => CanEnd(yes) || (no.Some? ==> CanEnd(no.value))
    case Try(guarded, catches) => ListCanEnd(guarded.statements) || SomeCanEnd(catches)
    case For(clause, body) => clause.Classic? && clause.condition.None? ==> Breaks(body)
    case _ => true
  }

  predicate ListCanEnd(ss: seq<SourceStatement>)
    decreases ss
  {
    |ss| > 0 ==> CanEnd(ss[0]) && ListCanEnd(ss[1..])
  }

  predicate SomeCanEnd(catches: seq<SourceCatch>)
    decreases catches
  {
    |catches| > 0 && (ClauseCanEnd(catches[0]) || SomeCanEnd(catches[1..]))
  }

  predicate ClauseCanEnd(clause: SourceCatch)
    decreases clause
  {
    ListCanEnd(clause.body.statements)
  }

  /** What can end normally may fall through. */
  lemma {:induction false} CanEndFallsThrough(s: SourceStatement)
    ensures CanEnd(s) ==> MayFallThrough(s)
    decreases s
  {
    match s.kind
    case BlockStatement(b) => ListCanEndFallsThrough(b.statements);
    case If(_, yes, no) =>
      CanEndFallsThrough(yes);
      if no.Some? {
        CanEndFallsThrough(no.value);
      }
    case Try(guarded, catches) =>
      ListCanEndFallsThrough(guarded.statements);
      CatchesCanEndFallThrough(catches);
    case _ =>
  }

  lemma {:induction false} ListCanEndFallsThrough(ss: seq<SourceStatement>)
    ensures ListCanEnd(ss) ==> |ss| == 0 || MayFallThrough(Last(ss))
    decreases ss
  {
    if |ss| > 0 {
      CanEndFallsThrough(ss[0]);
      ListCanEndFallsThrough(ss[1..]);
    }
  }

  lemma {:induction false} CatchesCanEndFallThrough(catches: seq<SourceCatch>)
    ensures SomeCanEnd(catches) ==> AnyMayFallThrough(catches)
    decreases catches
  {
    if |catches| > 0 {
      ClauseCanEndFallsThrough(catches[0]);
      CatchesCanEndFallThrough(catches[1..]);
    }
  }

  lemma {:induction false} ClauseCanEndFallsThrough(clause: SourceCatch)
    ensures ClauseCanEnd(clause) ==> ClauseMayFallThrough(clause)
    decreases clause
  {
    ListCanEndFallsThrough(clause.body.statements);
  }

  // ----- how a statement ends in a run -----

  ghost predicate EndsAsWritten(k: Completion, s: SourceStatement) {
    (k.Normal? ==> CanEnd(s)) && (k.Breaking? ==> Breaks(s))
  }

  ghost predicate ListEndsAsWritten(k: Completion, ss: seq<SourceStatement>) {
    (k.Normal? ==> ListCanEnd(ss)) && (k.Breaking? ==> ListBreaks(ss))
  }

  lemma ScopedEnd(c: Context, s: SourceStatement, caught: Option<Value>, m: Machine, fuel: nat)
    ensures ExecScoped(c, s, caught, m, fuel).0 == Exec(c, s, caught, m, fuel).0
  {
  }

  /** In every run a statement ends as its text says it can. */
  lemma {:induction false} RunsEndAsWritten(
    c: Context, s: SourceStatement, caught: Option<Value>, m: Machine, fuel: nat)
    ensures EndsAsWritten(Exec(c, s, caught, m, fuel).0, s)
    decreases fuel, s, 1
  {
    if s.kind.BlockStatement? {
      BlockEndsAsWritten(c, s.kind.block, caught, m, fuel);
    } else if s.kind.If? {
      IfEndsAsWritten(c, s, caught, m, fuel);
    } else if s.kind.Try? {
      TryEndsAsWritten(c, s, caught, m, fuel);
    } else if s.kind.While? {
      WhileNeverBreaks(c, s, caught, m, fuel);
    } else if s.kind.For? {
      ForEndsAsWritten(c, s, caught, m, fuel);
    }
  }

  lemma {:induction false} BlockEndsAsWritten(
    c: Context, b: SourceBlock, caught: Option<Value>, m: Machine, fuel: nat)
    ensures ListEndsAsWritten(ExecBlock(c, b, caught, m, fuel).0, b.statements)
    decreases fuel, b
  {
    ListRunsEndAsWritten(c, b.statements, caught, m, fuel);
  }

  lemma {:induction false} ListRunsEndAsWritten(
    c: Context, ss: seq<SourceStatement>, caught: Option<Value>, m: Machine, fuel: nat)
    ensures ListEndsAsWritten(ExecStatements(c, ss, caught, m, fuel).0, ss)
    decreases fuel, ss
  {
    if |ss| > 0 {
      RunsEndAsWritten(c, ss[0], caught, m, fuel);
      var (k, m1) := Exec(c, ss[0], caught, m, fuel);
      ListRunsEndAsWritten(c, ss[1..], caught, m1, fuel);
    }
  }

  lemma {:induction false} IfEndsAsWritten(
    c: Context, s: SourceStatement, caught: Option<Value>, m: Machine, fuel: nat)
    requires s.kind.If?
    ensures EndsAsWritten(ExecIf(c, s, caught, m, fuel).0, s)
    decreases fuel, s, 0
  {
    var yes, no := s.kind.thenBranch, s.kind.elseBranch;
    var (r, m1) := Eval(c.oracle, s.kind.condition, m);
    RunsEndAsWritten(c, yes, caught, m1, fuel);
    ScopedEnd(c, yes, caught, m1, fuel);
    if no.Some? {
      RunsEndAsWritten(c, no.value, caught, m1, fuel);
      ScopedEnd(c, no.value, caught, m1, fuel);
    }
    if r.Produced? {
      assert ExecIf(c, s, caught, m, fuel) == ExecBranch(c, s, Truthy(r.value), caught, m1, fuel);
    }
  }

  lemma {:induction false} TryEndsAsWritten(
    c: Context, s: SourceStatement, caught: Option<Value>, m: Machine, fuel: nat)
    requires s.kind.Try?
    ensures EndsAsWritten(ExecTry(c, s, caught, m, fuel).0, s)
    decreases fuel, s, 0
  {
    var (k, m1) := ExecBlock(c, s.kind.guarded, caught, m, fuel);
    BlockEndsAsWritten(c, s.kind.guarded, caught, m, fuel);
    if k.Throwing? {
      CatchesEndAsWritten(c, s.kind.catches, k.error, m1, fuel);
    }
  }

  lemma {:induction false} CatchesEndAsWritten(
    c: Context, catches: seq<SourceCatch>, error: Value, m: Machine, fuel: nat)
    ensures var k := ExecCatches(c, catches, error, m, fuel).0;
            (k.Normal? ==> SomeCanEnd(catches)) && (k.Breaking? ==> SomeBreaks(catches))
    decreases fuel, catches
  {
    if |catches| > 0 {
      if Handles(catches[0], error) {
        HandlerEndsAsWritten(c, catches[0], error, m, fuel);
      } else {
        CatchesEndAsWritten(c, catches[1..], error, m, fuel);
      }
    }
  }

  lemma {:induction false} HandlerEndsAsWritten(
    c: Context, clause: SourceCatch, error: Value, m: Machine, fuel: nat)
    requires Handles(clause, error)
    ensures ListEndsAsWritten(ExecHandler(c, clause, error, m, fuel).0, clause.body.statements)
    decreases fuel, clause
  {
    BlockEndsAsWritten(c, clause.body, Some(error), m.(env := m.env + HandlerScope(clause, error)), fuel);
  }

  lemma {:induction false} WhileNeverBreaks(
    c: Context, s: SourceStatement, caught: Option<Value>, m: Machine, fuel: nat)
    requires s.kind.While?
    ensures !ExecWhile(c, s, caught, m, fuel).0.Breaking?
    decreases fuel
  {
    if fuel > 0 {
      WhileNeverBreaks(c, s, caught, WhileRound(c, s, caught, m, fuel).1, fuel - 1);
    }
  }

  lemma SetupEnds(c: Context, initializer: Option<ForInitializer<FlowExpression>>, m: Machine)
    ensures Setup(c, initializer, m).0.Normal? || Setup(c, initializer, m).0.Throwing?
  {
  }

  lemma {:induction false} ForEndsAsWritten(
    c: Context, s: SourceStatement, caught: Option<Value>, m: Machine, fuel: nat)
    requires s.kind.For?
    ensures EndsAsWritten(ExecForStatement(c, s, caught, m, fuel).0, s)
    decreases fuel, s, 0
  {
    assert ExecForStatement(c, s, caught, m, fuel).0 == ExecFor(c, s, caught, m, fuel).0;
    if s.kind.clause.Classic? {
      SetupEnds(c, s.kind.clause.initializer, m);
      ClassicEndsAsWritten(c, s, caught, Setup(c, s.kind.clause.initializer, m).1, fuel);
    } else {
      var (a, m1) := RangeElements(c, s.kind.clause.iterable, s.kind.clause.json, m);
      if a.Produced? {
        RangeNeverBreaks(c, s, caught, if a.value.Collection? then a.value.elements else [], m1, fuel);
      }
    }
  }

  lemma {:induction false} RoundEndsAsWritten(
    c: Context, s: SourceStatement, caught: Option<Value>, m: Machine, fuel: nat)
    requires s.kind.For? && s.kind.clause.Classic?
    ensures ClassicRound(c, s, caught, m, fuel).0.Breaking? ==> CanEnd(s)
    decreases fuel, s, 0, 0
  {
    var (r, m1) := Test(c, s.kind.clause.condition, m);
    RunsEndAsWritten(c, s.kind.body, caught, m1, fuel);
    ScopedEnd(c, s.kind.body, caught, m1, fuel);
    if s.kind.clause.condition.None? {
      assert r == Produced(Flag(true)) && Truthy(r.value);
    }
  }

  lemma {:induction false} ClassicEndsAsWritten(
    c: Context, s: SourceStatement, caught: Option<Value>, m: Machine, fuel: nat)
    requires s.kind.For? && s.kind.clause.Classic?
    ensures EndsAsWritten(ExecClassic(c, s, caught, m, fuel).0, s)
    decreases fuel, s, 0, 1
  {
    if fuel > 0 {
      RoundEndsAsWritten(c, s, caught, m, fuel);
      UpdateEndsAsWritten(c, s, caught, ClassicRound(c, s, caught, m, fuel).1, fuel - 1);
    }
  }

  lemma {:induction false} UpdateEndsAsWritten(
    c: Context, s: SourceStatement, caught: Option<Value>, m: Machine, fuel: nat)
    requires s.kind.For? && s.kind.clause.Classic?
    ensures EndsAsWritten(ExecUpdate(c, s, caught, m, fuel).0, s)
    decreases fuel, s, 0, 2
  {
    if fuel > 0 {
      var update := s.kind.clause.update;
      var m1 := (if update.None? then (Normal, m) else Discard(c, update.value, m)).1;
      ClassicEndsAsWritten(c, s, caught, m1, fuel);
    }
  }

  lemma {:induction false} RangeNeverBreaks(
    c: Context, s: SourceStatement, caught: Option<Value>, elements: seq<Value>, m: Machine, fuel: nat)
    requires s.kind.For? && s.kind.clause.Range?
    ensures !ExecRange(c, s, caught, elements, m, fuel).0.Breaking?
    decreases |elements|
  {
    if |elements| > 0 {
      var names := RangeNames(s.kind.clause.bindings);
      var scope := BindAll(names, Components(elements[0], |names|));
      var m1 := ExecScoped(c, s.kind.body, caught, m.(env := m.env + scope), fuel).1;
      RangeNeverBreaks(c, s, caught, elements[1..], Leave(|m.env|, m1), fuel);
    }
  }

  // ----- the analyses -----

  lemma NormalBlockFallsThrough(c: Context, b: SourceBlock, caught: Option<Value>, m: Machine, fuel: nat)
    ensures ExecBlock(c, b, caught, m, fuel).0.Normal? ==> BlockMayFallThrough(b)
  {
    NormalStatementsFallThrough(c, b.statements, caught, m, fuel);
  }

  /** Statements that end normally in some run are ones that may fall through. */
  lemma NormalStatementsFallThrough(
    c: Context, ss: seq<SourceStatement>, caught: Option<Value>, m: Machine, fuel: nat)
    ensures ExecStatements(c, ss, caught, m, fuel).0.Normal? ==> |ss| == 0 || MayFallThrough(Last(ss))
  {
    ListRunsEndAsWritten(c, ss, caught, m, fuel);
    ListCanEndFallsThrough(ss);
  }

  /**
   Both analyses are sound: a block that `BlockDefinitelyReturns`, or that is not
   `BlockMayFallThrough`, ends normally in no run.
   */
  lemma StaticDivergenceIsSound(c: Context, b: SourceBlock, caught: Option<Value>, m: Machine, fuel: nat)
    requires BlockDefinitelyReturns(b) || !BlockMayFallThrough(b)
    ensures !ExecBlock(c, b, caught, m, fuel).0.Normal?
  {
    BlockDefinitelyReturnsDoesNotFallThrough(b);
    NormalBlockFallsThrough(c, b, caught, m, fuel);
  }

  /** A loop without a condition whose body never breaks out of it ends normally in no run. */
  lemma EndlessLoopsDoNotFallThrough(c: Context, s: SourceStatement, caught: Option<Value>, m: Machine, fuel: nat)
    requires s.kind.For? && s.kind.clause.Classic? && s.kind.clause.condition.None?
    requires forall n, f :: !ExecScoped(c, s.kind.body, caught, n, f).0.Breaking?
    ensures !Exec(c, s, caught, m, fuel).0.Normal?
  {
    EndlessRoundsGoOn(c, s, caught, Setup(c, s.kind.clause.initializer, m).1, fuel);
    assert Exec(c, s, caught, m, fuel).0 == ExecFor(c, s, caught, m, fuel).0;
  }

  lemma {:induction false} EndlessRoundsGoOn(
    c: Context, s: SourceStatement, caught: Option<Value>, m: Machine, fuel: nat)
    requires s.kind.For? && s.kind.clause.Classic? && s.kind.clause.condition.None?
    requires forall n, f :: !ExecScoped(c, s.kind.body, caught, n, f).0.Breaking?
    ensures !ExecClassic(c, s, caught, m, fuel).0.Normal?
    decreases fuel
  {
    if fuel > 0 {
      var (k, m1) := ClassicRound(c, s, caught, m, fuel);
      assert !ExecScoped(c, s.kind.body, caught, m, fuel).0.Breaking?;
      var update := s.kind.clause.update;
      if (k.Normal? || k.Continuing?) && fuel > 1 {
        EndlessRoundsGoOn(
          c, s, caught, (if update.None? then (Normal, m1) else Discard(c, update.value, m1)).1, fuel - 1);
      }
    }
  }
}
