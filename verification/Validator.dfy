/**
 The structural checks that run before lowering, and what they do and do not promise it. Only the
 rules about control flow are modelled.
 */
module Validator {
  import opened Wrappers
  import opened Ast
  import opened Lowering
  import Source = SourceSemantics
  import Hir

  // ----- the reports, in the order in which they are made -----

  function ReportsOfBlock(b: Source.SourceBlock, loopDepth: nat, catchDepth: nat, returnsVoid: bool): seq<string>
    decreases b
  {
    ReportsOfList(b.statements, loopDepth, catchDepth, returnsVoid)
  }

  function ReportsOfList(ss: seq<Source.SourceStatement>, loopDepth: nat, catchDepth: nat, returnsVoid: bool)
    : seq<string>
    decreases ss
  {
    if |ss| == 0 then []
    else Reports(ss[0], loopDepth, catchDepth, returnsVoid) + ReportsOfList(ss[1..], loopDepth, catchDepth, returnsVoid)
  }

  function ReportsOfCatches(catches: seq<Source.SourceCatch>, loopDepth: nat, catchDepth: nat, returnsVoid: bool)
    : seq<string>
    decreases catches
  {
    if |catches| == 0 then []
    else
      MisplacedCatchAll(catches)
      + ReportsOfClause(catches[0], loopDepth, catchDepth + 1, returnsVoid)
      + ReportsOfCatches(catches[1..], loopDepth, catchDepth, returnsVoid)
  }

  function ReportsOfClause(clause: Source.SourceCatch, loopDepth: nat, catchDepth: nat, returnsVoid: bool): seq<string>
    decreases clause
  {
    ReportsOfBlock(clause.body, loopDepth, catchDepth, returnsVoid)
  }

  /** `catch (...)` must be the final handler. */
  function MisplacedCatchAll(catches: seq<Source.SourceCatch>): seq<string>
    requires |catches| > 0
  {
    if catches[0].binding.None? && |catches| > 1 then ["SEM013"] else []
  }

  function Reports(s: Source.SourceStatement, loopDepth: nat, catchDepth: nat, returnsVoid: bool): seq<string>
    decreases s
  {
    match s.kind
    case BlockStatement(b) => ReportsOfBlock(b, loopDepth, catchDepth, returnsVoid)
    case Return(value) =>
      if returnsVoid && value.Some? then ["SEM005"] else if !returnsVoid && value.None? then ["SEM006"] else []
    case Throw(error) => if error.None? && catchDepth == 0 then ["SEM011"] else []
    case Try(guarded, catches) =>
      ReportsOfBlock(guarded, loopDepth, catchDepth, returnsVoid)
      + ReportsOfCatches(catches, loopDepth, catchDepth, returnsVoid)
    case If(_, thenBranch, elseBranch) =>
      Reports(thenBranch, loopDepth, catchDepth, returnsVoid)
      + (if elseBranch.Some? then Reports(elseBranch.value, loopDepth, catchDepth, returnsVoid) else [])
    case While(_, body) => Reports(body, loopDepth + 1, catchDepth, returnsVoid)
    case For(_, body) => Reports(body, loopDepth + 1, catchDepth, returnsVoid)
    case Break => if loopDepth == 0 then ["SEM007"] else []
    case Continue => if loopDepth == 0 then ["SEM008"] else []
    case _ => []
  }

  lemma NextCatch(catches: seq<Source.SourceCatch>, loopDepth: nat, catchDepth: nat, returnsVoid: bool)
    requires |catches| > 0
    ensures ReportsOfCatches(catches, loopDepth, catchDepth, returnsVoid)
            == ((if catches[0].binding.None? && |catches| > 1 then ["SEM013"] else [])
                + ReportsOfClause(catches[0], loopDepth, catchDepth + 1, returnsVoid))
               + ReportsOfCatches(catches[1..], loopDepth, catchDepth, returnsVoid)
  {
  }

  /** The pass itself. */
  class StructuralValidator {
    var diagnostics: seq<string>
    var catchDepth: nat

    constructor ()
      ensures diagnostics == [] && catchDepth == 0
    {
      diagnostics, catchDepth := [], 0;
    }

    method ValidateList(ss: seq<Source.SourceStatement>, loopDepth: nat, returnsVoid: bool)
      modifies this
      ensures catchDepth == old(catchDepth)
      ensures diagnostics == old(diagnostics) + ReportsOfList(ss, loopDepth, old(catchDepth), returnsVoid)
      decreases ss, 0
    {
      var i := 0;
      while i < |ss|
        invariant 0 <= i <= |ss|
        invariant catchDepth == old(catchDepth)
        invariant diagnostics + ReportsOfList(ss[i..], loopDepth, catchDepth, returnsVoid)
               == old(diagnostics) + ReportsOfList(ss, loopDepth, catchDepth, returnsVoid)
      {
        ValidateStatement(ss[i], loopDepth, returnsVoid);
        assert ss[i..][1..] == ss[i + 1..];
        i := i + 1;
      }
    }

    method ValidateStatement(s: Source.SourceStatement, loopDepth: nat, returnsVoid: bool)
      modifies this
      ensures catchDepth == old(catchDepth)
      ensures diagnostics == old(diagnostics) + Reports(s, loopDepth, old(catchDepth), returnsVoid)
      decreases s, 1
    {
      match s.kind {
        case BlockStatement(b) =>
          ValidateList(b.statements, loopDepth, returnsVoid);
        case Return(value) =>
          if returnsVoid && value.Some? {
            diagnostics := diagnostics + ["SEM005"];
          } else if !returnsVoid && value.None? {
            diagnostics := diagnostics + ["SEM006"];
          }
        case Throw(error) =>
          if error.None? && catchDepth == 0 {
            diagnostics := diagnostics + ["SEM011"];
          }
        case Try(guarded, catches) =>
          ValidateList(guarded.statements, loopDepth, returnsVoid);
          ValidateCatches(catches, loopDepth, returnsVoid);
        case If(_, thenBranch, elseBranch) =>
          ValidateStatement(thenBranch, loopDepth, returnsVoid);
          if elseBranch.Some? {
            ValidateStatement(elseBranch.value, loopDepth, returnsVoid);
          }
        case While(_, body) =>
          ValidateStatement(body, loopDepth + 1, returnsVoid);
        case For(_, body) =>
          ValidateStatement(body, loopDepth + 1, returnsVoid);
        case Break =>
          if loopDepth == 0 {
            diagnostics := diagnostics + ["SEM007"];
          }
        case Continue =>
          if loopDepth == 0 {
            diagnostics := diagnostics + ["SEM008"];
          }
        case _ =>
      }
    }

    method ValidateCatches(catches: seq<Source.SourceCatch>, loopDepth: nat, returnsVoid: bool)
      modifies this
      ensures catchDepth == old(catchDepth)
      ensures diagnostics == old(diagnostics) + ReportsOfCatches(catches, loopDepth, old(catchDepth), returnsVoid)
      decreases catches, 0
    {
      var i := 0;
      while i < |catches|
        invariant 0 <= i <= |catches|
        invariant catchDepth == old(catchDepth)
        invariant diagnostics + ReportsOfCatches(catches[i..], loopDepth, catchDepth, returnsVoid)
               == old(diagnostics) + ReportsOfCatches(catches, loopDepth, catchDepth, returnsVoid)
      {
        ValidateCatch(catches[i], i + 1 == |catches|, loopDepth, returnsVoid);
        NextCatch(catches[i..], loopDepth, catchDepth, returnsVoid);
        assert catches[i..][1..] == catches[i + 1..];
        i := i + 1;
      }
    }

    method ValidateCatch(clause: Source.SourceCatch, final: bool, loopDepth: nat, returnsVoid: bool)
      modifies this
      ensures catchDepth == old(catchDepth)
      ensures diagnostics
           == old(diagnostics)
              + ((if clause.binding.None? && !final then ["SEM013"] else [])
                 + ReportsOfClause(clause, loopDepth, old(catchDepth) + 1, returnsVoid))
      decreases clause, 1
    {
      if clause.binding.None? && !final {
        diagnostics := diagnostics + ["SEM013"];
      }
      catchDepth := catchDepth + 1;
      ValidateClause(clause, loopDepth, returnsVoid);
      catchDepth := catchDepth - 1;
    }

    method ValidateClause(clause: Source.SourceCatch, loopDepth: nat, returnsVoid: bool)
      modifies this
      ensures catchDepth == old(catchDepth)
      ensures diagnostics == old(diagnostics) + ReportsOfClause(clause, loopDepth, old(catchDepth), returnsVoid)
      decreases clause, 0
    {
      ValidateList(clause.body.statements, loopDepth, returnsVoid);
    }
  }

  // ----- what lowering needs -----

  /** Jumps sit in loops, rethrows directly in handlers, and no branch is a lone semicolon. */
  predicate Lowerable(s: Source.SourceStatement, inLoop: bool, inCatch: bool)
    decreases s
  {
    match s.kind
    case BlockStatement(b) => BlockLowerable(b, inLoop, inCatch)
    case Throw(error) => error.Some? || inCatch
    case Try(guarded, catches) => BlockLowerable(guarded, inLoop, false) && CatchesLowerable(catches, inLoop)
    case If(_, thenBranch, elseBranch) =>
      Lowerable(thenBranch, inLoop, inCatch) && (elseBranch.Some? ==> Lowerable(elseBranch.value, inLoop, inCatch))
    case While(_, body) => Lowerable(body, true, inCatch)
    case For(_, body) => Lowerable(body, true, inCatch)
    case Break => inLoop
    case Continue => inLoop
    case Empty => false
    case _ => true
  }

  predicate BlockLowerable(b: Source.SourceBlock, inLoop: bool, inCatch: bool)
    decreases b
  {
    ListLowerable(b.statements, inLoop, inCatch)
  }

  predicate ListLowerable(ss: seq<Source.SourceStatement>, inLoop: bool, inCatch: bool)
    decreases ss
  {
    |ss| == 0 || ((ss[0].kind.Empty? || Lowerable(ss[0], inLoop, inCatch)) && ListLowerable(ss[1..], inLoop, inCatch))
  }

  predicate CatchesLowerable(catches: seq<Source.SourceCatch>, inLoop: bool)
    decreases catches
  {
    |catches| == 0 || (ClauseLowerable(catches[0], inLoop) && CatchesLowerable(catches[1..], inLoop))
  }

  predicate ClauseLowerable(clause: Source.SourceCatch, inLoop: bool)
    decreases clause
  {
    BlockLowerable(clause.body, inLoop, true)
  }

  lemma {:induction false} LoweringAccepts(s: Source.SourceStatement, x: Enclosing, n: Counters)
    ensures LowerStatement(s, x, n).Success? <==> Lowerable(s, |x.loops| > 0, x.caught.Some?)
    decreases s, 2
  {
    if s.kind.BlockStatement? {
      LoweringAcceptsList(s.kind.block.statements, x, n);
    } else if s.kind.Try? {
      LoweringAcceptsTry(s, x, n);
    } else if s.kind.If? {
      LoweringAcceptsIf(s, x, n);
    } else if s.kind.While? {
      LoweringAcceptsLoop(s.kind.body, x, n);
    } else if s.kind.For? {
      LoweringAcceptsLoop(s.kind.body, x, n);
    }
  }

  lemma {:induction false} LoweringAcceptsTry(s: Source.SourceStatement, x: Enclosing, n: Counters)
    requires s.kind.Try?
    ensures LoweredTry(s, x, n).Success? <==> Lowerable(s, |x.loops| > 0, x.caught.Some?)
    decreases s, 1
  {
    var n0 := n.(tries := n.tries + 1);
    LoweringAcceptsList(s.kind.guarded.statements, InTry(x, n.tries), n0);
    var g := LowerBlock(s.kind.guarded, InTry(x, n.tries), n0);
    if g.Success? {
      LoweringAcceptsCatches(s.kind.catches, InCatch(x, n.tries), g.value.1);
    }
  }

  lemma {:induction false} LoweringAcceptsIf(s: Source.SourceStatement, x: Enclosing, n: Counters)
    requires s.kind.If?
    ensures LoweredIf(s, x, n).Success? <==> Lowerable(s, |x.loops| > 0, x.caught.Some?)
    decreases s, 1
  {
    LoweringAcceptsBody(s.kind.thenBranch, x, n);
    var t := LowerAsBlock(s.kind.thenBranch, x, n);
    if t.Success? && s.kind.elseBranch.Some? {
      LoweringAccepts(s.kind.elseBranch.value, x, t.value.1);
    }
  }

  lemma {:induction false} LoweringAcceptsLoop(body: Source.SourceStatement, x: Enclosing, n: Counters)
    ensures LowerLoop(body, x, n).Success? <==> Lowerable(body, true, x.caught.Some?)
    decreases body, 4
  {
    LoweringAcceptsBody(body, WithLoop(x, Hir.LoopLabel(n.loops)), n.(loops := n.loops + 1));
  }

  lemma {:induction false} LoweringAcceptsBody(s: Source.SourceStatement, x: Enclosing, n: Counters)
    ensures LowerAsBlock(s, x, n).Success? <==> Lowerable(s, |x.loops| > 0, x.caught.Some?)
    decreases s, 3
  {
    if s.kind.BlockStatement? {
      LoweringAcceptsList(s.kind.block.statements, x, n);
    } else {
      LoweringAccepts(s, x, n);
    }
  }

  lemma {:induction false} LoweringAcceptsList(ss: seq<Source.SourceStatement>, x: Enclosing, n: Counters)
    ensures LowerStatements(ss, x, n).Success? <==> ListLowerable(ss, |x.loops| > 0, x.caught.Some?)
    decreases ss
  {
    if |ss| == 0 {
    } else if ss[0].kind.Empty? {
      LoweringAcceptsList(ss[1..], x, n);
    } else {
      LoweringAccepts(ss[0], x, n);
      var first := LowerStatement(ss[0], x, n);
      if first.Success? {
        LoweringAcceptsList(ss[1..], x, first.value.1);
      }
    }
  }

  lemma {:induction false} LoweringAcceptsCatches(catches: seq<Source.SourceCatch>, x: Enclosing, n: Counters)
    requires x.caught.Some?
    ensures LowerCatches(catches, x, n).Success? <==> CatchesLowerable(catches, |x.loops| > 0)
    decreases catches
  {
    if |catches| > 0 {
      LoweringAcceptsClause(catches[0], x, n);
      var first := LowerClauseBody(catches[0], x, n);
      if first.Success? {
        LoweringAcceptsCatches(catches[1..], x, first.value.1);
      }
    }
  }

  lemma {:induction false} LoweringAcceptsClause(clause: Source.SourceCatch, x: Enclosing, n: Counters)
    requires x.caught.Some?
    ensures LowerClauseBody(clause, x, n).Success? <==> ClauseLowerable(clause, |x.loops| > 0)
    decreases clause
  {
    LoweringAcceptsList(clause.body.statements, x, n);
  }

  // ----- what a clean validation promises lowering -----

  lemma {:induction false} ValidatedJumps(
    s: Source.SourceStatement, loopDepth: nat, catchDepth: nat, returnsVoid: bool, x: Enclosing, n: Counters)
    requires Reports(s, loopDepth, catchDepth, returnsVoid) == [] && (loopDepth > 0 ==> |x.loops| > 0)
    ensures LowerStatement(s, x, n) != Failure(JumpOutsideLoop)
    decreases s, 2
  {
    if s.kind.BlockStatement? {
      ValidatedListJumps(s.kind.block.statements, loopDepth, catchDepth, returnsVoid, x, n);
    } else if s.kind.Try? {
      ValidatedTryJumps(s, loopDepth, catchDepth, returnsVoid, x, n);
    } else if s.kind.If? {
      ValidatedIfJumps(s, loopDepth, catchDepth, returnsVoid, x, n);
    } else if s.kind.While? {
      ValidatedLoopJumps(s.kind.body, loopDepth, catchDepth, returnsVoid, x, n);
    } else if s.kind.For? {
      ValidatedLoopJumps(s.kind.body, loopDepth, catchDepth, returnsVoid, x, n);
    }
  }

  lemma {:induction false} ValidatedTryJumps(
    s: Source.SourceStatement, loopDepth: nat, catchDepth: nat, returnsVoid: bool, x: Enclosing, n: Counters)
    requires s.kind.Try?
    requires Reports(s, loopDepth, catchDepth, returnsVoid) == [] && (loopDepth > 0 ==> |x.loops| > 0)
    ensures LoweredTry(s, x, n) != Failure(JumpOutsideLoop)
    decreases s, 1
  {
    var n0 := n.(tries := n.tries + 1);
    ValidatedListJumps(s.kind.guarded.statements, loopDepth, catchDepth, returnsVoid, InTry(x, n.tries), n0);
    var g := LowerBlock(s.kind.guarded, InTry(x, n.tries), n0);
    if g.Success? {
      ValidatedCatchJumps(s.kind.catches, loopDepth, catchDepth, returnsVoid, InCatch(x, n.tries), g.value.1);
    }
  }

  lemma {:induction false} ValidatedIfJumps(
    s: Source.SourceStatement, loopDepth: nat, catchDepth: nat, returnsVoid: bool, x: Enclosing, n: Counters)
    requires s.kind.If?
    requires Reports(s, loopDepth, catchDepth, returnsVoid) == [] && (loopDepth > 0 ==> |x.loops| > 0)
    ensures LoweredIf(s, x, n) != Failure(JumpOutsideLoop)
    decreases s, 1
  {
    ValidatedBodyJumps(s.kind.thenBranch, loopDepth, catchDepth, returnsVoid, x, n);
    var t := LowerAsBlock(s.kind.thenBranch, x, n);
    if t.Success? && s.kind.elseBranch.Some? {
      ValidatedJumps(s.kind.elseBranch.value, loopDepth, catchDepth, returnsVoid, x, t.value.1);
    }
  }

  lemma {:induction false} ValidatedLoopJumps(
    body: Source.SourceStatement, loopDepth: nat, catchDepth: nat, returnsVoid: bool, x: Enclosing, n: Counters)
    requires Reports(body, loopDepth + 1, catchDepth, returnsVoid) == []
    ensures LowerLoop(body, x, n) != Failure(JumpOutsideLoop)
    decreases body, 4
  {
    ValidatedBodyJumps(
      body, loopDepth + 1, catchDepth, returnsVoid, WithLoop(x, Hir.LoopLabel(n.loops)), n.(loops := n.loops + 1));
  }

  lemma {:induction false} ValidatedBodyJumps(
    s: Source.SourceStatement, loopDepth: nat, catchDepth: nat, returnsVoid: bool, x: Enclosing, n: Counters)
    requires Reports(s, loopDepth, catchDepth, returnsVoid) == [] && (loopDepth > 0 ==> |x.loops| > 0)
    ensures LowerAsBlock(s, x, n) != Failure(JumpOutsideLoop)
    decreases s, 3
  {
    if s.kind.BlockStatement? {
      ValidatedListJumps(s.kind.block.statements, loopDepth, catchDepth, returnsVoid, x, n);
    } else {
      ValidatedJumps(s, loopDepth, catchDepth, returnsVoid, x, n);
    }
  }

  lemma {:induction false} ValidatedListJumps(
    ss: seq<Source.SourceStatement>, loopDepth: nat, catchDepth: nat, returnsVoid: bool, x: Enclosing, n: Counters)
    requires ReportsOfList(ss, loopDepth, catchDepth, returnsVoid) == [] && (loopDepth > 0 ==> |x.loops| > 0)
    ensures LowerStatements(ss, x, n) != Failure(JumpOutsideLoop)
    decreases ss
  {
    if |ss| == 0 {
    } else if ss[0].kind.Empty? {
      ValidatedListJumps(ss[1..], loopDepth, catchDepth, returnsVoid, x, n);
    } else {
      ValidatedJumps(ss[0], loopDepth, catchDepth, returnsVoid, x, n);
      var first := LowerStatement(ss[0], x, n);
      if first.Success? {
        ValidatedListJumps(ss[1..], loopDepth, catchDepth, returnsVoid, x, first.value.1);
      }
    }
  }

  lemma {:induction false} ValidatedCatchJumps(
    catches: seq<Source.SourceCatch>, loopDepth: nat, catchDepth: nat, returnsVoid: bool, x: Enclosing, n: Counters)
    requires ReportsOfCatches(catches, loopDepth, catchDepth, returnsVoid) == [] && (loopDepth > 0 ==> |x.loops| > 0)
    ensures LowerCatches(catches, x, n) != Failure(JumpOutsideLoop)
    decreases catches
  {
    if |catches| > 0 {
      ValidatedClauseJumps(catches[0], loopDepth, catchDepth + 1, returnsVoid, x, n);
      var first := LowerClauseBody(catches[0], x, n);
      if first.Success? {
        ValidatedCatchJumps(catches[1..], loopDepth, catchDepth, returnsVoid, x, first.value.1);
      }
    }
  }

  lemma {:induction false} ValidatedClauseJumps(
    clause: Source.SourceCatch, loopDepth: nat, catchDepth: nat, returnsVoid: bool, x: Enclosing, n: Counters)
    requires ReportsOfClause(clause, loopDepth, catchDepth, returnsVoid) == [] && (loopDepth > 0 ==> |x.loops| > 0)
    ensures LowerClauseBody(clause, x, n) != Failure(JumpOutsideLoop)
    decreases clause
  {
    ValidatedListJumps(clause.body.statements, loopDepth, catchDepth, returnsVoid, x, n);
  }

  // ----- what it does not promise -----

  /**
   What the validator does not look at: a lone semicolon as a branch or a loop body, and a bare `throw;`
   in the guarded block of a `try`, which has no caught error even inside a handler. `guarded`: in such a block.
   */
  predicate Overlooked(s: Source.SourceStatement, guarded: bool)
    decreases s
  {
    match s.kind
    case BlockStatement(b) => OverlookedInList(b.statements, guarded)
    case Throw(error) => error.None? && guarded
    case Try(block, catches) => OverlookedInList(block.statements, true) || OverlookedInCatches(catches)
    case If(_, yes, no) => Overlooked(yes, guarded) || (no.Some? && Overlooked(no.value, guarded))
    case While(_, body) => Overlooked(body, guarded)
    case For(_, body) => Overlooked(body, guarded)
    case Empty => true
    case _ => false
  }

  predicate OverlookedInList(ss: seq<Source.SourceStatement>, guarded: bool)
    decreases ss
  {
    |ss| > 0 && ((!ss[0].kind.Empty? && Overlooked(ss[0], guarded)) || OverlookedInList(ss[1..], guarded))
  }

  predicate OverlookedInCatches(catches: seq<Source.SourceCatch>)
    decreases catches
  {
    |catches| > 0 && (OverlookedInClause(catches[0]) || OverlookedInCatches(catches[1..]))
  }

  predicate OverlookedInClause(clause: Source.SourceCatch)
    decreases clause
  {
    OverlookedInList(clause.body.statements, false)
  }

  lemma {:induction false} ValidatedLowers(
    s: Source.SourceStatement, loopDepth: nat, catchDepth: nat, returnsVoid: bool, guarded: bool)
    requires Reports(s, loopDepth, catchDepth, returnsVoid) == []
    ensures Lowerable(s, loopDepth > 0, catchDepth > 0 && !guarded) <==> !Overlooked(s, guarded)
    decreases s
  {
    if s.kind.BlockStatement? {
      ValidatedListLowers(s.kind.block.statements, loopDepth, catchDepth, returnsVoid, guarded);
    } else if s.kind.Try? {
      ValidatedListLowers(s.kind.guarded.statements, loopDepth, catchDepth, returnsVoid, true);
      ValidatedCatchesLower(s.kind.catches, loopDepth, catchDepth, returnsVoid);
    } else if s.kind.If? {
      ValidatedLowers(s.kind.thenBranch, loopDepth, catchDepth, returnsVoid, guarded);
      if s.kind.elseBranch.Some? {
        ValidatedLowers(s.kind.elseBranch.value, loopDepth, catchDepth, returnsVoid, guarded);
      }
    } else if s.kind.While? || s.kind.For? {
      ValidatedLowers(s.kind.body, loopDepth + 1, catchDepth, returnsVoid, guarded);
    }
  }

  lemma {:induction false} ValidatedListLowers(
    ss: seq<Source.SourceStatement>, loopDepth: nat, catchDepth: nat, returnsVoid: bool, guarded: bool)
    requires ReportsOfList(ss, loopDepth, catchDepth, returnsVoid) == []
    ensures ListLowerable(ss, loopDepth > 0, catchDepth > 0 && !guarded) <==> !OverlookedInList(ss, guarded)
    decreases ss
  {
    if |ss| > 0 {
      ValidatedLowers(ss[0], loopDepth, catchDepth, returnsVoid, guarded);
      ValidatedListLowers(ss[1..], loopDepth, catchDepth, returnsVoid, guarded);
    }
  }

  lemma {:induction false} ValidatedCatchesLower(
    catches: seq<Source.SourceCatch>, loopDepth: nat, catchDepth: nat, returnsVoid: bool)
    requires ReportsOfCatches(catches, loopDepth, catchDepth, returnsVoid) == []
    ensures CatchesLowerable(catches, loopDepth > 0) <==> !OverlookedInCatches(catches)
    decreases catches
  {
    if |catches| > 0 {
      ValidatedClauseLowers(catches[0], loopDepth, catchDepth + 1, returnsVoid);
      ValidatedCatchesLower(catches[1..], loopDepth, catchDepth, returnsVoid);
    }
  }

  lemma {:induction false} ValidatedClauseLowers(
    clause: Source.SourceCatch, loopDepth: nat, catchDepth: nat, returnsVoid: bool)
    requires ReportsOfClause(clause, loopDepth, catchDepth, returnsVoid) == [] && catchDepth > 0
    ensures ClauseLowerable(clause, loopDepth > 0) <==> !OverlookedInClause(clause)
    decreases clause
  {
    ValidatedListLowers(clause.body.statements, loopDepth, catchDepth, returnsVoid, false);
  }

  /** A function the validator has nothing to say about is lowered unless it has what is overlooked. */
  lemma ValidatedFunctionsLower(signature: Signature, body: Source.SourceBlock, n: Counters)
    requires ReportsOfBlock(body, 0, 0, signature.isVoid) == []
    ensures LowerFunction(signature, body, n).Success? <==> !OverlookedInList(body.statements, false)
  {
    ValidatedListLowers(body.statements, 0, 0, signature.isVoid, false);
    LoweringAcceptsList(body.statements, FunctionStart(signature), n);
  }

  /**
   A clean validation does not make a body lowerable: a bare `throw;` in a try that sits in a
   handler passes, since the validator only counts enclosing handlers, and then has no lowering.
   */
  lemma NestedRethrowIsValidButNotLowerable()
    ensures var nowhere := Span(0, 0);
            var rethrow := Block([Statement(Throw(None), nowhere)]);
            var inner := Statement(Try(rethrow, [CatchClause(None, Block([]))]), nowhere);
            var body: Source.SourceBlock :=
              Block([Statement(Try(Block([]), [CatchClause(None, Block([inner]))]), nowhere)]);
            && ReportsOfBlock(body, 0, 0, true) == []
            && LowerFunction(Signature(false, true, false), body, Counters(0, 0)) == Failure(NoCaughtError)
  {
    var nowhere := Span(0, 0);
    var rethrow: Source.SourceBlock := Block([Statement(Throw(None), nowhere)]);
    var inner: Source.SourceStatement := Statement(Try(rethrow, [CatchClause(None, Block([]))]), nowhere);
    var handler: Source.SourceCatch := CatchClause(None, Block([inner]));
    var handlers := [handler];
    var outer := Statement(Try(Block([]), handlers), nowhere);
    var x := FunctionStart(Signature(false, true, false));
    assert ReportsOfList(rethrow.statements, 0, 1, true) == [];
    assert ReportsOfCatches([CatchClause(None, Block([]))], 0, 1, true) == [];
    assert Reports(inner, 0, 1, true) == [];
    assert ReportsOfList([inner], 0, 1, true) == [];
    assert ReportsOfClause(handler, 0, 1, true) == [];
    assert handlers[1..] == [];
    assert ReportsOfCatches(handlers, 0, 0, true) == [];
    assert Reports(outer, 0, 0, true) == [];
    assert [outer][1..] == [];
    assert ReportsOfList([outer], 0, 0, true) == [];
    var n1 := Counters(1, 0);
    assert LowerBlock(Block([]), InTry(x, 0), n1) == Success(([], n1));
    assert LowerStatements(rethrow.statements, InTry(InCatch(x, 0), 1), Counters(2, 0)) == Failure(NoCaughtError);
    assert LoweredTry(inner, InCatch(x, 0), n1) == Failure(NoCaughtError);
    assert LowerStatements([inner], InCatch(x, 0), n1) == Failure(NoCaughtError);
    assert LowerClauseBody(handler, InCatch(x, 0), n1) == Failure(NoCaughtError);
    assert LowerCatches(handlers, InCatch(x, 0), n1) == Failure(NoCaughtError);
    assert LoweredTry(outer, x, Counters(0, 0)) == Failure(NoCaughtError);
    assert LowerStatements([outer], x, Counters(0, 0)) == Failure(NoCaughtError);
  }

  // ----- the reports, rule by rule -----

  /** A statement inside so many loops and handlers of the function, or a handler in its `try`. */
  datatype Item =
    | StatementItem(statement: Source.SourceStatement, loops: nat, handlers: nat)
    | HandlerItem(catchesAll: bool, isLast: bool)

  /** The rule an item breaks, if it breaks one. */
  function Broken(item: Item, returnsVoid: bool): Option<string> {
    match item
    case HandlerItem(catchesAll, isLast) => if catchesAll && !isLast then Some("SEM013") else None
    case StatementItem(statement, loops, handlers) =>
      match statement.kind
      case Return(Some(_)) => if returnsVoid then Some("SEM005") else None
      case Return(None) => if returnsVoid then None else Some("SEM006")
      case Break => if loops > 0 then None else Some("SEM007")
      case Continue => if loops > 0 then None else Some("SEM008")
      case Throw(None) => if handlers > 0 then None else Some("SEM011")
      case _ => None
  }

  function AllBroken(items: seq<Item>, returnsVoid: bool): seq<string> {
    if |items| == 0 then []
    else
      (if Broken(items[0], returnsVoid).Some? then [Broken(items[0], returnsVoid).value] else [])
      + AllBroken(items[1..], returnsVoid)
  }

  // ----- the items of a function, in the order of its text -----

  function Items(s: Source.SourceStatement, loops: nat, handlers: nat): seq<Item>
    decreases s
  {
    [StatementItem(s, loops, handlers)]
    + match s.kind
      case BlockStatement(b) => ListItems(b.statements, loops, handlers)
      case If(_, yes, no) =>
        Items(yes, loops, handlers) + if no.Some? then Items(no.value, loops, handlers) else []
      case While(_, body) => Items(body, loops + 1, handlers)
      case For(_, body) => Items(body, loops + 1, handlers)
      case Try(guarded, catches) =>
        ListItems(guarded.statements, loops, handlers) + CatchItems(catches, loops, handlers)
      case _ => []
  }

  function ListItems(ss: seq<Source.SourceStatement>, loops: nat, handlers: nat): seq<Item>
    decreases ss
  {
    if |ss| == 0 then [] else Items(ss[0], loops, handlers) + ListItems(ss[1..], loops, handlers)
  }

  function CatchItems(catches: seq<Source.SourceCatch>, loops: nat, handlers: nat): seq<Item>
    decreases catches
  {
    if |catches| == 0 then []
    else
      [HandlerItem(catches[0].binding.None?, |catches| == 1)]
      + ClauseItems(catches[0], loops, handlers + 1)
      + CatchItems(catches[1..], loops, handlers)
  }

  function ClauseItems(clause: Source.SourceCatch, loops: nat, handlers: nat): seq<Item>
    decreases clause
  {
    ListItems(clause.body.statements, loops, handlers)
  }

  // ----- the reports are the broken rules -----

  lemma Grouped<T>(a: seq<T>, b: seq<T>, c: seq<T>)
    ensures a + b + c == a + (b + c)
  {
  }

  lemma {:induction false} BrokenAppend(a: seq<Item>, b: seq<Item>, returnsVoid: bool)
    ensures AllBroken(a + b, returnsVoid) == AllBroken(a, returnsVoid) + AllBroken(b, returnsVoid)
    decreases |a|
  {
    if |a| == 0 {
      assert a + b == b;
    } else {
      BrokenAppend(a[1..], b, returnsVoid);
      assert (a + b)[1..] == a[1..] + b;
      Grouped(
        if Broken(a[0], returnsVoid).Some? then [Broken(a[0], returnsVoid).value] else [],
        AllBroken(a[1..], returnsVoid), AllBroken(b, returnsVoid));
    }
  }

  lemma OneBroken(item: Item, returnsVoid: bool)
    ensures AllBroken([item], returnsVoid)
         == if Broken(item, returnsVoid).Some? then [Broken(item, returnsVoid).value] else []
  {
    var none: seq<Item> := [];
    assert [item][1..] == none;
  }

  /** The statement itself comes before what is in it. */
  lemma OwnRule(s: Source.SourceStatement, loops: nat, handlers: nat, inner: seq<Item>, returnsVoid: bool)
    ensures AllBroken([StatementItem(s, loops, handlers)] + inner, returnsVoid)
         == (var own := Broken(StatementItem(s, loops, handlers), returnsVoid);
             if own.Some? then [own.value] else []) + AllBroken(inner, returnsVoid)
  {
    OneBroken(StatementItem(s, loops, handlers), returnsVoid);
    BrokenAppend([StatementItem(s, loops, handlers)], inner, returnsVoid);
  }

  lemma {:induction false} ReportsAreBroken(s: Source.SourceStatement, loops: nat, handlers: nat, returnsVoid: bool)
    ensures Reports(s, loops, handlers, returnsVoid) == AllBroken(Items(s, loops, handlers), returnsVoid)
    decreases s
  {
    if s.kind.BlockStatement? {
      OwnRule(s, loops, handlers, ListItems(s.kind.block.statements, loops, handlers), returnsVoid);
      ListReportsAreBroken(s.kind.block.statements, loops, handlers, returnsVoid);
    } else if s.kind.If? {
      IfReportsAreBroken(s, loops, handlers, returnsVoid);
    } else if s.kind.While? || s.kind.For? {
      OwnRule(s, loops, handlers, Items(s.kind.body, loops + 1, handlers), returnsVoid);
      ReportsAreBroken(s.kind.body, loops + 1, handlers, returnsVoid);
    } else if s.kind.Try? {
      TryReportsAreBroken(s, loops, handlers, returnsVoid);
    } else {
      OwnRule(s, loops, handlers, [], returnsVoid);
    }
  }

  lemma {:induction false} IfReportsAreBroken(
    s: Source.SourceStatement, loops: nat, handlers: nat, returnsVoid: bool)
    requires s.kind.If?
    ensures Reports(s, loops, handlers, returnsVoid) == AllBroken(Items(s, loops, handlers), returnsVoid)
    decreases s, 0
  {
    var yes, no := s.kind.thenBranch, s.kind.elseBranch;
    var others := if no.Some? then Items(no.value, loops, handlers) else [];
    ReportsAreBroken(yes, loops, handlers, returnsVoid);
    if no.Some? {
      ReportsAreBroken(no.value, loops, handlers, returnsVoid);
    }
    OwnRule(s, loops, handlers, Items(yes, loops, handlers) + others, returnsVoid);
    BrokenAppend(Items(yes, loops, handlers), others, returnsVoid);
  }

  lemma {:induction false} TryReportsAreBroken(
    s: Source.SourceStatement, loops: nat, handlers: nat, returnsVoid: bool)
    requires s.kind.Try?
    ensures Reports(s, loops, handlers, returnsVoid) == AllBroken(Items(s, loops, handlers), returnsVoid)
    decreases s, 0
  {
    var guarded, catches := s.kind.guarded.statements, s.kind.catches;
    ListReportsAreBroken(guarded, loops, handlers, returnsVoid);
    CatchReportsAreBroken(catches, loops, handlers, returnsVoid);
    var inner := ListItems(guarded, loops, handlers) + CatchItems(catches, loops, handlers);
    OwnRule(s, loops, handlers, inner, returnsVoid);
    BrokenAppend(ListItems(guarded, loops, handlers), CatchItems(catches, loops, handlers), returnsVoid);
  }

  lemma {:induction false} ListReportsAreBroken(
    ss: seq<Source.SourceStatement>, loops: nat, handlers: nat, returnsVoid: bool)
    ensures ReportsOfList(ss, loops, handlers, returnsVoid) == AllBroken(ListItems(ss, loops, handlers), returnsVoid)
    decreases ss
  {
    if |ss| > 0 {
      ReportsAreBroken(ss[0], loops, handlers, returnsVoid);
      ListReportsAreBroken(ss[1..], loops, handlers, returnsVoid);
      BrokenAppend(Items(ss[0], loops, handlers), ListItems(ss[1..], loops, handlers), returnsVoid);
    }
  }

  lemma {:induction false} CatchReportsAreBroken(
    catches: seq<Source.SourceCatch>, loops: nat, handlers: nat, returnsVoid: bool)
    ensures ReportsOfCatches(catches, loops, handlers, returnsVoid)
         == AllBroken(CatchItems(catches, loops, handlers), returnsVoid)
    decreases catches
  {
    if |catches| > 0 {
      var handler := HandlerItem(catches[0].binding.None?, |catches| == 1);
      var inner, rest := ClauseItems(catches[0], loops, handlers + 1), CatchItems(catches[1..], loops, handlers);
      ClauseReportsAreBroken(catches[0], loops, handlers + 1, returnsVoid);
      CatchReportsAreBroken(catches[1..], loops, handlers, returnsVoid);
      OneBroken(handler, returnsVoid);
      BrokenAppend([handler], inner, returnsVoid);
      BrokenAppend([handler] + inner, rest, returnsVoid);
    }
  }

  lemma {:induction false} ClauseReportsAreBroken(
    clause: Source.SourceCatch, loops: nat, handlers: nat, returnsVoid: bool)
    ensures ReportsOfClause(clause, loops, handlers, returnsVoid)
         == AllBroken(ClauseItems(clause, loops, handlers), returnsVoid)
    decreases clause
  {
    ListReportsAreBroken(clause.body.statements, loops, handlers, returnsVoid);
  }

  /** The reports on a function are the rules its statements and handlers break, in the order of its text. */
  lemma FunctionReportsAreBroken(body: Source.SourceBlock, returnsVoid: bool)
    ensures ReportsOfBlock(body, 0, 0, returnsVoid) == AllBroken(ListItems(body.statements, 0, 0), returnsVoid)
  {
    ListReportsAreBroken(body.statements, 0, 0, returnsVoid);
  }
}
