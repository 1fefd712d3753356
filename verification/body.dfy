/**
  A test body: a sequence of statements run in order until one of them leaves
  the body (`TT_EXIT_TEST_FUNCTION`, by default `goto end`). Ordinary C code
  changes the program state `S`; the assertion macros change the run state.
 */
module TestBody {
  import opened Outcome
  import opened Expectations
  import opened TypedCompare

  /** One statement of a test body. */
  datatype Stmt<!S> =
    | Code(step: S -> S)
      /** `tt_want_msg(b, msg)` when not `fatal`, `tt_assert_msg(b, msg)` when
          `fatal`; `tt_want(b)` and `tt_assert(b)` supply their own message. */
    | Check(at: Location, cond: S -> bool, message: string, fatal: bool)
      /** A `tt_fail*` use. */
    | FailWith(at: Location, msg: Msg)
      /** A `tt_abort*` use. */
    | AbortWith(at: Location, msg: Msg)
    | SkipTest
      /** A direct `TT_DECLARE(prefix, msg)`. */
    | DeclareWith(prefix: Label, at: Location, msg: Msg)
      /** A direct `TT_GRIPE(msg)`. */
    | GripeWith(at: Location, msg: Msg)
      /** A direct `TT_BLATHER(msg)`. */
    | BlatherWith(at: Location, msg: Msg)
    | IntCmp(at: Location, a: Operand<S, int>, aText: string, op: Op, b: Operand<S, int>, bText: string)
    | UIntCmp(at: Location, ua: Operand<S, nat>, aText: string, op: Op, ub: Operand<S, nat>, bText: string)
    | PtrCmp(at: Location, pa: Operand<S, nat>, aText: string, op: Op, pb: Operand<S, nat>, bText: string)
      /** String operands are addresses; `mem` gives the strings they point to. */
    | StrCmp(at: Location, sa: Operand<S, nat>, aText: string, op: Op, sb: Operand<S, nat>, bText: string,
             mem: Memory<S>)
    | StrContains(at: Location, sa: Operand<S, nat>, aText: string, op: Op, sb: Operand<S, nat>, bText: string,
                  mem: Memory<S>)

  /** A statement that prints a FAIL line without marking the test failed. */
  predicate PrintsBareFail<S>(st: Stmt<S>) {
    || st.GripeWith?
    || (st.DeclareWith? && st.prefix == FAIL)
  }

  /** Run one statement. */
  function Exec<S>(st: Stmt<S>, verbosity: int, run: RunState, prog: S): (r: (RunState, S))
    ensures Progress(run, r.0)
    ensures Consistent(run) ==> Consistent(r.0)
    ensures Exact(run) && !PrintsBareFail(st) ==> Exact(r.0)
  {
    match st
    case Code(step) => (run, step(prog))
    case Check(at, cond, msg, fatal) => (Expect(run, verbosity, at, cond(prog), msg, fatal), prog)
    case FailWith(at, msg) =>
      var r := FailTest(run, at, msg);
      FailureKeepsInvariant(run, r, at, msg, false);
      (r, prog)
    case AbortWith(at, msg) =>
      var r := Die(run, at, msg);
      FailureKeepsInvariant(run, r, at, msg, true);
      (r, prog)
    case SkipTest => (Skip(run), prog)
    case DeclareWith(prefix, at, msg) =>
      DeclareKeepsInvariant(run, prefix, at, msg);
      (Declare(run, prefix, at, msg), prog)
    case GripeWith(at, msg) =>
      DeclareKeepsInvariant(run, FAIL, at, msg);
      (Gripe(run, at, msg), prog)
    case BlatherWith(at, msg) =>
      var r := Blather(run, verbosity, at, msg);
      SuccessKeepsInvariant(run, r, verbosity, at, msg);
      (r, prog)
    case IntCmp(at, a, aText, op, b, bText) =>
      IntOp(run, verbosity, at, a, aText, op, b, bText, prog)
    case UIntCmp(at, a, aText, op, b, bText) =>
      UIntOp(run, verbosity, at, a, aText, op, b, bText, prog)
    case PtrCmp(at, a, aText, op, b, bText) =>
      PtrOp(run, verbosity, at, a, aText, op, b, bText, prog)
    case StrCmp(at, a, aText, op, b, bText, mem) =>
      StrOp(run, verbosity, at, a, aText, op, b, bText, mem, prog)
    case StrContains(at, a, aText, op, b, bText, mem) =>
      StrContainsOp(run, verbosity, at, a, aText, op, b, bText, mem, prog)
  }

  /** No statement of the body prints a FAIL line without failing the test. */
  predicate NoBareFail<S>(body: seq<Stmt<S>>) {
    forall i | 0 <= i < |body| :: !PrintsBareFail(body[i])
  }

  /** Run a test body from `run`: statements execute in order, and none runs
      once the body has been left. */
  function Run<S>(body: seq<Stmt<S>>, verbosity: int, run: RunState, prog: S): (r: (RunState, S))
    ensures Progress(run, r.0)
    ensures Consistent(run) ==> Consistent(r.0)
    ensures Exact(run) && NoBareFail(body) ==> Exact(r.0)
    ensures run.exited ==> r == (run, prog)
    decreases |body|
  {
    if |body| == 0 || run.exited then (run, prog)
    else
      var (r1, p1) := Exec(body[0], verbosity, run, prog);
      assert NoBareFail(body) ==> !PrintsBareFail(body[0]) && NoBareFail(body[1..]);
      var r := Run(body[1..], verbosity, r1, p1);
      ProgressTransitive(run, r1, r.0);
      r
  }

  /** Running two bodies one after the other is running their concatenation. */
  lemma {:induction false} RunAppend<S>(b1: seq<Stmt<S>>, b2: seq<Stmt<S>>, verbosity: int, run: RunState, prog: S)
    ensures var (r1, p1) := Run(b1, verbosity, run, prog);
      Run(b1 + b2, verbosity, run, prog) == Run(b2, verbosity, r1, p1)
    decreases |b1|
  {
    if |b1| == 0 {
      assert b1 + b2 == b2;
    } else if !run.exited {
      var (r1, p1) := Exec(b1[0], verbosity, run, prog);
      assert (b1 + b2)[1..] == b1[1..] + b2;
      RunAppend(b1[1..], b2, verbosity, r1, p1);
    }
  }

  /** Once a prefix of the body has left it, nothing after that prefix runs:
      neither the run state nor the program state changes any more. */
  lemma ExitSkipsRest<S>(pre: seq<Stmt<S>>, post: seq<Stmt<S>>, verbosity: int, run: RunState, prog: S)
    requires Run(pre, verbosity, run, prog).0.exited
    ensures Run(pre + post, verbosity, run, prog) == Run(pre, verbosity, run, prog)
  {
    RunAppend(pre, post, verbosity, run, prog);
  }

  /** A failed `tt_assert` ends the body: what follows it never runs, and the
      run ends failed with one more FAIL line. */
  lemma FailedAssertEndsBody<S>(at: Location, cond: S -> bool, msg: string, post: seq<Stmt<S>>,
                                verbosity: int, run: RunState, prog: S)
    requires !run.exited && !cond(prog)
    ensures Run([Check(at, cond, msg, true)] + post, verbosity, run, prog)
      == (run.(failed := true, exited := true, log := run.log + [Entry(FAIL, at, Text(msg))]), prog)
  {
  }

  /** A failed `tt_want` does not end the body: the run is marked failed, one
      FAIL line is printed, and the rest of the body runs from there. */
  lemma FailedWantContinues<S>(at: Location, cond: S -> bool, msg: string, post: seq<Stmt<S>>,
                               verbosity: int, run: RunState, prog: S)
    requires !run.exited && !cond(prog)
    ensures var w := run.(failed := true, log := run.log + [Entry(FAIL, at, Text(msg))]);
      Run([Check(at, cond, msg, false)] + post, verbosity, run, prog) == Run(post, verbosity, w, prog)
  {
  }

  /** `tt_skip` ends the body without failing it and without printing. */
  lemma SkipEndsBody<S>(post: seq<Stmt<S>>, verbosity: int, run: RunState, prog: S)
    requires !run.exited
    ensures var r := Run([SkipTest] + post, verbosity, run, prog);
      && r.1 == prog
      && r.0 == run.(skipped := true, exited := true)
  {
  }

  /** The statements that can leave the body. */
  predicate MayExit<S>(st: Stmt<S>) {
    || (st.Check? && st.fatal)
    || st.AbortWith? || st.SkipTest?
    || st.IntCmp? || st.UIntCmp? || st.PtrCmp? || st.StrCmp? || st.StrContains?
  }

  /** A body made only of code, `tt_want*`, `tt_fail*` and direct
      `TT_DECLARE`/`TT_GRIPE`/`TT_BLATHER` lines runs to its end, however many
      of its checks fail. */
  lemma {:induction false} NonFatalBodyRunsToEnd<S>(body: seq<Stmt<S>>, verbosity: int, run: RunState, prog: S)
    requires !run.exited
    requires forall i | 0 <= i < |body| :: !MayExit(body[i])
    ensures !Run(body, verbosity, run, prog).0.exited
    decreases |body|
  {
    if |body| > 0 {
      var (r1, p1) := Exec(body[0], verbosity, run, prog);
      assert !MayExit(body[0]);
      assert !r1.exited;
      NonFatalBodyRunsToEnd(body[1..], verbosity, r1, p1);
    }
  }

  /** A test body run from the start keeps the run invariant: it ends failed
      only if it printed a FAIL line, and skipped only if it left early. Without
      a direct `TT_GRIPE` or `TT_DECLARE("FAIL", ..)` it ends failed exactly
      when it printed a FAIL line. */
  lemma StartedRunIsConsistent<S>(body: seq<Stmt<S>>, verbosity: int, prog: S)
    ensures Consistent(Run(body, verbosity, Start(), prog).0)
    ensures NoBareFail(body) ==> Exact(Run(body, verbosity, Start(), prog).0)
  {
  }

  /** A body whose only statement is a `TT_GRIPE` prints a FAIL line and still
      ends with the test not marked failed. */
  lemma GripeBodyDoesNotFail<S>(at: Location, msg: Msg, verbosity: int, prog: S)
    ensures var r := Run([GripeWith(at, msg)], verbosity, Start(), prog);
      && r.1 == prog
      && !r.0.failed && !r.0.exited
      && r.0.log == [Entry(FAIL, at, msg)]
  {
  }
}
