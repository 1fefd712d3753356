/**
  The expectation primitives a test body calls: the `tt_abort*` (fatal) and
  `tt_fail*` (non-fatal) unconditional failures, `tt_skip`, and the boolean
  checks built on `_tt_want`: `tt_want*` (non-fatal) and `tt_assert*` (fatal).
 */
module Expectations {
  import opened Outcome

  /** The message `tt_abort()` and `tt_fail()` print. */
  const DefaultFailure: string := "(Failed.)"

  // ---------------------------------------------------------------------------
  // Unconditional failures
  // ---------------------------------------------------------------------------

  /** `tt_abort_msg(msg)`: fail with `msg` and leave the test body. */
  function AbortMsg(s: RunState, at: Location, msg: string): (r: RunState)
    ensures Failure(s, r, at, Text(msg), true)
  {
    Die(s, at, Text(msg))
  }

  /** `tt_abort_perror(op)`: fail naming `op` and the platform error, then leave. */
  function AbortPerror(s: RunState, at: Location, op: string, errno: int): (r: RunState)
    ensures Failure(s, r, at, SysError(op, errno), true)
  {
    Die(s, at, SysError(op, errno))
  }

  /** `tt_abort()`: fail with "(Failed.)" and leave the test body. */
  function Abort(s: RunState, at: Location): (r: RunState)
    ensures Failure(s, r, at, Text(DefaultFailure), true)
  {
    Die(s, at, Text(DefaultFailure))
  }

  /** `tt_fail_msg(msg)`: fail with `msg`; the test body goes on. */
  function FailMsg(s: RunState, at: Location, msg: string): (r: RunState)
    ensures Failure(s, r, at, Text(msg), false)
  {
    FailTest(s, at, Text(msg))
  }

  /** `tt_fail_perror(op)`: fail naming `op` and the platform error; the body goes on. */
  function FailPerror(s: RunState, at: Location, op: string, errno: int): (r: RunState)
    ensures Failure(s, r, at, SysError(op, errno), false)
  {
    FailTest(s, at, SysError(op, errno))
  }

  /** `tt_fail()`: fail with "(Failed.)"; the test body goes on. */
  function Fail(s: RunState, at: Location): (r: RunState)
    ensures Failure(s, r, at, Text(DefaultFailure), false)
  {
    FailTest(s, at, Text(DefaultFailure))
  }

  // ---------------------------------------------------------------------------
  // Skipping
  // ---------------------------------------------------------------------------

  /** `tt_skip()`: mark the test skipped and leave the body. It is not a failure
      and prints nothing. */
  function Skip(s: RunState): (r: RunState)
    ensures r.skipped && r.exited
    ensures r.failed == s.failed
    ensures r.log == s.log
    ensures Progress(s, r)
    ensures Consistent(s) ==> Consistent(r)
    ensures Exact(s) ==> Exact(r)
  {
    s.(skipped := true, exited := true)
  }

  // ---------------------------------------------------------------------------
  // Boolean checks
  // ---------------------------------------------------------------------------

  /** `_tt_want(b, msg, fail)`: when `b` is false, mark the test failed, print
      `msg` as a FAIL line and run `fail` (leaving the body when `fatal`);
      when `b` holds, print `msg` as an "  OK" line if verbose. */
  function Expect(s: RunState, verbosity: int, at: Location, b: bool, msg: string, fatal: bool): (r: RunState)
    ensures b ==> Success(s, r, verbosity, at, Text(msg))
    ensures !b ==> Failure(s, r, at, Text(msg), fatal)
    ensures r.failed <==> s.failed || !b
    ensures Progress(s, r)
    ensures Consistent(s) ==> Consistent(r)
    ensures Exact(s) ==> Exact(r)
  {
    if !b then
      var f := FailTest(s, at, Text(msg));
      FailureKeepsInvariant(s, f, at, Text(msg), false);
      var r := if fatal then f.(exited := true) else f;
      FailureKeepsInvariant(s, r, at, Text(msg), fatal);
      r
    else
      var r := Blather(s, verbosity, at, Text(msg));
      SuccessKeepsInvariant(s, r, verbosity, at, Text(msg));
      r
  }

  /** `tt_want_msg(b, msg)`: a failed check is recorded and the body goes on. */
  function WantMsg(s: RunState, verbosity: int, at: Location, b: bool, msg: string): (r: RunState)
    ensures b ==> Success(s, r, verbosity, at, Text(msg))
    ensures !b ==> Failure(s, r, at, Text(msg), false)
    ensures r.exited == s.exited
  {
    Expect(s, verbosity, at, b, msg, false)
  }

  /** `tt_assert_msg(b, msg)`: a failed check is recorded and ends the body. */
  function AssertMsg(s: RunState, verbosity: int, at: Location, b: bool, msg: string): (r: RunState)
    ensures b ==> Success(s, r, verbosity, at, Text(msg))
    ensures !b ==> Failure(s, r, at, Text(msg), true)
    ensures r.exited <==> s.exited || !b
  {
    Expect(s, verbosity, at, b, msg, true)
  }

  /** `tt_want(b)`: the message is `want(<source text of b>)`. */
  function Want(s: RunState, verbosity: int, at: Location, b: bool, bText: string): (r: RunState)
    ensures b ==> Success(s, r, verbosity, at, Text("want(" + bText + ")"))
    ensures !b ==> Failure(s, r, at, Text("want(" + bText + ")"), false)
  {
    WantMsg(s, verbosity, at, b, "want(" + bText + ")")
  }

  /** `tt_assert(b)`: the message is `assert(<source text of b>)`. */
  function Assert(s: RunState, verbosity: int, at: Location, b: bool, bText: string): (r: RunState)
    ensures b ==> Success(s, r, verbosity, at, Text("assert(" + bText + ")"))
    ensures !b ==> Failure(s, r, at, Text("assert(" + bText + ")"), true)
  {
    AssertMsg(s, verbosity, at, b, "assert(" + bText + ")")
  }

  /** The two severities differ only in whether control leaves the body: a
      failed want and a failed assert leave identical flags and logs otherwise. */
  lemma WantAssertDifferOnlyInExit(s: RunState, verbosity: int, at: Location, b: bool, msg: string)
    ensures AssertMsg(s, verbosity, at, b, msg).failed == WantMsg(s, verbosity, at, b, msg).failed
    ensures AssertMsg(s, verbosity, at, b, msg).skipped == WantMsg(s, verbosity, at, b, msg).skipped
    ensures AssertMsg(s, verbosity, at, b, msg).log == WantMsg(s, verbosity, at, b, msg).log
    ensures b ==> AssertMsg(s, verbosity, at, b, msg) == WantMsg(s, verbosity, at, b, msg)
  {
  }

  /** Verbosity gating: at verbosity 0 or 1 a check prints exactly when it
      fails; above 1 every check prints exactly one line, labelled by outcome. */
  lemma {:induction false} CheckPrintsOneLineAtMost(s: RunState, verbosity: int, at: Location, b: bool, msg: string, fatal: bool)
    ensures var r := Expect(s, verbosity, at, b, msg, fatal);
      && (verbosity <= 1 ==> |r.log| == |s.log| + (if b then 0 else 1))
      && (verbosity > 1 ==> |r.log| == |s.log| + 1 && r.log[|s.log|].prefix == (if b then OK else FAIL))
  {
  }
}
