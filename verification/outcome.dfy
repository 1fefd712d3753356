/**
  The outcome state of one test run and the reporting primitives that change it
  (`TT_DECLARE`, `TT_GRIPE`, `TT_BLATHER`, `TT_DIE`, `TT_FAIL`).

  The harness callbacks `_tinytest_set_test_failed` and
  `_tinytest_set_test_skipped` become the `failed` and `skipped` fields, the
  verbosity the harness reports is an input, and `TT_EXIT_TEST_FUNCTION` (by
  default `goto end`) becomes the `exited` flag. The console output is the
  `log`: one entry per diagnostic line, in the order printed.
 */
module Outcome {
  import opened CStrings

  /** The prefix `TT_DECLARE` prints: "FAIL" for failures, "  OK" for passes. */
  datatype Label = FAIL | OK

  /** `__FILE__` and `__LINE__` of the macro use. */
  datatype Location = Location(file: string, line: nat)

  /** An operand value printed by a typed comparison, tagged by its format:
      `%ld`, `%lu`, `%p` or `<%s>`. */
  datatype Value = Long(i: int) | ULong(n: nat) | Ptr(addr: nat) | Str(bytes: CString)

  /** The message of a diagnostic line. Its exact wording is not modelled:
      a free-form text, the `op: strerror(errno) [errno]` of the `*_perror`
      forms, or the `assert(<expr>): <v1> vs <v2>` of a typed comparison. */
  datatype Msg =
    | Text(text: string)
    | SysError(op: string, errno: int)
    | Compared(expr: string, left: Value, right: Value)

  /** One diagnostic line: `<label> <file>:<line>: <message>`. */
  datatype Entry = Entry(prefix: Label, at: Location, msg: Msg)

  /** The state of one test run. `exited` means control has left the test body. */
  datatype RunState = RunState(failed: bool, skipped: bool, exited: bool, log: seq<Entry>)

  /** The state a test body starts in. */
  function Start(): (r: RunState)
    ensures !r.failed && !r.skipped && !r.exited && |r.log| == 0
  {
    RunState(false, false, false, [])
  }

  /** The log holds at least one FAIL line. */
  predicate HasFailure(log: seq<Entry>) {
    exists i | 0 <= i < |log| :: log[i].prefix == FAIL
  }

  /** The run invariant every macro keeps: a test is marked failed only once a
      FAIL line was printed, and a skipped test has left its body. */
  ghost predicate Consistent(s: RunState) {
    && (s.failed ==> HasFailure(s.log))
    && (s.skipped ==> s.exited)
  }

  /** The stronger invariant of a body that reports failures only through the
      failing macros: it is marked failed exactly when a FAIL line was printed.
      A direct `TT_GRIPE` or `TT_DECLARE("FAIL", ..)` breaks it. */
  ghost predicate Exact(s: RunState) {
    && Consistent(s)
    && (HasFailure(s.log) ==> s.failed)
  }

  /** `r` can follow `s`: no flag is ever cleared and printed lines stay printed. */
  ghost predicate Progress(s: RunState, r: RunState) {
    && (s.failed ==> r.failed)
    && (s.skipped ==> r.skipped)
    && (s.exited ==> r.exited)
    && s.log <= r.log
  }

  /** The effect of reporting a failure: the test is marked failed, exactly one
      FAIL line is printed, `skipped` is untouched, and control leaves the body
      iff the failure is fatal (or it had already left). */
  ghost predicate Failure(s: RunState, r: RunState, at: Location, msg: Msg, fatal: bool) {
    && r.failed
    && r.skipped == s.skipped
    && r.exited == (s.exited || fatal)
    && r.log == s.log + [Entry(FAIL, at, msg)]
  }

  /** The effect of a passing check: no flag changes, and one "  OK" line is
      printed iff the verbosity is above 1. */
  ghost predicate Success(s: RunState, r: RunState, verbosity: int, at: Location, msg: Msg) {
    && r.failed == s.failed
    && r.skipped == s.skipped
    && r.exited == s.exited
    && (verbosity > 1 ==> r.log == s.log + [Entry(OK, at, msg)])
    && (verbosity <= 1 ==> r.log == s.log)
  }

  /** `TT_DECLARE(prefix, args)`: print one labelled line. */
  function Declare(s: RunState, prefix: Label, at: Location, msg: Msg): (r: RunState)
    ensures r.log == s.log + [Entry(prefix, at, msg)]
    ensures r.failed == s.failed && r.skipped == s.skipped && r.exited == s.exited
  {
    s.(log := s.log + [Entry(prefix, at, msg)])
  }

  /** `TT_GRIPE(args)`: print a FAIL line. */
  function Gripe(s: RunState, at: Location, msg: Msg): (r: RunState)
    ensures r.log == s.log + [Entry(FAIL, at, msg)]
    ensures r.failed == s.failed && r.skipped == s.skipped && r.exited == s.exited
  {
    Declare(s, FAIL, at, msg)
  }

  /** `TT_BLATHER(args)`: print an "  OK" line, only when verbose. */
  function Blather(s: RunState, verbosity: int, at: Location, msg: Msg): (r: RunState)
    ensures Success(s, r, verbosity, at, msg)
  {
    if verbosity > 1 then Declare(s, OK, at, msg) else s
  }

  /** `TT_DIE(args)`: mark the test failed, print a FAIL line, leave the body. */
  function Die(s: RunState, at: Location, msg: Msg): (r: RunState)
    ensures Failure(s, r, at, msg, true)
  {
    Gripe(s.(failed := true), at, msg).(exited := true)
  }

  /** `TT_FAIL(args)`: mark the test failed and print a FAIL line; the body goes on. */
  function FailTest(s: RunState, at: Location, msg: Msg): (r: RunState)
    ensures Failure(s, r, at, msg, false)
  {
    Gripe(s.(failed := true), at, msg)
  }

  /** `TT_DIE` is `TT_FAIL` followed by leaving the test body. */
  lemma DieIsFailThenExit(s: RunState, at: Location, msg: Msg)
    ensures Die(s, at, msg) == FailTest(s, at, msg).(exited := true)
    ensures !s.exited ==> !FailTest(s, at, msg).exited && Die(s, at, msg).exited
  {
  }

  /** A printed line of either label keeps the run invariant and only moves
      forward; an "  OK" line also keeps the stronger one. */
  lemma DeclareKeepsInvariant(s: RunState, prefix: Label, at: Location, msg: Msg)
    ensures Progress(s, Declare(s, prefix, at, msg))
    ensures Consistent(s) ==> Consistent(Declare(s, prefix, at, msg))
    ensures Exact(s) && prefix == OK ==> Exact(Declare(s, prefix, at, msg))
  {
    var r := Declare(s, prefix, at, msg);
    if HasFailure(s.log) {
      var i :| 0 <= i < |s.log| && s.log[i].prefix == FAIL;
      assert r.log[i] == s.log[i];
    }
    if prefix == OK && HasFailure(r.log) {
      var i :| 0 <= i < |r.log| && r.log[i].prefix == FAIL;
      assert i < |s.log| && s.log[i] == r.log[i];
    }
  }

  /** `TT_GRIPE` prints a FAIL line without marking the test failed: from the
      start of a body it leaves a run that is consistent but not exact. */
  lemma GripeDoesNotFail(at: Location, msg: Msg)
    ensures var r := Gripe(Start(), at, msg);
      && !r.failed && HasFailure(r.log)
      && Consistent(r) && !Exact(r)
  {
    var r := Gripe(Start(), at, msg);
    assert r.log[0].prefix == FAIL;
  }

  /** Every failure report keeps both invariants and can only move forward. */
  lemma FailureKeepsInvariant(s: RunState, r: RunState, at: Location, msg: Msg, fatal: bool)
    requires Failure(s, r, at, msg, fatal)
    ensures Progress(s, r)
    ensures Consistent(s) ==> Consistent(r)
    ensures Exact(s) ==> Exact(r)
  {
    assert r.log[|s.log|].prefix == FAIL;
  }

  /** Every success report keeps both invariants and can only move forward. */
  lemma SuccessKeepsInvariant(s: RunState, r: RunState, verbosity: int, at: Location, msg: Msg)
    requires Success(s, r, verbosity, at, msg)
    ensures Progress(s, r)
    ensures Consistent(s) ==> Consistent(r)
    ensures Exact(s) ==> Exact(r)
  {
    if verbosity > 1 {
      DeclareKeepsInvariant(s, OK, at, msg);
    }
  }

  /** Progress is transitive, so a run is monotone over any number of steps. */
  lemma ProgressTransitive(s: RunState, t: RunState, u: RunState)
    requires Progress(s, t) && Progress(t, u)
    ensures Progress(s, u)
  {
  }
}
