# tinytest assertion layer, modelled in Dafny

This project models `lib/test/tinytest_macros.h`, the assertion and reporting
layer of the tinytest unit-test harness. Behind the header's macros sits a
small deterministic state machine over one test run:

- `failed`, set through `_tinytest_set_test_failed`;
- `skipped`, set through `_tinytest_set_test_skipped`;
- `exited`, standing for `TT_EXIT_TEST_FUNCTION` (by default `goto end`);
- the ordered log of diagnostic lines printed by `TT_DECLARE`, each
  labelled `FAIL` or `  OK`, with the `__FILE__`/`__LINE__` of the macro use
  and a message.

Every macro family is a pure function on the immutable `RunState` record.

| file | module | what it holds |
|---|---|---|
| `cstrings.dfy` | `CStrings` | C strings as their bytes before the NUL; `Compare3`, the three-way lexicographic comparison behind `strcmp` (section 7.21.4.2 of ISO C99); `Strcmp`, the C byte loop, proved to agree with it in sign; `Strstr`, the first occurrence behind `strstr` (section 7.21.5.7 of ISO C99). |
| `outcome.dfy` | `Outcome` | the run state and its invariant; `TT_DECLARE`, `TT_GRIPE`, `TT_BLATHER`, `TT_DIE`, `TT_FAIL`. |
| `expectations.dfy` | `Expectations` | `tt_abort*`, `tt_fail*`, `tt_skip`, `_tt_want`, `tt_want*`, `tt_assert*`. |
| `typed.dfy` | `TypedCompare` | `tt_assert_test_type` and `tt_int_op`, `tt_uint_op`, `tt_ptr_op`, `tt_str_op`, `tt_str_contains_op`. |
| `body.dfy` | `TestBody` | a test body as a list of statements run until one leaves the body. |

Three properties tie the model together:

- **The run invariant** `Outcome.Consistent`: a run is marked failed only
  once a `FAIL` line has been printed, and a skipped run has left its body.
  Every macro keeps it, including a direct `TT_DECLARE`, `TT_GRIPE` or
  `TT_BLATHER` in a test body.
- **The exact invariant** `Outcome.Exact`: a run is marked failed exactly when
  a `FAIL` line has been printed. Every macro keeps it except a direct
  `TT_GRIPE` or `TT_DECLARE` with the `FAIL` prefix, which prints a `FAIL`
  line without calling `_tinytest_set_test_failed`
  (`Outcome.GripeDoesNotFail`).
- **The relation** `Outcome.Progress`: no flag is ever cleared, and printed
  lines are never taken back. So `failed`, once true, stays true through any
  later sequence of steps (`TestBody.Run`).

Operands of the typed comparisons are C expressions. Each is modelled as a
function from a program state `S` to a value and a new state. The macro binds
`_val1` and then `_val2` once each (`TypedCompare.Bind`). The test and the
printed message both use those bindings, evaluated in the state both operands
left. A string operand binds only an address. The bytes that `strcmp`,
`strstr` and `<%s>` read through it come from that final state
(`TypedCompare.Memory`), so an operand that rewrites a buffer the other
operand points to is seen by the comparison. With operands that each bump a
counter, the counter moves by exactly two, whether the comparison passes or
fails, for every test and format.

`tt_abort_printf(msg)` and `tt_fail_printf(msg)` are `TT_DIE` and `TT_FAIL`
applied to an already formatted message, so they are `Outcome.Die` and
`Outcome.FailTest` themselves.

Two facts of the header shape the state machine:

- The success label is printed as `"  OK"`, two spaces included
  (lib/test/tinytest_macros.h:54; `Outcome.OK`).
- Nothing ever clears `failed` (lib/test/tinytest_macros.h:59, 66, 92). After a
  check it is `failed before || condition false`.

## Model

| member | source | states |
|---|---|---|
| `CStrings.Compare3` | lib/test/tinytest_macros.h:141-143 | The three-way comparison `strcmp` stands for returns -1, 0 or 1, and 0 exactly when the two strings have equal contents. |
| `CStrings.Compare3IsLexLess` | lib/test/tinytest_macros.h:141-143 | Compare3 is negative exactly when the first string is lexicographically less than the second. The reference definition is "proper prefix, or smaller byte at the first difference". |
| `CStrings.Compare3IsLexGreater` | lib/test/tinytest_macros.h:141-143 | Compare3 is positive exactly when the second string is lexicographically less than the first. |
| `CStrings.Compare3Antisymmetric` | lib/test/tinytest_macros.h:141-143 | Swapping the operands of the comparison negates its result. |
| `CStrings.Compare3Transitive` | lib/test/tinytest_macros.h:141-143 | The order the comparison induces is transitive. |
| `CStrings.Strcmp` | lib/test/tinytest_macros.h:143 | `strcmp` walks both NUL-terminated buffers and subtracts the bytes where they stop. The sign of its result is Compare3, and it is zero exactly when the contents are equal. |
| `CStrings.FindFrom` | lib/test/tinytest_macros.h:147 | The search returns the first index at or after `from` where the needle occurs, or None when there is none. |
| `CStrings.Strstr` | lib/test/tinytest_macros.h:145-147 | `strstr` finds the needle exactly when it occurs contiguously in the haystack, and then at its first occurrence. |
| `CStrings.StrstrExamples` | lib/test/tinytest_macros.h:145-147 | "world" is found in "hello world" at index 6, and "xyz" is not found. |
| `Outcome.Declare` | lib/test/tinytest_macros.h:40-46 | `TT_DECLARE` prints exactly one line with the given prefix, location and message, and changes no flag. |
| `Outcome.Gripe` | lib/test/tinytest_macros.h:49 | `TT_GRIPE` prints exactly one FAIL line with the given location and message, and changes no flag. |
| `Outcome.Blather` | lib/test/tinytest_macros.h:51-55 | `TT_BLATHER` changes no flag. It prints one `  OK` line iff the verbosity is above 1, and otherwise leaves the log as it was. |
| `Outcome.Die` | lib/test/tinytest_macros.h:57-62 | `TT_DIE` marks the test failed, prints exactly one FAIL line, leaves `skipped` alone and exits the body. |
| `Outcome.FailTest` | lib/test/tinytest_macros.h:64-68 | `TT_FAIL` marks the test failed, prints exactly one FAIL line, and leaves `skipped` and `exited` alone. |
| `Outcome.DieIsFailThenExit` | lib/test/tinytest_macros.h:57-68 | `TT_DIE` is `TT_FAIL` plus exiting. From a live body, `TT_FAIL` does not exit and `TT_DIE` does. |
| `Outcome.DeclareKeepsInvariant` | lib/test/tinytest_macros.h:40-46 | A `TT_DECLARE` line of either label keeps the run invariant and only moves the run forward. An `  OK` line also keeps the exact invariant. |
| `Outcome.GripeDoesNotFail` | lib/test/tinytest_macros.h:43-49 | `TT_GRIPE` prints a FAIL line but does not mark the test failed: from the start of a body it leaves a run that keeps the run invariant and breaks the exact one. |
| `Outcome.FailureKeepsInvariant` | lib/test/tinytest_macros.h:57-68 | A failure report keeps both invariants and only moves the run forward. |
| `Outcome.SuccessKeepsInvariant` | lib/test/tinytest_macros.h:51-55 | A verbosity-gated success report keeps both invariants and only moves the run forward. |
| `Expectations.AbortPerror` | lib/test/tinytest_macros.h:72 | `tt_abort_perror(op)` fails fatally with a message naming `op` and the platform error. |
| `Expectations.AbortMsg` | lib/test/tinytest_macros.h:73 | `tt_abort_msg(msg)` fails fatally with `msg`. |
| `Expectations.Abort` | lib/test/tinytest_macros.h:74 | `tt_abort()` fails fatally with "(Failed.)". |
| `Expectations.FailPerror` | lib/test/tinytest_macros.h:78 | `tt_fail_perror(op)` fails without exiting, with a message naming `op` and the platform error. |
| `Expectations.FailMsg` | lib/test/tinytest_macros.h:79 | `tt_fail_msg(msg)` fails with `msg` without exiting. |
| `Expectations.Fail` | lib/test/tinytest_macros.h:80 | `tt_fail()` fails with "(Failed.)" without exiting. |
| `Expectations.Skip` | lib/test/tinytest_macros.h:83-87 | `tt_skip` sets `skipped` and exits. It does not touch `failed`, writes nothing to the log and keeps both invariants. |
| `Expectations.Expect` | lib/test/tinytest_macros.h:89-98 | On a false condition, `_tt_want` marks the test failed, prints exactly one FAIL line and exits iff fatal. On a true condition it is a verbosity-gated success. Afterwards `failed` holds iff it held before or the condition was false. |
| `Expectations.WantMsg` | lib/test/tinytest_macros.h:101-102 | `tt_want_msg` never changes `exited`: a failure is recorded and later statements still run. |
| `Expectations.AssertMsg` | lib/test/tinytest_macros.h:105-106 | `tt_assert_msg` exits the body exactly when its condition is false, unless the body had already been left. |
| `Expectations.Want` | lib/test/tinytest_macros.h:109 | `tt_want(b)` is a non-fatal check whose message is `want(<text of b>)`. |
| `Expectations.Assert` | lib/test/tinytest_macros.h:111 | `tt_assert(b)` is a fatal check whose message is `assert(<text of b>)`. |
| `Expectations.WantAssertDifferOnlyInExit` | lib/test/tinytest_macros.h:100-106 | A want and an assert of the same condition leave the same `failed`, `skipped` and log, and are identical when the condition holds. |
| `Expectations.CheckPrintsOneLineAtMost` | lib/test/tinytest_macros.h:89-98 | At verbosity 0 or 1 a check prints a line only when it fails. Above 1 it prints exactly one line, labelled FAIL or `  OK` by outcome. |
| `TypedCompare.Bind` | lib/test/tinytest_macros.h:115-116 | `_val1` is the value of `a` in the starting state. `_val2` is the value of `b` in the state `a` left. The final state is the one `b` left. |
| `TypedCompare.AssertTestType` | lib/test/tinytest_macros.h:113-124 | The test is applied to the two bound values in the state both operands left. A failure is fatal and its message carries the comparison text and both values, formatted in that state. A pass logs the same message only at verbosity above 1. |
| `TypedCompare.IntOp` | lib/test/tinytest_macros.h:131-132 | `tt_int_op` passes iff `_val1 op _val2` on the integers, and prints both as `%ld` values. |
| `TypedCompare.UIntOp` | lib/test/tinytest_macros.h:134-136 | `tt_uint_op` passes iff `_val1 op _val2` on the unsigned values, and prints both as `%lu` values. |
| `TypedCompare.PtrOp` | lib/test/tinytest_macros.h:137-139 | `tt_ptr_op` passes iff `_val1 op _val2` on the addresses, and prints both as `%p` values. |
| `TypedCompare.StrOp` | lib/test/tinytest_macros.h:141-143 | `tt_str_op` passes iff `Compare3(*_val1, *_val2) op 0`, on the strings at the two bound addresses read after both operands ran. It prints both of those strings. |
| `TypedCompare.StrContainsOp` | lib/test/tinytest_macros.h:145-147 | `tt_str_contains_op` passes iff the string at the second bound address occurs contiguously in the string at the first, both read after both operands ran. |
| `TypedCompare.ApplyToSign` | lib/test/tinytest_macros.h:143 | `strcmp(...) op 0` depends only on the sign of the `strcmp` result, so Compare3 may stand for any C library's result. |
| `TypedCompare.StrcmpDecidesStrTest` | lib/test/tinytest_macros.h:143 | Any `strcmp` result with Compare3's sign, as `Strcmp` returns, decides `op` against 0 exactly as Compare3 does. |
| `TypedCompare.StrTest` | lib/test/tinytest_macros.h:143 | The C test `strcmp(_val1, _val2) op 0`, computed by the byte loop, equals the test `StrOp` applies; for `==` it holds iff the contents are equal. |
| `TypedCompare.StrEqIsContentEquality` | lib/test/tinytest_macros.h:141-143 | `tt_str_op(a, ==, b)` fails exactly when the strings at the two addresses differ, whatever the addresses. |
| `TypedCompare.StrLtIsLexLess` | lib/test/tinytest_macros.h:141-143 | `tt_str_op(a, <, b)` fails exactly when `a` is not lexicographically less than `b`. |
| `TypedCompare.StrGtIsLexGreater` | lib/test/tinytest_macros.h:141-143 | `tt_str_op(a, >, b)` fails exactly when `b` is not lexicographically less than `a`. |
| `TypedCompare.ContainsIgnoresOp` | lib/test/tinytest_macros.h:145-147 | The operator given to `tt_str_contains_op` does not affect the flags, the program state or the labels printed. |
| `TypedCompare.StrOpReadsAfterBothOperands` | lib/test/tinytest_macros.h:141-143 | With `buf` holding "a", `tt_str_op(buf, ==, (buf[0] = 'b', "b"))` passes: the second operand's write is visible to `strcmp`, and nothing is printed at verbosity 0. |
| `TypedCompare.OperandsEvaluatedOnce` | lib/test/tinytest_macros.h:113-116 | For every test and format, two counter-bumping operands move the counter by exactly two, whether the comparison passes or fails; every specialisation is an instance. |
| `TestBody.Exec` | lib/test/tinytest_macros.h:40-147 | Every modelled statement, including a direct `TT_DECLARE`, `TT_GRIPE` or `TT_BLATHER`, keeps the run invariant and only moves the run forward: no flag is cleared and the log only grows. Every statement except a direct `TT_GRIPE` or `TT_DECLARE` with the `FAIL` prefix keeps the exact invariant. |
| `TestBody.Run` | lib/test/tinytest_macros.h:35-36 | Running a body only moves the run forward: `failed` and `skipped` are never cleared, and the log only grows. The run invariant is kept, and so is the exact one when no statement is a direct `TT_GRIPE` or `TT_DECLARE` with the `FAIL` prefix. Nothing runs once the body has been left. |
| `TestBody.RunAppend` | lib/test/tinytest_macros.h:35-36 | Running two statement lists in turn is the same as running their concatenation. |
| `TestBody.ExitSkipsRest` | lib/test/tinytest_macros.h:35-36 | Once a prefix of the body has left it, appending more statements changes neither the run state nor the program state. |
| `TestBody.FailedAssertEndsBody` | lib/test/tinytest_macros.h:105-106 | After a failed assert, nothing later in the body runs: the result is exactly the old run state with `failed` and `exited` set and one more FAIL line, and the program state as it was. |
| `TestBody.FailedWantContinues` | lib/test/tinytest_macros.h:101-102 | After a failed want, the rest of the body runs from a state that is failed, has one more FAIL line and is not exited. |
| `TestBody.SkipEndsBody` | lib/test/tinytest_macros.h:83-87 | After a skip, nothing later in the body runs. The run is skipped and exited, with `failed` and the log unchanged. |
| `TestBody.NonFatalBodyRunsToEnd` | lib/test/tinytest_macros.h:40-102 | A body made only of code, `tt_want*`, `tt_fail*` and direct `TT_DECLARE`, `TT_GRIPE` or `TT_BLATHER` lines is never left early, however many of its checks fail. |
| `TestBody.StartedRunIsConsistent` | lib/test/tinytest_macros.h:40-98 | A body run from the initial state ends failed only if it printed a FAIL line, and is skipped only if it exited. When no statement is a direct `TT_GRIPE` or `TT_DECLARE` with the `FAIL` prefix, it ends failed exactly when it printed a FAIL line. |
| `TestBody.GripeBodyDoesNotFail` | lib/test/tinytest_macros.h:43-49 | A body whose only statement is `TT_GRIPE` prints one FAIL line and ends neither failed nor exited, with the program state unchanged. |

## Left out

- printf formatting: the text produced by `%ld`, `%lu`, `%p`, `<%s>` and the leading newline and indentation of `TT_DECLARE` is not modelled. A message is a structured value: free text, an operation with an error number, or the comparison text with both operand values.
- `errno` and `strerror`: the `*_perror` forms carry the operation name and an error number passed in as a parameter. The platform's error state and its text are foreign.
- `__FILE__` and `__LINE__` are plain parameters of every step.
- Casts to `long`, `unsigned long` and `void *` are not modelled. Integer operands are mathematical integers, unsigned operands are naturals, and a pointer is a natural address. Truncation and wrap-around depend on the target.
- `TypedCompare.PtrOp`: all six operators are applied to addresses as numbers. C leaves ordering comparisons between pointers into different objects undefined.
- `TypedCompare.StrOp` and `TypedCompare.StrContainsOp`: the string at every address is some valid C string, so a NULL or dangling pointer reads as a string. Passing one to `strcmp` or `strstr` is undefined behaviour in C.
- `tt_assert_op_type` (lib/test/tinytest_macros.h:128-129) is not a member of the model. `tt_int_op`, `tt_uint_op` and `tt_ptr_op` expand straight to `tt_assert_test_type` with the arguments it would pass, and `TypedCompare.AssertTestType` covers that expansion for any operand type.
- `TestBody.Exec`: a test body has no statement for a direct use of `tt_assert_op_type` or `tt_assert_test_type` with a type other than `long`, `unsigned long`, `void *` or `const char *`. `TypedCompare.AssertTestType` still keeps both invariants for any type.
- `TestBody.Run`: a body is straight-line. Branches, loops and a direct `return` around the macros are represented only by the sequence of statements one execution runs.
- Redefining `TT_EXIT_TEST_FUNCTION` or `TT_DECLARE` is not a code path. Exit is the `exited` flag, and a line is a log entry.
- The cleanup code after the `end:` label is not part of a modelled body.
- `_tinytest_get_verbosity`, `_tinytest_set_test_failed` and `_tinytest_set_test_skipped` are defined outside this header. Verbosity is an input, and the two flags are fields of the state.
- `TestBody.Exec`: the condition of a `tt_want`/`tt_assert` statement is a pure function of the program state. A side effect inside the condition is not modelled; the typed comparisons do model side-effecting operands.
- Test discovery, suite running, command-line parsing and exit codes are harness plumbing outside this header.
