/**
  Typed comparison assertions: `tt_assert_test_type` and its specialisations
  `tt_int_op`, `tt_uint_op`, `tt_ptr_op`, `tt_str_op` and `tt_str_contains_op`.

  An operand is a C expression: evaluating it in program state `S` yields a
  value and a possibly changed state. The macro binds `_val1` and then `_val2`,
  each exactly once, and both the test and the message use those bindings,
  in the state both operands left. A string operand is a `const char *`
  address; the bytes it points to are read from that final state.
 */
module TypedCompare {
  import opened CStrings
  import opened Outcome

  /** The relational operator written between the operands. */
  datatype Op = EQ | NE | LT | LE | GT | GE

  /** The source spelling of an operator, as `#op` stringifies it. */
  function OpText(op: Op): (r: string)
    ensures 1 <= |r| <= 2
  {
    match op
    case EQ => "=="
    case NE => "!="
    case LT => "<"
    case LE => "<="
    case GT => ">"
    case GE => ">="
  }

  /** `x op y` on integers. */
  predicate Apply(op: Op, x: int, y: int) {
    match op
    case EQ => x == y
    case NE => x != y
    case LT => x < y
    case LE => x <= y
    case GT => x > y
    case GE => x >= y
  }

  /** A C operand expression of type `T`, evaluated in program state `S`. */
  type Operand<!S, T> = S -> (T, S)

  /** The string a program state holds at each address: what `strcmp`,
      `strstr` and `%s` read through a `const char *`. */
  type Memory<!S> = (S, nat) -> CString

  /** `#a " " #op " " #b`: the source text of the comparison. */
  function ExprText(aText: string, op: Op, bText: string): (r: string)
    ensures |r| == |aText| + |OpText(op)| + |bText| + 2
  {
    aText + " " + OpText(op) + " " + bText
  }

  /** `type _val1 = (type)(a); type _val2 = (type)(b);`: evaluate `a`, then
      `b` in the state `a` left, once each. */
  function Bind<S, T>(a: Operand<S, T>, b: Operand<S, T>, prog: S): (r: (T, T, S))
    ensures r.0 == a(prog).0
    ensures r.1 == b(a(prog).1).0
    ensures r.2 == b(a(prog).1).1
  {
    var (v1, p1) := a(prog);
    var (v2, p2) := b(p1);
    (v1, v2, p2)
  }

  /** The effect of a typed comparison whose bound operands print as `left`
      and `right` and whose test gave `ok`: a failure is fatal and its message
      carries the comparison's source text and both values; a pass prints the
      same message at verbosity above 1. */
  ghost predicate ComparisonReported(s: RunState, r: RunState, verbosity: int, at: Location,
                            expr: string, left: Value, right: Value, ok: bool)
  {
    && (ok ==> Success(s, r, verbosity, at, Compared(expr, left, right)))
    && (!ok ==> Failure(s, r, at, Compared(expr, left, right), true))
  }

  /** `tt_assert_test_type(a, b, str_test, type, test, fmt)`. The test and the
      formatting of the two values run after both declarations, so they see
      the state `p` the operands left. */
  function AssertTestType<S, T>(s: RunState, verbosity: int, at: Location,
                                a: Operand<S, T>, b: Operand<S, T>, expr: string,
                                test: (T, T, S) -> bool, fmt: (T, S) -> Value, prog: S): (r: (RunState, S))
    ensures var (v1, v2, p) := Bind(a, b, prog);
      && r.1 == p
      && ComparisonReported(s, r.0, verbosity, at, expr, fmt(v1, p), fmt(v2, p), test(v1, v2, p))
    ensures Progress(s, r.0)
    ensures Consistent(s) ==> Consistent(r.0)
    ensures Exact(s) ==> Exact(r.0)
  {
    var (v1, v2, p) := Bind(a, b, prog);
    var msg := Compared(expr, fmt(v1, p), fmt(v2, p));
    if !test(v1, v2, p) then
      var r := Die(s, at, msg);
      FailureKeepsInvariant(s, r, at, msg, true);
      (r, p)
    else
      var r := Blather(s, verbosity, at, msg);
      SuccessKeepsInvariant(s, r, verbosity, at, msg);
      (r, p)
  }

  /** `tt_int_op(a, op, b)`: compare as `long`, print with `%ld`. */
  function IntOp<S>(s: RunState, verbosity: int, at: Location,
                    a: Operand<S, int>, aText: string, op: Op, b: Operand<S, int>, bText: string,
                    prog: S): (r: (RunState, S))
    ensures var (v1, v2, p) := Bind(a, b, prog);
      && r.1 == p
      && ComparisonReported(s, r.0, verbosity, at, ExprText(aText, op, bText), Long(v1), Long(v2), Apply(op, v1, v2))
  {
    AssertTestType(s, verbosity, at, a, b, ExprText(aText, op, bText),
                   (x: int, y: int, _: S) => Apply(op, x, y), (x: int, _: S) => Long(x), prog)
  }

  /** `tt_uint_op(a, op, b)`: compare as `unsigned long`, print with `%lu`. */
  function UIntOp<S>(s: RunState, verbosity: int, at: Location,
                     a: Operand<S, nat>, aText: string, op: Op, b: Operand<S, nat>, bText: string,
                     prog: S): (r: (RunState, S))
    ensures var (v1, v2, p) := Bind(a, b, prog);
      && r.1 == p
      && ComparisonReported(s, r.0, verbosity, at, ExprText(aText, op, bText), ULong(v1), ULong(v2), Apply(op, v1, v2))
  {
    AssertTestType(s, verbosity, at, a, b, ExprText(aText, op, bText),
                   (x: nat, y: nat, _: S) => Apply(op, x, y), (x: nat, _: S) => ULong(x), prog)
  }

  /** `tt_ptr_op(a, op, b)`: compare the addresses as `void *`, print with `%p`. */
  function PtrOp<S>(s: RunState, verbosity: int, at: Location,
                    a: Operand<S, nat>, aText: string, op: Op, b: Operand<S, nat>, bText: string,
                    prog: S): (r: (RunState, S))
    ensures var (v1, v2, p) := Bind(a, b, prog);
      && r.1 == p
      && ComparisonReported(s, r.0, verbosity, at, ExprText(aText, op, bText), Ptr(v1), Ptr(v2), Apply(op, v1, v2))
  {
    AssertTestType(s, verbosity, at, a, b, ExprText(aText, op, bText),
                   (x: nat, y: nat, _: S) => Apply(op, x, y), (x: nat, _: S) => Ptr(x), prog)
  }

  /** `tt_str_op(a, op, b)`: the operands are `const char *` addresses; the
      test is `strcmp(_val1, _val2) op 0` on the strings found at them once
      both operands have run, and each prints as `<%s>`. */
  function StrOp<S>(s: RunState, verbosity: int, at: Location,
                    a: Operand<S, nat>, aText: string, op: Op, b: Operand<S, nat>, bText: string,
                    mem: Memory<S>, prog: S): (r: (RunState, S))
    ensures var (v1, v2, p) := Bind(a, b, prog);
      && r.1 == p
      && ComparisonReported(s, r.0, verbosity, at, ExprText(aText, op, bText), Str(mem(p, v1)), Str(mem(p, v2)),
                   Apply(op, Compare3(mem(p, v1), mem(p, v2)), 0))
  {
    AssertTestType(s, verbosity, at, a, b, ExprText(aText, op, bText),
                   (x: nat, y: nat, q: S) => Apply(op, Compare3(mem(q, x), mem(q, y)), 0),
                   (x: nat, q: S) => Str(mem(q, x)), prog)
  }

  /** `tt_str_contains_op(a, op, b)`: the test is `strstr(_val1, _val2) != NULL`
      on the strings found at the two addresses once both operands have run;
      `op` appears in the printed source text only. */
  function StrContainsOp<S>(s: RunState, verbosity: int, at: Location,
                            a: Operand<S, nat>, aText: string, op: Op, b: Operand<S, nat>, bText: string,
                            mem: Memory<S>, prog: S): (r: (RunState, S))
    ensures var (v1, v2, p) := Bind(a, b, prog);
      && r.1 == p
      && ComparisonReported(s, r.0, verbosity, at, ExprText(aText, op, bText), Str(mem(p, v1)), Str(mem(p, v2)),
                   Contains(mem(p, v1), mem(p, v2)))
  {
    AssertTestType(s, verbosity, at, a, b, ExprText(aText, op, bText),
                   (x: nat, y: nat, q: S) => Strstr(mem(q, x), mem(q, y)).Some?,
                   (x: nat, q: S) => Str(mem(q, x)), prog)
  }

  // ---------------------------------------------------------------------------
  // Properties of the string assertions
  // ---------------------------------------------------------------------------

  /** Applying `op` to a `strcmp` result against 0 depends only on its sign, so
      any C library's result agrees with Compare3. */
  lemma ApplyToSign(op: Op, x: int)
    ensures Apply(op, x, 0) == Apply(op, Sign(x), 0)
  {
  }

  /** Whatever the C library's `strcmp` returns, only its sign reaches the
      test: a result with Compare3's sign, which `Strcmp` has, decides
      `op` against 0 as Compare3 does. */
  lemma StrcmpDecidesStrTest(op: Op, a: CString, b: CString, r: int)
    requires Sign(r) == Compare3(a, b)
    ensures Apply(op, r, 0) == Apply(op, Compare3(a, b), 0)
  {
    ApplyToSign(op, r);
  }

  /** The test of `tt_str_op` as C evaluates it: call `strcmp` and apply `op`
      to its result against 0. It agrees with the test `StrOp` applies. */
  method StrTest(op: Op, a: CString, b: CString) returns (ok: bool)
    ensures ok == Apply(op, Compare3(a, b), 0)
    ensures op == EQ ==> (ok <==> a == b)
  {
    var r := Strcmp(a, b);
    StrcmpDecidesStrTest(op, a, b, r);
    ok := Apply(op, r, 0);
  }

  /** `tt_str_op` compares contents, not pointers: EQ fails exactly when the
      strings at the two addresses differ, whatever the addresses are. */
  lemma StrEqIsContentEquality<S>(s: RunState, verbosity: int, at: Location,
                                  a: Operand<S, nat>, aText: string, b: Operand<S, nat>, bText: string,
                                  mem: Memory<S>, prog: S)
    ensures var (v1, v2, p) := Bind(a, b, prog);
      var r := StrOp(s, verbosity, at, a, aText, EQ, b, bText, mem, prog).0;
      (r.failed <==> s.failed || mem(p, v1) != mem(p, v2))
  {
  }

  /** `tt_str_op` with `<` fails exactly when the first string is not
      lexicographically less than the second. */
  lemma StrLtIsLexLess<S>(s: RunState, verbosity: int, at: Location,
                          a: Operand<S, nat>, aText: string, b: Operand<S, nat>, bText: string,
                          mem: Memory<S>, prog: S)
    ensures var (v1, v2, p) := Bind(a, b, prog);
      var r := StrOp(s, verbosity, at, a, aText, LT, b, bText, mem, prog).0;
      (r.failed <==> s.failed || !LexLess(mem(p, v1), mem(p, v2)))
  {
    var (v1, v2, p) := Bind(a, b, prog);
    Compare3IsLexLess(mem(p, v1), mem(p, v2));
  }

  /** `tt_str_op` with `>` fails exactly when the second string is not
      lexicographically less than the first. */
  lemma StrGtIsLexGreater<S>(s: RunState, verbosity: int, at: Location,
                             a: Operand<S, nat>, aText: string, b: Operand<S, nat>, bText: string,
                             mem: Memory<S>, prog: S)
    ensures var (v1, v2, p) := Bind(a, b, prog);
      var r := StrOp(s, verbosity, at, a, aText, GT, b, bText, mem, prog).0;
      (r.failed <==> s.failed || !LexLess(mem(p, v2), mem(p, v1)))
  {
    var (v1, v2, p) := Bind(a, b, prog);
    Compare3IsLexGreater(mem(p, v1), mem(p, v2));
  }

  /** `tt_str_contains_op` ignores its operator: two uses that differ only in
      `op` change the flags alike and print lines with the same labels. */
  lemma ContainsIgnoresOp<S>(s: RunState, verbosity: int, at: Location,
                             a: Operand<S, nat>, aText: string, op1: Op, op2: Op,
                             b: Operand<S, nat>, bText: string, mem: Memory<S>, prog: S)
    ensures var r1 := StrContainsOp(s, verbosity, at, a, aText, op1, b, bText, mem, prog);
      var r2 := StrContainsOp(s, verbosity, at, a, aText, op2, b, bText, mem, prog);
      && r1.1 == r2.1
      && r1.0.failed == r2.0.failed && r1.0.skipped == r2.0.skipped && r1.0.exited == r2.0.exited
      && |r1.0.log| == |r2.0.log|
      && forall i | 0 <= i < |r1.0.log| :: r1.0.log[i].prefix == r2.0.log[i].prefix
  {
  }

  /** The strings are read after both operands have run. With one buffer
      holding "a" at address 1 and the literal "b" at address 2, the second
      operand of `tt_str_op(buf, ==, (buf[0] = 'b', "b"))` rewrites the
      buffer first, so the comparison sees "b" twice and passes. */
  lemma StrOpReadsAfterBothOperands()
    ensures var buf: Operand<CString, nat> := (m: CString) => (1, m);
      var lit: Operand<CString, nat> := (m: CString) => (2, [98]);
      var mem: Memory<CString> := (m: CString, addr: nat) => if addr == 1 then m else [98];
      var r := StrOp<CString>(Start(), 0, Location("t.c", 1), buf, "buf", EQ, lit, "(buf[0] = 'b', \"b\")", mem, [97]);
      && !r.0.failed && !r.0.exited && r.0.log == []
      && r.1 == [98]
  {
  }

  /** A counting operand: each evaluation advances the program's counter by one. */
  ghost predicate Counting<T>(a: Operand<int, T>) {
    forall n :: a(n).1 == n + 1
  }

  /** Operands are evaluated exactly once each, whether the comparison passes
      or fails, for every test and format: two counting operands advance the
      counter by exactly two. Each specialisation is an instance. */
  lemma OperandsEvaluatedOnce<T>(s: RunState, verbosity: int, at: Location,
                                 a: Operand<int, T>, b: Operand<int, T>, expr: string,
                                 test: (T, T, int) -> bool, fmt: (T, int) -> Value, prog: int)
    requires Counting(a) && Counting(b)
    ensures AssertTestType(s, verbosity, at, a, b, expr, test, fmt, prog).1 == prog + 2
  {
  }
}
