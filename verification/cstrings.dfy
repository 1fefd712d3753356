/**
  The two C library string routines the string assertions rely on:
  `strcmp` (ISO C99 section 7.21.4.2), a lexicographic three-way comparison of
  the bytes of two NUL-terminated strings read as `unsigned char`, and `strstr`
  (ISO C99 section 7.21.5.7), the first occurrence of one string inside another.

  A C string is modelled by its contents: the bytes before the terminating NUL.
 */
module CStrings {

  datatype Option<T> = None | Some(value: T)

  /** True iff every element of `s` is a byte other than NUL. */
  predicate NoNul(s: seq<nat>) {
    forall i | 0 <= i < |s| :: 0 < s[i] < 256
  }

  /** The contents of a NUL-terminated C string. */
  type CString = s: seq<nat> | NoNul(s) witness []

  /** Sign of an integer: the only part of a `strcmp` result that callers may rely on. */
  function Sign(x: int): (r: int)
    ensures r < 0 <==> x < 0
    ensures r == 0 <==> x == 0
    ensures r > 0 <==> x > 0
    ensures -1 <= r <= 1
  {
    if x < 0 then -1 else if x == 0 then 0 else 1
  }

  // ---------------------------------------------------------------------------
  // Three-way comparison
  // ---------------------------------------------------------------------------

  /** Lexicographic three-way comparison: -1, 0 or 1 as `a` sorts before, equal
      to or after `b`; a proper prefix sorts first. */
  function Compare3(a: seq<nat>, b: seq<nat>): (r: int)
    ensures -1 <= r <= 1
    ensures r == 0 <==> a == b
    decreases |a|
  {
    if |a| == 0 then (if |b| == 0 then 0 else -1)
    else if |b| == 0 then 1
    else if a[0] < b[0] then -1
    else if a[0] > b[0] then 1
    else
      var r := Compare3(a[1..], b[1..]);
      assert a == [a[0]] + a[1..] && b == [b[0]] + b[1..];
      r
  }

  /** Independent definition of "lexicographically less": `a` is a proper
      prefix of `b`, or the first position where they differ holds a smaller
      byte in `a`. */
  ghost predicate LexLess(a: seq<nat>, b: seq<nat>) {
    || (|a| < |b| && a == b[..|a|])
    || exists k :: 0 <= k < |a| && k < |b| && a[..k] == b[..k] && a[k] < b[k]
  }

  /** Two strings with a non-empty common prefix have the same first byte. */
  lemma CommonPrefixHead(a: seq<nat>, b: seq<nat>)
    ensures forall k :: 0 < k <= |a| && k <= |b| && a[..k] == b[..k] ==> a[0] == b[0]
  {
  }

  /** LexLess of two strings with the same first byte is LexLess of their tails. */
  lemma LexLessTail(a: seq<nat>, b: seq<nat>)
    requires |a| > 0 && |b| > 0 && a[0] == b[0]
    ensures LexLess(a, b) <==> LexLess(a[1..], b[1..])
  {
    if |a| < |b| && a == b[..|a|] {
      assert a[1..] == b[1..][..|a[1..]|];
    }
    if |a[1..]| < |b[1..]| && a[1..] == b[1..][..|a[1..]|] {
      assert a == b[..|a|];
    }
    if k :| 0 <= k < |a| && k < |b| && a[..k] == b[..k] && a[k] < b[k] {
      assert k > 0;
      assert a[1..][..k-1] == a[1..k] == b[1..k] == b[1..][..k-1];
      assert a[1..][k-1] < b[1..][k-1];
    }
    if k :| 0 <= k < |a[1..]| && k < |b[1..]| && a[1..][..k] == b[1..][..k] && a[1..][k] < b[1..][k] {
      assert a[..k+1] == [a[0]] + a[1..][..k];
      assert b[..k+1] == [b[0]] + b[1..][..k];
      assert a[k+1] < b[k+1];
    }
  }

  /** Compare3 reports "less" exactly when `a` is lexicographically less than `b`. */
  lemma {:induction false} Compare3IsLexLess(a: seq<nat>, b: seq<nat>)
    ensures Compare3(a, b) < 0 <==> LexLess(a, b)
    decreases |a|
  {
    if |a| == 0 {
      if |b| > 0 {
        assert a == b[..0];
      }
    } else if |b| == 0 {
    } else if a[0] < b[0] {
      assert a[..0] == b[..0];
    } else if a[0] > b[0] {
      CommonPrefixHead(a, b);
    } else {
      Compare3IsLexLess(a[1..], b[1..]);
      LexLessTail(a, b);
    }
  }

  /** Swapping the operands negates the comparison. */
  lemma {:induction false} Compare3Antisymmetric(a: seq<nat>, b: seq<nat>)
    ensures Compare3(b, a) == -Compare3(a, b)
    decreases |a|
  {
    if |a| > 0 && |b| > 0 && a[0] == b[0] {
      Compare3Antisymmetric(a[1..], b[1..]);
    }
  }

  /** Compare3 reports "greater" exactly when `b` is lexicographically less than `a`. */
  lemma Compare3IsLexGreater(a: seq<nat>, b: seq<nat>)
    ensures Compare3(a, b) > 0 <==> LexLess(b, a)
  {
    Compare3Antisymmetric(a, b);
    Compare3IsLexLess(b, a);
  }

  /** The order Compare3 induces is transitive. */
  lemma {:induction false} Compare3Transitive(a: seq<nat>, b: seq<nat>, c: seq<nat>)
    requires Compare3(a, b) < 0 && Compare3(b, c) < 0
    ensures Compare3(a, c) < 0
    decreases |a|
  {
    if |a| > 0 && |b| > 0 && |c| > 0 && a[0] == b[0] == c[0] {
      Compare3Transitive(a[1..], b[1..], c[1..]);
    }
  }

  /** `strcmp` as the C library runs it: walk both NUL-terminated buffers while
      the bytes agree and are not NUL, then subtract the bytes where it stopped.
      Only the sign of the result is specified, and it is that of Compare3. */
  method Strcmp(a: CString, b: CString) returns (r: int)
    ensures Sign(r) == Compare3(a, b)
    ensures r == 0 <==> a == b
  {
    var ta := a + [0];
    var tb := b + [0];
    var i := 0;
    while ta[i] == tb[i] && ta[i] != 0
      invariant i <= |a| && i <= |b|
      invariant Compare3(a[i..], b[i..]) == Compare3(a, b)
      decreases |a| - i
    {
      assert i < |a| && i < |b|;
      assert a[i..][1..] == a[i+1..] && b[i..][1..] == b[i+1..];
      i := i + 1;
    }
    r := ta[i] as int - tb[i] as int;
    if i == |a| && i < |b| {
      assert b[i] != 0;
    } else if i < |a| && i == |b| {
      assert a[i] != 0;
    }
  }

  // ---------------------------------------------------------------------------
  // Substring search
  // ---------------------------------------------------------------------------

  /** `needle` occurs in `hay` starting at index `i`. */
  ghost predicate OccursAt(hay: seq<nat>, needle: seq<nat>, i: int) {
    0 <= i && i + |needle| <= |hay| && hay[i..i + |needle|] == needle
  }

  /** `needle` occurs contiguously somewhere in `hay`. */
  ghost predicate Contains(hay: seq<nat>, needle: seq<nat>) {
    exists i :: OccursAt(hay, needle, i)
  }

  /** The first occurrence of `needle` in `hay` at or after index `from`. */
  function FindFrom(hay: seq<nat>, needle: seq<nat>, from: nat): (r: Option<nat>)
    ensures r.Some? ==> from <= r.value && OccursAt(hay, needle, r.value)
    ensures r.Some? ==> forall j :: from <= j < r.value ==> !OccursAt(hay, needle, j)
    ensures r.None? ==> forall j :: from <= j ==> !OccursAt(hay, needle, j)
    decreases |hay| - from
  {
    if from + |needle| > |hay| then None
    else if hay[from..from + |needle|] == needle then Some(from)
    else FindFrom(hay, needle, from + 1)
  }

  /** `strstr`: the index of the first occurrence of `needle` in `hay`, or None
      where C returns NULL. An empty needle is found at index 0. */
  function Strstr(hay: seq<nat>, needle: seq<nat>): (r: Option<nat>)
    ensures r.Some? <==> Contains(hay, needle)
    ensures r.Some? ==> OccursAt(hay, needle, r.value)
    ensures r.Some? ==> forall j :: 0 <= j < r.value ==> !OccursAt(hay, needle, j)
  {
    FindFrom(hay, needle, 0)
  }

  /** The bytes of "hello world", "world" and "xyz". */
  const HelloWorld: CString := [104, 101, 108, 108, 111, 32, 119, 111, 114, 108, 100]
  const World: CString := [119, 111, 114, 108, 100]
  const Xyz: CString := [120, 121, 122]

  /** An occurrence of a non-empty needle starts with the needle's first byte. */
  lemma OccurrenceStartsWithHead(hay: seq<nat>, needle: seq<nat>)
    requires |needle| > 0
    ensures forall j :: OccursAt(hay, needle, j) ==> hay[j] == needle[0]
  {
  }

  /** "world" is found in "hello world", first at index 6; "xyz" is not found. */
  lemma StrstrExamples()
    ensures Strstr(HelloWorld, World) == Some(6)
    ensures Strstr(HelloWorld, Xyz) == None
  {
    assert HelloWorld[6..11] == World;
    assert OccursAt(HelloWorld, World, 6);
    OccurrenceStartsWithHead(HelloWorld, World);
    OccurrenceStartsWithHead(HelloWorld, Xyz);
    assert forall j | 0 <= j < |HelloWorld| :: HelloWorld[j] == 119 ==> j == 6;
    assert forall j | 0 <= j < |HelloWorld| :: HelloWorld[j] != 120;
  }
}
