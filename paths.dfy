/**
 * Routing paths of the protocol: the fixed prefix PATH_QUERY_EXECUTOR, the
 * per-query path PATH_QUERY_EXECUTOR + "/" + decimal id, and the prefix test
 * both listeners apply.
 */
module Paths {
  const PathQueryExecutor: string := "/com/dmitry/zaitsev/query"

  /** Java's String.startsWith. */
  predicate StartsWith(s: string, prefix: string) {
    |prefix| <= |s| && s[..|prefix|] == prefix
  }

  predicate IsDigit(c: char) {
    '0' <= c <= '9'
  }

  predicate AllDigits(s: string) {
    forall i :: 0 <= i < |s| ==> IsDigit(s[i])
  }

  function DigitChar(d: nat): (c: char)
    requires d < 10
    ensures IsDigit(c) && c as int - '0' as int == d
  {
    ('0' as int + d) as char
  }

  function DigitValue(c: char): (d: nat)
    requires IsDigit(c)
    ensures d < 10
  {
    c as int - '0' as int
  }

  /** The `%d` rendering of a non-negative id, most significant digit first. */
  function DecimalString(n: nat): (s: string)
    ensures |s| >= 1 && AllDigits(s)
    ensures s[0] == '0' ==> n == 0
    decreases n
  {
    if n < 10 then [DigitChar(n)] else DecimalString(n / 10) + [DigitChar(n % 10)]
  }

  /** The number a string of decimal digits denotes. */
  function DecimalValue(s: string): nat
    requires AllDigits(s)
  {
    if |s| == 0 then 0 else 10 * DecimalValue(s[..|s| - 1]) + DigitValue(s[|s| - 1])
  }

  /** Reading a rendered id back gives the id. */
  lemma {:induction false} DecimalRoundTrip(n: nat)
    ensures DecimalValue(DecimalString(n)) == n
    decreases n
  {
    if n >= 10 {
      DecimalRoundTrip(n / 10);
      var s := DecimalString(n / 10);
      assert (s + [DigitChar(n % 10)])[..|s|] == s;
    }
  }

  /** Distinct ids are rendered differently. */
  lemma DecimalInjective(a: nat, b: nat)
    ensures DecimalString(a) == DecimalString(b) <==> a == b
  {
    DecimalRoundTrip(a);
    DecimalRoundTrip(b);
  }

  /** String.format(PATH_WITH_ID, id): every such path passes the prefix filter. */
  function PathWithId(id: nat): (p: string)
    ensures StartsWith(p, PathQueryExecutor)
    ensures |p| > |PathQueryExecutor| && p[|PathQueryExecutor|] == '/'
  {
    PathQueryExecutor + "/" + DecimalString(id)
  }

  /** Two queries share a path only if they share an id. */
  lemma PathWithIdInjective(a: nat, b: nat)
    ensures PathWithId(a) == PathWithId(b) <==> a == b
  {
    var k := |PathQueryExecutor| + 1;
    assert PathWithId(a)[k..] == DecimalString(a);
    assert PathWithId(b)[k..] == DecimalString(b);
    DecimalInjective(a, b);
  }

  // The as-written counter: java.util.concurrent.atomic.AtomicInteger holds a
  // 32-bit two's-complement int, and getAndIncrement wraps from the largest
  // value to the smallest.

  newtype int32 = x: int | -0x8000_0000 <= x < 0x8000_0000

  /** The value getAndIncrement leaves behind. */
  function Increment32(x: int32): (y: int32)
    ensures x < 0x7FFF_FFFF ==> y as int == x as int + 1
    ensures x == 0x7FFF_FFFF ==> y == -0x8000_0000
  {
    if x == 0x7FFF_FFFF then -0x8000_0000 else x + 1
  }

  /** The id the k-th query of the process (counting from 0) receives. */
  function IssuedId32(k: nat): (id: int32)
    ensures k < 0x8000_0000 ==> id as int == k
  {
    ((k + 0x8000_0000) % 0x1_0000_0000 - 0x8000_0000) as int32
  }

  /** IssuedId32 is the counter after k calls of getAndIncrement from 0. */
  lemma IssuedId32Step(k: nat)
    ensures IssuedId32(k + 1) == Increment32(IssuedId32(k))
  {
  }

  /** `%d` of a Java int, with a minus sign for negative values. */
  function JavaDecimal(x: int): (s: string)
    ensures |s| >= 1
    ensures x >= 0 ==> s == DecimalString(x)
    ensures x < 0 ==> s[0] == '-' && s[1..] == DecimalString(-x)
  {
    if x < 0 then "-" + DecimalString(-x) else DecimalString(x)
  }

  /** The path the k-th query gets with the source's 32-bit counter. */
  function PathWithId32(k: nat): (p: string)
    ensures StartsWith(p, PathQueryExecutor)
  {
    PathQueryExecutor + "/" + JavaDecimal(IssuedId32(k) as int)
  }

  /** The `%d` rendering of Java ints is injective, negative values included. */
  lemma JavaDecimalInjective(a: int, b: int)
    ensures JavaDecimal(a) == JavaDecimal(b) <==> a == b
  {
    if a < 0 && b < 0 {
      DecimalInjective(-a, -b);
    } else if a >= 0 && b >= 0 {
      DecimalInjective(a, b);
    }
  }

  /** Two queries get the same 32-bit id exactly when their numbers agree modulo 2^32. */
  lemma IssuedId32Equal(j: nat, k: nat)
    ensures IssuedId32(j) == IssuedId32(k) <==> j % 0x1_0000_0000 == k % 0x1_0000_0000
  {
    var m := 0x1_0000_0000;
    var jr, kr := j % m, k % m;
    assert (j + 0x8000_0000) % m == (jr + 0x8000_0000) % m;
    assert (k + 0x8000_0000) % m == (kr + 0x8000_0000) % m;
  }

  /**
   * As written, the paths of queries j and k coincide exactly when j and k
   * agree modulo 2^32: paths repeat every 2^32 queries and never sooner.
   */
  lemma PathWithId32Repeats(j: nat, k: nat)
    ensures PathWithId32(j) == PathWithId32(k) <==> j % 0x1_0000_0000 == k % 0x1_0000_0000
  {
    var n := |PathQueryExecutor| + 1;
    assert PathWithId32(j)[n..] == JavaDecimal(IssuedId32(j) as int);
    assert PathWithId32(k)[n..] == JavaDecimal(IssuedId32(k) as int);
    JavaDecimalInjective(IssuedId32(j) as int, IssuedId32(k) as int);
    IssuedId32Equal(j, k);
  }

  /**
   * With the 32-bit counter the 2^31-th id is smaller than the one before it,
   * and the 2^32-th query reuses the path of the very first one.
   */
  lemma WrappedCounterRepeatsPath()
    ensures IssuedId32(0x8000_0000) < IssuedId32(0x7FFF_FFFF)
    ensures PathWithId32(0x1_0000_0000) == PathWithId32(0)
  {
  }
}
