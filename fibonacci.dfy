/**
 * `nth_fibonacci` of chapt3/exercise: the recursive Fibonacci function with
 * an extra early return for `n == 5`, on `i32`, and the while-loop version
 * left in the file as a comment.
 */
module Fibonacci {
  import opened Ints

  /** The Fibonacci numbers: F(0) = 0, F(1) = 1, F(n) = F(n - 1) + F(n - 2). */
  function Fib(n: nat): nat
  {
    if n < 2 then n else Fib(n - 1) + Fib(n - 2)
  }

  /** F is non-decreasing. */
  lemma {:induction false} FibMonotonic(m: nat, n: nat)
    requires m <= n
    ensures Fib(m) <= Fib(n)
    decreases n - m
  {
    if m < n {
      FibMonotonic(m, n - 1);
      if n >= 2 {
        assert Fib(n) == Fib(n - 1) + Fib(n - 2);
      }
    }
  }

  /** F(46) is the largest Fibonacci number an `i32` holds; F(47) is too large. */
  lemma FibI32Limit()
    ensures Fib(46) == 1836311903 <= I32_MAX
    ensures Fib(47) == 2971215073 > I32_MAX
  {
    // each step lets the verifier unfold the definition a few levels from known values
    assert Fib(5) == 5;
    assert Fib(10) == 55;
    assert Fib(15) == 610;
    assert Fib(20) == 6765;
    assert Fib(25) == 75025;
    assert Fib(30) == 832040;
    assert Fib(35) == 9227465;
    assert Fib(40) == 102334155;
    assert Fib(45) == 1134903170;
    assert Fib(46) == 1836311903;
    assert Fib(47) == 2971215073;
  }

  /**
   * `nth_fibonacci`, branch for branch, with the source's `i32` arithmetic.
   * The early return for 5 gives what the recursion would, so the result is
   * F(n) for every n >= 0, and 0 below. The addition in the last branch
   * overflows (a panic in a debug build) for every n > 46, so callers must
   * stay at or below 46.
   */
  function NthFibonacci(n: i32): (r: i32)
    requires n <= 46
    ensures r as int == if n < 0 then 0 else Fib(n as int)
    decreases if n < 0 then 0 else n as int
  {
    if n == 5 then 5
    else if n <= 0 then 0
    else if n == 1 then 1
    else
      var a := NthFibonacci(n - 1);
      var b := NthFibonacci(n - 2);
      FibI32Limit();
      FibMonotonic(n as nat, 46);
      a + b
  }

  /** For n = 47 the last branch's addition F(46) + F(45) exceeds `i32::MAX`. */
  lemma OverflowAt47()
    ensures NthFibonacci(46) as int + NthFibonacci(45) as int > I32_MAX
  {
    FibI32Limit();
  }

  /** The asserts of `test_nth_fibonacci`. */
  lemma TestNthFibonacci()
    ensures NthFibonacci(1) == 1 && NthFibonacci(2) == 1 && NthFibonacci(3) == 2 && NthFibonacci(4) == 3
    ensures NthFibonacci(5) == 5 && NthFibonacci(6) == 8 && NthFibonacci(7) == 13 && NthFibonacci(8) == 21
  {
  }

  /**
   * The commented-out loop version. It runs `n - 1` steps, so for `n >= 1` it
   * agrees with the recursive version; for `n <= 0` it runs none and returns
   * 1 where the recursive version returns 0.
   */
  method NthFibonacciLoop(n: i32) returns (current: i32)
    requires I32_MIN < n as int <= 46
    ensures n >= 1 ==> current as int == Fib(n as int)
    ensures n <= 0 ==> current == 1
  {
    var prev: i32 := 0;
    current := 1;
    var k := n;
    FibI32Limit();
    while k - 1 > 0
      invariant k <= n
      invariant n >= 1 ==> 1 <= k
      invariant n >= 1 ==> prev as int == Fib((n - k) as int) && current as int == Fib((n - k + 1) as int)
      invariant n <= 0 ==> k == n && prev == 0 && current == 1
    {
      FibMonotonic((n - k + 2) as nat, 46);
      var next := prev + current;
      prev := current;
      current := next;
      k := k - 1;
    }
  }
}
