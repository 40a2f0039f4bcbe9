/**
 * `Fibonacci(int n)`, the invoke target method of both samples
 * (`MyCustomControl.MyJSInvokeTarget` and
 * `LoadFromFileSystemSample.MyJSInvokeTarget`, which are the same code):
 * an iteration in `int`, so the additions wrap around at 32 bits. The
 * `double` it returns is the exact value of that `int`.
 */
module Fibonacci {
  import opened Text

  /** The Fibonacci numbers: F(0) = 0, F(1) = 1. */
  function Fib(n: nat): nat {
    if n < 2 then n else Fib(n - 1) + Fib(n - 2)
  }

  /**
   * `Fibonacci(n)`: 0 for n = 0; 1 for every other n below 2, negative ones
   * included, since the loop does not run; otherwise F(n) wrapped to 32 bits.
   */
  method Fibonacci(n: int) returns (r: int)
    requires IsInt32(n)
    ensures n == 0 ==> r == 0
    ensures n != 0 && n < 2 ==> r == 1
    ensures n >= 1 ==> r == Wrap32(Fib(n))
    ensures IsInt32(r)
  {
    if n == 0 {
      return 0;
    }
    var prev := 0;
    var next := 1;
    var i := 1;
    while i < n
      invariant n >= 1 ==> 1 <= i <= n
      invariant n < 1 ==> i == 1
      invariant prev == Wrap32(Fib(i - 1)) && next == Wrap32(Fib(i))
    {
      Wrap32Add(Fib(i - 1), Fib(i));
      var sum := Wrap32(prev + next);
      prev := next;
      next := sum;
      i := i + 1;
    }
    r := next;
  }

  /** F(46) is the largest Fibonacci number below 2^31 and F(47) the first above it. */
  lemma {:induction false} Fib46()
    ensures Fib(46) == 1836311903 && Fib(47) == 2971215073
  {
    assert Fib(2) == 1;
    assert Fib(3) == 2;
    assert Fib(4) == 3;
    assert Fib(5) == 5;
    assert Fib(6) == 8;
    assert Fib(7) == 13;
    assert Fib(8) == 21;
    assert Fib(9) == 34;
    assert Fib(10) == 55;
    assert Fib(11) == 89;
    assert Fib(12) == 144;
    assert Fib(13) == 233;
    assert Fib(14) == 377;
    assert Fib(15) == 610;
    assert Fib(16) == 987;
    assert Fib(17) == 1597;
    assert Fib(18) == 2584;
    assert Fib(19) == 4181;
    assert Fib(20) == 6765;
    assert Fib(21) == 10946;
    assert Fib(22) == 17711;
    assert Fib(23) == 28657;
    assert Fib(24) == 46368;
    assert Fib(25) == 75025;
    assert Fib(26) == 121393;
    assert Fib(27) == 196418;
    assert Fib(28) == 317811;
    assert Fib(29) == 514229;
    assert Fib(30) == 832040;
    assert Fib(31) == 1346269;
    assert Fib(32) == 2178309;
    assert Fib(33) == 3524578;
    assert Fib(34) == 5702887;
    assert Fib(35) == 9227465;
    assert Fib(36) == 14930352;
    assert Fib(37) == 24157817;
    assert Fib(38) == 39088169;
    assert Fib(39) == 63245986;
    assert Fib(40) == 102334155;
    assert Fib(41) == 165580141;
    assert Fib(42) == 267914296;
    assert Fib(43) == 433494437;
    assert Fib(44) == 701408733;
    assert Fib(45) == 1134903170;
    assert Fib(46) == 1836311903;
  }

  /** The Fibonacci numbers never decrease. */
  lemma {:induction false} FibMonotone(m: nat, n: nat)
    requires m <= n
    ensures Fib(m) <= Fib(n)
    decreases n - m
  {
    if m < n {
      FibMonotone(m, n - 1);
      assert Fib(n - 1) <= Fib(n) by {
        if n >= 2 {
          assert Fib(n) == Fib(n - 1) + Fib(n - 2);
        }
      }
    }
  }

  /** The result is exact up to n = 46 and wrong from n = 47 on, where F(n) no longer fits. */
  lemma ExactUpTo46(n: nat)
    requires n >= 1
    ensures n <= 46 ==> Wrap32(Fib(n)) == Fib(n)
    ensures n >= 47 ==> !IsInt32(Fib(n))
  {
    Fib46();
    if n <= 46 {
      FibMonotone(n, 46);
    } else {
      FibMonotone(47, n);
    }
  }
}
