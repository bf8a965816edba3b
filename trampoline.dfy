/**
 The accumulator-passing factorial of FunctionalApiTest and the trampoline that
 evaluates it without growing the call stack.

 A trampoline step is either complete (`Done`, carrying the final value) or
 deferred (`More`).  In the Java code a deferred step wraps a closure; the only
 closure ever built is `() -> factorialStackSafe(n - 1, acc * n)`, so here a
 deferred step carries the two arguments of that postponed call instead.
 */
module Trampoline {

  /** n! */
  function Fact(n: nat): nat
  {
    if n == 0 then 1 else n * Fact(n - 1)
  }

  /** One step of a trampolined factorial.  `More(n, acc)` stands for the
      postponed call `factorialStackSafe(n, acc)`. */
  datatype Step = Done(value: int) | More(n: int, acc: int)
  {
    /** `complete()`: true exactly for a done step. */
    predicate Complete()
    {
      Done?
    }

    /** `jump()`: a done step jumps to itself, a deferred step performs its
        postponed call and yields the step that call returns. */
    function Jump(): Step
    {
      if Done? then this else FactorialSafe(n, acc)
    }
  }

  /** `factorialStackSafe(n, acc)`: done(acc) when n is one, otherwise a step
      that defers the call with (n - 1, acc * n). */
  function FactorialSafe(n: int, acc: int): Step
  {
    if n == 1 then Done(acc) else More(n - 1, acc * n)
  }

  /** The k-th element of `Stream.iterate(s, Trampoline::jump)`. */
  function Iterate(s: Step, k: nat): Step
    decreases k
  {
    if k == 0 then s else Iterate(s.Jump(), k - 1)
  }

  /** The steps whose chain reaches a complete step: a done step, or a
      postponed call whose counter is at least one. */
  predicate Terminates(s: Step)
  {
    s.Done? || s.n >= 1
  }

  /** The position of the first complete step in the chain starting at `s`,
      i.e. the number of jumps the driver performs. */
  function StepsToComplete(s: Step): (k: nat)
    requires Terminates(s)
    ensures Iterate(s, k).Complete()
    ensures forall j :: 0 <= j < k ==> !Iterate(s, j).Complete()
    decreases if s.Done? then 0 else s.n
  {
    if s.Done? then 0 else 1 + StepsToComplete(s.Jump())
  }

  /** What `result()` returns: the value of the first complete step of the chain. */
  function ResultValue(s: Step): int
    requires Terminates(s)
  {
    Iterate(s, StepsToComplete(s)).value
  }

  /** The driver behind `result()` and `get()`: replaces the current step by
      the step it jumps to until a complete step is reached, and returns that
      step's value.  `jumps` counts the deferred calls performed: each one is
      performed exactly once.  Since the loop stops only at a complete step, the
      `orElseThrow` of the stream version is never reached. */
  method Result(s: Step) returns (v: int, ghost jumps: nat)
    requires Terminates(s)
    ensures jumps == StepsToComplete(s)
    ensures v == ResultValue(s)
    ensures s.Done? ==> v == s.value
  {
    var current := s;
    jumps := 0;
    while !current.Complete()
      invariant Terminates(current)
      invariant jumps + StepsToComplete(current) == StepsToComplete(s)
      invariant ResultValue(current) == ResultValue(s)
      decreases StepsToComplete(current)
    {
      JumpPreservesResult(current);
      current := current.Jump();
      jumps := jumps + 1;
    }
    v := current.value;
  }

  /** A done step is complete, jumps to itself and yields its own value; a
      deferred step is not complete and yields what the step it jumps to yields. */
  lemma JumpPreservesResult(s: Step)
    requires Terminates(s)
    ensures Terminates(s.Jump())
    ensures s.Done? ==> s.Complete() && s.Jump() == s && ResultValue(s) == s.value
    ensures s.More? ==> !s.Complete() && ResultValue(s) == ResultValue(s.Jump())
  {
    if s.More? {
      assert StepsToComplete(s) == 1 + StepsToComplete(s.Jump());
      assert Iterate(s, StepsToComplete(s)) == Iterate(s.Jump(), StepsToComplete(s.Jump()));
    }
  }

  /** Started from `factorialStackSafe(n, acc)` with n >= 1, the chain reaches
      a complete step after exactly n - 1 jumps. */
  lemma {:induction false} StepsFromStart(n: int, acc: int)
    requires n >= 1
    ensures Terminates(FactorialSafe(n, acc))
    ensures StepsToComplete(FactorialSafe(n, acc)) == n - 1
  {
    if n > 1 {
      var s := FactorialSafe(n, acc);
      assert s == More(n - 1, acc * n);
      if n - 1 > 1 {
        StepsFromStart(n - 1, acc * n);
      }
      assert StepsToComplete(s) == 1 + StepsToComplete(FactorialSafe(n - 1, acc * n));
    }
  }

  /** A postponed call with a counter of zero or less never completes: the
      counter only decreases and never meets one. */
  lemma {:induction false} NonPositiveNeverCompletes(n: int, acc: int, k: nat)
    requires n <= 0
    ensures !Iterate(More(n, acc), k).Complete()
    decreases k
  {
    if k > 0 {
      assert More(n, acc).Jump() == More(n - 1, acc * n);
      NonPositiveNeverCompletes(n - 1, acc * n, k - 1);
    }
  }

  /** Hence `factorialStackSafe(n, acc)` with n <= 0 starts a chain that never completes. */
  lemma NonPositiveStartNeverCompletes(n: int, acc: int, k: nat)
    requires n <= 0
    ensures !Iterate(FactorialSafe(n, acc), k).Complete()
  {
    NonPositiveNeverCompletes(n - 1, acc * n, k);
  }

  /** The chain from `s` reaches a complete step if and only if `Terminates(s)`. */
  lemma TerminatesExactly(s: Step)
    ensures Terminates(s) <==> exists k: nat :: Iterate(s, k).Complete()
  {
    if Terminates(s) {
      var k: nat := StepsToComplete(s);
      assert Iterate(s, k).Complete();
      assert exists j: nat :: Iterate(s, j).Complete();
    } else {
      forall k: nat ensures !Iterate(s, k).Complete() {
        NonPositiveNeverCompletes(s.n, s.acc, k);
      }
    }
  }

  /** For n >= 1 the trampolined factorial yields acc * n!. */
  lemma {:induction false} SafeFactorial(n: int, acc: int)
    requires n >= 1
    ensures Terminates(FactorialSafe(n, acc))
    ensures ResultValue(FactorialSafe(n, acc)) == acc * Fact(n)
  {
    var s := FactorialSafe(n, acc);
    if n > 1 {
      assert s == More(n - 1, acc * n);
      JumpPreservesResult(s);
      assert s.Jump() == FactorialSafe(n - 1, acc * n);
      SafeFactorial(n - 1, acc * n);
      calc {
        ResultValue(s);
        ResultValue(FactorialSafe(n - 1, acc * n));
        (acc * n) * Fact(n - 1);
        { assert (acc * n) * Fact(n - 1) == acc * (n * Fact(n - 1)); }
        acc * Fact(n);
      }
    }
  }

  /** The value the test asserts: the trampolined 3! with accumulator one is 6. */
  lemma SafeFactorialOfThree()
    ensures Terminates(FactorialSafe(3, 1))
    ensures ResultValue(FactorialSafe(3, 1)) == 6
  {
    SafeFactorial(3, 1);
  }

  /** `factorialStackUnsafe`, as written: the base case returns one and drops
      the accumulator.  Calls with n <= 0 never return in the source (the
      counter never meets one), so the model admits only n >= 1. */
  function FactorialUnsafe(n: int, acc: int): int
    requires n >= 1
    decreases n
  {
    if n == 1 then 1 else FactorialUnsafe(n - 1, acc * n)
  }

  /** Every terminating call of the unsafe variant yields one. */
  lemma {:induction false} UnsafeIsAlwaysOne(n: int, acc: int)
    requires n >= 1
    ensures FactorialUnsafe(n, acc) == 1
    decreases n
  {
    if n > 1 {
      UnsafeIsAlwaysOne(n - 1, acc * n);
    }
  }

  /** The unsafe variant agrees with the trampolined one only when acc * n! is
      one; with acc = 1 they differ for every n >= 2 (n = 3 gives 1, not 6). */
  lemma UnsafeDiffersFromSafe(n: int, acc: int)
    requires n >= 1
    ensures Terminates(FactorialSafe(n, acc))
    ensures FactorialUnsafe(n, acc) == ResultValue(FactorialSafe(n, acc)) <==> acc * Fact(n) == 1
    ensures acc == 1 && n >= 2 ==> FactorialUnsafe(n, acc) != ResultValue(FactorialSafe(n, acc))
  {
    UnsafeIsAlwaysOne(n, acc);
    SafeFactorial(n, acc);
    if n >= 2 {
      FactAtLeastN(n);
    }
  }

  lemma {:induction false} FactAtLeastN(n: nat)
    requires n >= 1
    ensures Fact(n) >= n
  {
    if n > 1 {
      FactAtLeastN(n - 1);
      assert n * Fact(n - 1) >= n * 1;
    }
  }

  /** The direct recursion with the base case the name promises: it returns the
      accumulator, and so computes acc * n!, the same value as the trampoline. */
  function FactorialDirect(n: int, acc: int): (r: int)
    requires n >= 1
    ensures r == acc * Fact(n)
    decreases n
  {
    if n == 1 then acc
    else
      var r := FactorialDirect(n - 1, acc * n);
      assert r == (acc * n) * Fact(n - 1) == acc * (n * Fact(n - 1));
      r
  }

  /** The trampoline computes what the direct recursion computes. */
  lemma DirectAgreesWithTrampoline(n: int, acc: int)
    requires n >= 1
    ensures Terminates(FactorialSafe(n, acc))
    ensures ResultValue(FactorialSafe(n, acc)) == FactorialDirect(n, acc)
  {
    SafeFactorial(n, acc);
  }
}
