/**
 * Index cycling as main.js writes it: `(index + direction + n) % n`, with
 * JavaScript's remainder operator, for the slideshow (main.js:61) and the
 * package carousel (main.js:267).
 */
module Cycling {

  /** JavaScript's `%` on integers: the remainder takes the sign of the
      dividend (division truncates toward zero), unlike Dafny's `%`. */
  function JsRem(a: int, n: int): (r: int)
    requires n > 0
    ensures -n < r < n
    ensures a >= 0 ==> r == a % n
    ensures a < 0 ==> r <= 0
    ensures (a - r) % n == 0
  {
    if a >= 0 then
      ModUnique(a - a % n, n, a / n, 0);
      a % n
    else
      ModUnique(a + (-a) % n, n, -((-a) / n), 0);
      -((-a) % n)
  }

  /** If `x == n * q + m` with `0 <= m < n`, then `m` and `q` are the
      remainder and quotient of `x` by `n`. */
  lemma ModUnique(x: int, n: int, q: int, m: int)
    requires n >= 1 && 0 <= m < n && x == n * q + m
    ensures x % n == m && x / n == q
  {
    var q', m' := x / n, x % n;
    assert x == n * q' + m';
    if q' < q {
      MulAtLeast(n, q - q');
    } else if q' > q {
      MulAtLeast(n, q' - q);
    }
  }

  lemma MulAtLeast(n: int, k: int)
    requires n >= 1 && k >= 1
    ensures n * k >= n
  {
    assert n * k == n * (k - 1) + n;
  }

  /** A value up to `2 * n` wraps at most twice. */
  lemma ModOfSmall(x: int, n: int)
    requires n >= 1 && 0 <= x <= 2 * n
    ensures x % n == (if x < n then x else if x < 2 * n then x - n else 0)
  {
    if x < n {
      ModUnique(x, n, 0, x);
    } else if x < 2 * n {
      ModUnique(x, n, 1, x - n);
    } else {
      ModUnique(x, n, 2, 0);
    }
  }

  /** Adding one full turn does not change the remainder. */
  lemma ModAddTurn(x: int, n: int)
    requires n >= 1 && x >= 0
    ensures (x + n) % n == x % n
  {
    ModUnique(x + n, n, x / n + 1, x % n);
  }

  /** One step of the cycle in `direction` (main.js:61, main.js:267): the
      index stays in `[0, n)`, moving forward from the last index wraps to
      the first and moving back from the first wraps to the last. JavaScript's
      `%` and the Euclidean one agree here because the dividend is never
      negative. */
  function Cycle(index: int, direction: int, n: int): (r: int)
    requires n >= 1 && 0 <= index < n
    requires direction == 1 || direction == -1
    ensures 0 <= r < n
    ensures direction == 1 ==> r == (if index == n - 1 then 0 else index + 1)
    ensures direction == -1 ==> r == (if index == 0 then n - 1 else index - 1)
  {
    ModOfSmall(index + direction + n, n);
    JsRem(index + direction + n, n)
  }

  /** Stepping back undoes stepping forward, and conversely. */
  lemma CycleInverse(index: int, n: int)
    requires n >= 1 && 0 <= index < n
    ensures Cycle(Cycle(index, 1, n), -1, n) == index
    ensures Cycle(Cycle(index, -1, n), 1, n) == index
  {
  }

  /** `steps` forward steps from `index`, one at a time. */
  function Advance(index: int, steps: nat, n: int): (r: int)
    requires n >= 1 && 0 <= index < n
    ensures 0 <= r < n
    decreases steps
  {
    if steps == 0 then index else Advance(Cycle(index, 1, n), steps - 1, n)
  }

  /** Forward steps add up modulo `n`. */
  lemma {:induction false} AdvanceIsModular(index: int, steps: nat, n: int)
    requires n >= 1 && 0 <= index < n
    ensures Advance(index, steps, n) == (index + steps) % n
    decreases steps
  {
    if steps == 0 {
      ModOfSmall(index, n);
    } else {
      var next := Cycle(index, 1, n);
      AdvanceIsModular(next, steps - 1, n);
      if index == n - 1 {
        ModAddTurn(steps - 1, n);
      }
    }
  }

  /** After `n` forward steps the cycle is back where it started. */
  lemma FullTurnReturns(index: int, n: int)
    requires n >= 1 && 0 <= index < n
    ensures Advance(index, n, n) == index
  {
    AdvanceIsModular(index, n, n);
    ModOfSmall(index + n, n);
  }

  /** Every index is reached from any other in fewer than `n` forward steps. */
  lemma EveryIndexReached(index: int, target: int, n: int)
    requires n >= 1 && 0 <= index < n && 0 <= target < n
    ensures 0 <= StepsTo(index, target, n) < n
    ensures Advance(index, StepsTo(index, target, n), n) == target
  {
    var k := StepsTo(index, target, n);
    AdvanceIsModular(index, k, n);
    ModOfSmall(index + k, n);
  }

  /** The number of forward steps from `index` to `target`. */
  function StepsTo(index: int, target: int, n: int): nat
    requires n >= 1 && 0 <= index < n && 0 <= target < n
  {
    if index <= target then target - index else target - index + n
  }
}
