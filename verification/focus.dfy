/** Arrow-key navigation over the task buttons: the index arithmetic behind
    moving focus to the next or previous button, wrapping at either end. */
module KeyboardFocus {

  /** `xs.indexOf(x)`: the first position holding `x`, or -1. */
  function IndexOf<T(==)>(xs: seq<T>, x: T): (i: int)
    ensures -1 <= i < |xs|
    ensures i == -1 <==> x !in xs
    ensures 0 <= i ==> xs[i] == x && forall k :: 0 <= k < i ==> xs[k] != x
  {
    if |xs| == 0 then -1
    else if xs[0] == x then 0
    else
      var j := IndexOf(xs[1..], x);
      if j == -1 then -1 else j + 1
  }

  /** `(currentIndex + 1) % tasks.length`. Both operands are non-negative
      here, so JavaScript's `%` and Dafny's agree. */
  function NextIndex(i: nat, n: nat): (j: nat)
    requires i < n
    ensures j < n
    ensures i < n - 1 ==> j == i + 1
    ensures i == n - 1 ==> j == 0
  {
    (i + 1) % n
  }

  /** `currentIndex === 0 ? tasks.length - 1 : currentIndex - 1`. */
  function PrevIndex(i: nat, n: nat): (j: nat)
    requires i < n
    ensures j < n
    ensures 0 < i ==> j == i - 1
    ensures i == 0 ==> j == n - 1
  {
    if i == 0 then n - 1 else i - 1
  }

  /** Next and previous undo each other. */
  lemma NextPrevInverse(i: nat, n: nat)
    requires i < n
    ensures PrevIndex(NextIndex(i, n), n) == i
    ensures NextIndex(PrevIndex(i, n), n) == i
  {
  }

  /** Pressing the "next" key `k` times from `i`. */
  function NextTimes(i: nat, n: nat, k: nat): (j: nat)
    requires i < n
    ensures j < n
  {
    if k == 0 then i else NextIndex(NextTimes(i, n, k - 1), n)
  }

  /** `k` presses of "next" advance focus by `k` places modulo the number of buttons. */
  lemma {:induction false} NextTimesIsModularAdvance(i: nat, n: nat, k: nat)
    requires i < n
    ensures NextTimes(i, n, k) == (i + k) % n
  {
    if k > 0 {
      NextTimesIsModularAdvance(i, n, k - 1);
      ModStep(i + k - 1, n);
    }
  }

  /** Stepping past a multiple of `n` wraps the remainder to zero. */
  lemma ModStep(a: nat, n: nat)
    requires n > 0
    ensures (a + 1) % n == if a % n == n - 1 then 0 else a % n + 1
  {
    var q, r := a / n, a % n;
    assert a == q * n + r;
    if r == n - 1 {
      assert a + 1 == (q + 1) * n;
      ModUnique(a + 1, n, q + 1, 0);
    } else {
      ModUnique(a + 1, n, q, r + 1);
    }
  }

  /** The remainder is the unique `r` in `[0, n)` with `a == q * n + r`. */
  lemma ModUnique(a: nat, n: nat, q: int, r: int)
    requires n > 0 && 0 <= r < n && a == q * n + r
    ensures a % n == r
  {
    var q' := a / n;
    assert (q - q') * n == q * n - q' * n;
    MultipleBounds(q - q', n);
  }

  /** A non-zero multiple of `n` is at least `n` away from zero. */
  lemma MultipleBounds(d: int, n: int)
    requires n >= 0
    ensures d >= 1 ==> d * n >= n
    ensures d <= -1 ==> d * n <= -n
  {
    if d >= 1 {
      MulAtLeast(d, n);
    } else if d <= -1 {
      MulAtLeast(-d, n);
      assert (-d) * n == -(d * n);
    }
  }

  lemma {:induction false} MulAtLeast(d: int, n: nat)
    requires d >= 1
    ensures d * n >= n
    decreases d
  {
    if d > 1 {
      MulAtLeast(d - 1, n);
      assert d * n == (d - 1) * n + n;
    }
  }

  /** A full round of presses returns focus to where it started. */
  lemma FullCycleReturns(i: nat, n: nat)
    requires i < n
    ensures NextTimes(i, n, n) == i
  {
    NextTimesIsModularAdvance(i, n, n);
    ModUnique(i + n, n, 1, i);
  }

  /** `focusNextTask(currentTask)`: the button that receives focus. */
  function FocusNextTask<T(==)>(tasks: seq<T>, current: T): (t: T)
    requires current in tasks
    ensures t in tasks
    ensures IndexOf(tasks, current) < |tasks| - 1 ==> t == tasks[IndexOf(tasks, current) + 1]
    ensures IndexOf(tasks, current) == |tasks| - 1 ==> t == tasks[0]
  {
    tasks[NextIndex(IndexOf(tasks, current), |tasks|)]
  }

  /** `focusPreviousTask(currentTask)`: the button that receives focus. */
  function FocusPreviousTask<T(==)>(tasks: seq<T>, current: T): (t: T)
    requires current in tasks
    ensures t in tasks
    ensures 0 < IndexOf(tasks, current) ==> t == tasks[IndexOf(tasks, current) - 1]
    ensures IndexOf(tasks, current) == 0 ==> t == tasks[|tasks| - 1]
  {
    tasks[PrevIndex(IndexOf(tasks, current), |tasks|)]
  }

  /** The buttons a page lists are distinct elements. */
  predicate Distinct<T(==)>(xs: seq<T>) {
    forall a, b :: 0 <= a < b < |xs| ==> xs[a] != xs[b]
  }

  lemma IndexOfDistinct<T>(xs: seq<T>, k: nat)
    requires Distinct(xs) && k < |xs|
    ensures IndexOf(xs, xs[k]) == k
  {
  }

  /** Moving focus forward and then back (or back and then forward) lands on
      the button it started from. */
  lemma FocusRoundTrip<T>(tasks: seq<T>, current: T)
    requires Distinct(tasks) && current in tasks
    ensures FocusPreviousTask(tasks, FocusNextTask(tasks, current)) == current
    ensures FocusNextTask(tasks, FocusPreviousTask(tasks, current)) == current
  {
    var i := IndexOf(tasks, current);
    IndexOfDistinct(tasks, NextIndex(i, |tasks|));
    IndexOfDistinct(tasks, PrevIndex(i, |tasks|));
    NextPrevInverse(i, |tasks|);
  }

  /** From the last button focus wraps to the first, and from the first to the last. */
  lemma FocusWraps<T>(tasks: seq<T>)
    requires Distinct(tasks) && |tasks| > 0
    ensures FocusNextTask(tasks, tasks[|tasks| - 1]) == tasks[0]
    ensures FocusPreviousTask(tasks, tasks[0]) == tasks[|tasks| - 1]
  {
    IndexOfDistinct(tasks, |tasks| - 1);
    IndexOfDistinct(tasks, 0);
  }
}
