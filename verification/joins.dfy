/**
 * How the stage tasks decide that their fan-out is over. A task with a
 * glob of `n` files keeps a counter; each asynchronous completion
 * increments it and then compares it with `n`. The comparison is either
 * `processed >= n` or `processed === n`, and the stage task publishes its event
 * on every completion where the comparison holds.
 *
 * `Firings(n, k)` is the number of publications after `k` completions
 * with `>=`, `ExactFirings(n, k)` the number with `===`.
 */
module Joins {

  /** Completions `1..k` that see a counter of at least `n`. */
  function Firings(n: nat, k: nat): nat {
    if k == 0 then 0 else Firings(n, k - 1) + (if k >= n then 1 else 0)
  }

  /** Completions `1..k` that see a counter of exactly `n`. */
  function ExactFirings(n: nat, k: nat): nat {
    if k == 0 then 0 else ExactFirings(n, k - 1) + (if k == n then 1 else 0)
  }

  /** Closed form: `k - n + 1` once the counter has reached a positive `n`. */
  lemma {:induction false} FiringsCount(n: nat, k: nat)
    ensures Firings(n, k) == if n == 0 then k else if k >= n then k - n + 1 else 0
  {
    if k > 0 {
      FiringsCount(n, k - 1);
    }
  }

  lemma {:induction false} ExactFiringsCount(n: nat, k: nat)
    ensures ExactFirings(n, k) == if 1 <= n <= k then 1 else 0
  {
    if k > 0 {
      ExactFiringsCount(n, k - 1);
    }
  }

  /**
   * Counting each of `n > 0` files once, the event is published exactly
   * once, on the last completion, with either comparison.
   */
  lemma FiresOnceWhenAllCounted(n: nat, k: nat)
    requires 0 < n && k <= n
    ensures Firings(n, k) == (if k == n then 1 else 0)
    ensures ExactFirings(n, k) == Firings(n, k)
  {
    FiringsCount(n, k);
    ExactFiringsCount(n, k);
  }

  /** Nothing is published before the counter reaches `n`. */
  lemma NoFiringBeforeAllCounted(n: nat, k: nat)
    requires k < n
    ensures Firings(n, k) == 0 && ExactFirings(n, k) == 0
  {
    FiringsCount(n, k);
    ExactFiringsCount(n, k);
  }

  /**
   * A completion counted twice pushes the counter past `n`: with `>=`
   * the event is published a second time, with `===` it is not.
   */
  lemma DoubleCountFiresTwice(n: nat)
    requires n > 0
    ensures Firings(n, n + 1) == 2 && ExactFirings(n, n + 1) == 1
  {
    FiringsCount(n, n + 1);
    ExactFiringsCount(n, n + 1);
  }

  /** A set of distinct indices below `n` has at most `n` members: a counter of distinct completions never passes the glob size. */
  lemma {:induction false} IndexSetBound(s: set<nat>, n: nat)
    requires forall i :: i in s ==> i < n
    ensures |s| <= n
  {
    if n > 0 {
      var t := s - {n - 1};
      IndexSetBound(t, n - 1);
      assert s <= t + {n - 1};
    } else {
      assert s == {};
    }
  }

  /** A set holding every index below `n` has at least `n` members: once every file is counted, the counter has reached `n`. */
  lemma {:induction false} AllIndicesCounted(s: set<nat>, n: nat)
    requires forall i :: 0 <= i < n ==> i in s
    ensures |s| >= n
  {
    if n > 0 {
      AllIndicesCounted(s - {n - 1}, n - 1);
    }
  }

  /**
   * A join over `n` files where each completion is counted once: after
   * `k` of them the event has been published once if `k` reached a
   * positive `n`, and never otherwise.
   */
  lemma CountedOnce(s: set<nat>, n: nat)
    requires forall i :: i in s ==> i < n
    ensures |s| <= n
    ensures Firings(n, |s|) == (if 0 < n == |s| then 1 else 0)
    ensures ExactFirings(n, |s|) == Firings(n, |s|)
  {
    IndexSetBound(s, n);
    FiringsCount(n, |s|);
    ExactFiringsCount(n, |s|);
  }
}
