/** A growing chain of subsets of a finite set stands still at some point. */
module Chains {
  lemma {:induction false} Subset<T>(a: set<T>, b: set<T>)
    requires a <= b
    ensures |a| <= |b|
    decreases |a|
  {
    if x :| x in a {
      Subset(a - {x}, b - {x});
    }
  }

  lemma Smaller<T>(a: set<T>, b: set<T>)
    requires a < b
    ensures |a| < |b|
  {
    var x :| x in b && x !in a;
    Subset(a, b - {x});
  }

  lemma {:induction false} Grows<T>(level: nat -> set<T>, n: nat)
    requires forall k: nat :: level(k) <= level(k + 1)
    ensures |level(n)| >= n || exists k: nat :: k < n && level(k) == level(k + 1)
  {
    if n > 0 {
      Grows(level, n - 1);
      if level(n - 1) != level(n) {
        Smaller(level(n - 1), level(n));
      }
    }
  }

  /** It does so after at most as many steps as the set has elements. */
  lemma StandsStill<T>(level: nat -> set<T>, all: set<T>) returns (k: nat)
    requires forall n: nat :: level(n) <= level(n + 1) && level(n) <= all
    ensures k <= |all| && level(k) == level(k + 1)
  {
    var n := |all| + 1;
    Grows(level, n);
    Subset(level(n), all);
    k :| k < n && level(k) == level(k + 1);
  }
}
