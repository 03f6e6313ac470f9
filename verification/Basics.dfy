/** What every module may use: an optional value, and the size of a subset. */
module Basics {
  datatype Option<+T> = None | Some(value: T)

  lemma {:induction false} Smaller<T>(a: set<T>, b: set<T>)
    requires a <= b
    ensures |a| <= |b|
    decreases |a|
  {
    if a != {} {
      var x :| x in a;
      Smaller(a - {x}, b - {x});
    }
  }

  /** Distinct keys sent to distinct places below n are at most n. */
  lemma {:induction false} Injected(keys: set<nat>, at: map<nat, nat>, n: nat)
    requires keys <= at.Keys && (forall p :: p in keys ==> at[p] < n)
    requires forall p, q :: p in keys && q in keys && p != q ==> at[p] != at[q]
    ensures |keys| <= n
    decreases n
  {
    if n == 0 {
      assert keys == {};
    } else if p :| p in keys && at[p] == n - 1 {
      Injected(keys - {p}, at, n - 1);
    } else {
      Injected(keys, at, n - 1);
    }
  }
}
