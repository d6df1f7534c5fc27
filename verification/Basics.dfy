/** Powers of two, minima, finite sets, and pairs named for comparison. */
module Basics {

  /** `BIT(n)` */
  function Pow2(n: nat): (r: nat)
    ensures r > 0
  {
    if n == 0 then 1 else 2 * Pow2(n - 1)
  }

  function Min(a: int, b: int): int {
    if a < b then a else b
  }

  function Max(a: int, b: int): int {
    if a < b then b else a
  }

  lemma {:induction false} SubsetSize<T>(a: set<T>, b: set<T>)
    requires a <= b
    ensures |a| <= |b| && (a != b ==> |a| < |b|)
  {
    if a != {} {
      var x :| x in a;
      SubsetSize(a - {x}, b - {x});
    }
  }

  lemma {:induction false} Pow2Injective(m: nat, n: nat)
    ensures Pow2(m) == Pow2(n) ==> m == n
  {
    if m > 0 && n > 0 { Pow2Injective(m - 1, n - 1); }
  }

  lemma {:induction false} Pow2Grows(a: nat, b: nat)
    requires a <= b
    ensures Pow2(a) <= Pow2(b) && (a < b ==> 2 * Pow2(a) <= Pow2(b))
  {
    if a < b {
      Pow2Grows(a, b - 1);
    }
  }

  /** A quantifier over pairs with this for its trigger is used for the pairs a proof names, and no others. */
  ghost predicate Pair(a: nat, b: nat) { true }
}
