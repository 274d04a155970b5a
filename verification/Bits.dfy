// Integer facts shared by the Merkle modules: powers of two, the height of a
// level-halving tree, and Go's `&` on non-negative integers.
module Bits {

  function Pow2(k: nat): (r: nat)
    ensures r >= 1
  {
    if k == 0 then 1 else 2 * Pow2(k - 1)
  }

  // Number of levels of a tree over n leaves when every level of m nodes is
  // followed by one of (m + 1) / 2 nodes, down to a single node.
  function Height(n: nat): (r: nat)
    ensures r == 0 <==> n == 0
    ensures r == 1 <==> n == 1
  {
    if n == 0 then 0 else if n == 1 then 1 else 1 + Height((n + 1) / 2)
  }

  lemma {:induction false} HeightBound(n: nat, d: nat)
    requires n >= 1
    ensures Height(n) <= d + 1 <==> n <= Pow2(d)
  {
    if n > 1 && d > 0 {
      HeightBound((n + 1) / 2, d - 1);
    }
  }

  lemma {:induction false} HeightMonotone(m: nat, n: nat)
    requires m <= n
    ensures Height(m) <= Height(n)
  {
    if m > 1 {
      HeightMonotone((m + 1) / 2, (n + 1) / 2);
    }
  }

  // One more leaf adds at most one level.
  lemma HeightStep(n: nat)
    ensures Height(n) <= Height(n + 1) <= Height(n) + 1
  {
    HeightMonotone(n, n + 1);
    if n > 0 {
      var d := Height(n) - 1;
      HeightBound(n, d);
      HeightBound(n + 1, d + 1);
    }
  }

  predicate IsPow2(n: nat) {
    n == 1 || (n > 1 && n % 2 == 0 && IsPow2(n / 2))
  }

  lemma {:induction false} Pow2IsPow2(k: nat)
    ensures IsPow2(Pow2(k))
  {
    if k > 0 {
      Pow2IsPow2(k - 1);
    }
  }

  // A power of two is Pow2 of its height less one.
  lemma {:induction false} IsPow2Height(n: nat)
    requires IsPow2(n)
    ensures n == Pow2(Height(n) - 1)
  {
    if n > 1 {
      IsPow2Height(n / 2);
      assert (n + 1) / 2 == n / 2;
    }
  }

  // Bitwise conjunction of two non-negative integers.
  function BitAnd(a: nat, b: nat): nat
    decreases a
  {
    if a == 0 then 0
    else 2 * BitAnd(a / 2, b / 2) + (if a % 2 == 1 && b % 2 == 1 then 1 else 0)
  }

  lemma {:induction false} BitAndSelf(a: nat)
    ensures BitAnd(a, a) == a
  {
    if a > 0 {
      BitAndSelf(a / 2);
    }
  }

  // The padding loop's guard: n & (n - 1) is zero exactly at the powers of two.
  lemma {:induction false} BitAndPredecessor(n: nat)
    requires n >= 1
    ensures BitAnd(n, n - 1) == 0 <==> IsPow2(n)
  {
    if n > 1 {
      if n % 2 == 0 {
        assert (n - 1) / 2 == n / 2 - 1 && (n - 1) % 2 == 1;
        BitAndPredecessor(n / 2);
      } else {
        assert (n - 1) / 2 == n / 2 && (n - 1) % 2 == 0;
        BitAndSelf(n / 2);
      }
    }
  }
}
