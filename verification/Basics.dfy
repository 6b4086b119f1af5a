/** Facts about numbers, sequences and sets that several modules share. */
module Basics {
  function Power(n: nat): nat { if n == 0 then 1 else 2 * Power(n - 1) }

  lemma DivBounds(a: nat, s: nat)
    requires s > 0
    ensures s * (a / s) <= a < s * (a / s) + s
  {
  }

  lemma MulMonotone(a: nat, b: nat, s: nat)
    requires a <= b
    ensures a * s <= b * s
  {
  }

  lemma MulCancel(a: nat, b: nat, s: nat)
    requires a * s < b * s
    ensures a < b
  {
    if b <= a { MulMonotone(b, a, s); }
  }

  lemma Regroup<T>(a: seq<T>, b: seq<T>, c: seq<T>)
    ensures a + b + c == a + (b + c)
  {
  }

  lemma SubsetSize<T>(a: set<T>, b: set<T>)
    requires a <= b
    ensures |a| <= |b| && (|a| == |b| ==> a == b)
  {
    assert |b - a| == |b| - |a|;
  }

  function UpTo(n: nat): (s: set<nat>)
    ensures |s| == n && forall i :: i in s <==> 0 <= i < n
  {
    if n == 0 then {} else UpTo(n - 1) + {n - 1}
  }

  function Range(lo: nat, n: nat): (s: set<nat>)
    ensures |s| == n && forall i :: i in s <==> lo <= i < lo + n
  {
    if n == 0 then {} else Range(lo, n - 1) + {lo + n - 1}
  }
}
