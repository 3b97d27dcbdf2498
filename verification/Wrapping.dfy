/**
  Circular indices: absolute positions modulo the number of slots.
*/
module Wrapping {
  import opened Products

  /** The slot of an absolute position. */
  function Wrap(p: nat, n: nat): (r: nat)
    requires n > 0
    ensures r < n
  {
    if p < n then p else Wrap(p - n, n)
  }

  /** It is the remainder the program takes. */
  lemma {:induction false} WrapIsRemainder(p: nat, n: nat)
    requires n > 0
    ensures Wrap(p, n) == p % n
  {
    if p >= n {
      WrapIsRemainder(p - n, n);
      QuotientOfSum(p - n, n, 1);
    }
  }

  lemma {:induction false} WrapDistinct(p: nat, d: nat, n: nat)
    requires 0 < d < n
    ensures Wrap(p, n) != Wrap(p + d, n)
  {
    if p >= n { WrapDistinct(p - n, d, n); }
  }

  /** The slot of the k-th entry of a level whose oldest entry is at position `pos`. */
  function Slot(pos: nat, k: nat, n: nat): (r: nat)
    requires n > 0
    ensures r < n
  {
    Wrap(pos + k, n)
  }

  lemma SlotDistinct(pos: nat, j: nat, k: nat, n: nat)
    requires j < n && k < n && j != k
    ensures Slot(pos, j, n) != Slot(pos, k, n)
  {
    if j < k { WrapDistinct(pos + j, k - j, n); } else { WrapDistinct(pos + k, j - k, n); }
  }
}
