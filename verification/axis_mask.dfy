/**
 The reduction axes arrive as an unsigned 32-bit bit set: axis `i` is
 reduced when bit `i` is set. This module names the counts and the
 order-preserving selection the dispatcher derives from it.
 */
module AxisMask {

  /** The `axis` parameter: an `unsigned int` bit set. */
  type Mask = m: nat | m < 0x1_0000_0000

  /** Bit `i` of `m`, counting from the least significant bit. */
  predicate Bit(m: nat, i: nat)
  {
    if i == 0 then m % 2 == 1 else Bit(m / 2, i - 1)
  }

  /** Axis `i` is reduced: the test `axis & (1U << i)` is non-zero. Bits at or above 32 do not exist. */
  predicate Masked(mask: Mask, i: nat)
  {
    i < 32 && Bit(mask, i)
  }

  /** Number of reduced axes among axes `0 .. n-1`: the mask bits below `n`. */
  function MaskedCount(mask: Mask, n: nat): (c: nat)
    ensures c <= n
  {
    if n == 0 then 0 else MaskedCount(mask, n - 1) + (if Masked(mask, n - 1) then 1 else 0)
  }

  /** Number of kept axes among axes `0 .. n-1`; for a kept axis `n` this is its compacted position. */
  function KeptBefore(mask: Mask, n: nat): (c: nat)
    ensures c <= n
  {
    if n == 0 then 0 else KeptBefore(mask, n - 1) + (if Masked(mask, n - 1) then 0 else 1)
  }

  /** The entries of `s` at kept positions, in their original order. */
  function Keep<T>(s: seq<T>, mask: Mask): (r: seq<T>)
    ensures |r| <= |s|
  {
    if |s| == 0 then []
    else Keep(s[..|s| - 1], mask) + (if Masked(mask, |s| - 1) then [] else [s[|s| - 1]])
  }

  /** The kept axes below `n`, listed in increasing order. */
  function KeptAxes(mask: Mask, n: nat): (r: seq<nat>)
    ensures forall k :: 0 <= k < |r| ==> r[k] < n
    ensures forall j, k :: 0 <= j < k < |r| ==> r[j] < r[k]
  {
    if n == 0 then []
    else KeptAxes(mask, n - 1) + (if Masked(mask, n - 1) then [] else [n - 1])
  }

  /** Every axis is either kept or reduced: the kept count is the rank minus the mask bits below it. */
  lemma {:induction false} KeptPlusMasked(mask: Mask, n: nat)
    ensures KeptBefore(mask, n) == n - MaskedCount(mask, n)
  {
    if n > 0 {
      KeptPlusMasked(mask, n - 1);
    }
  }

  /** Selecting the kept entries leaves exactly as many entries as there are kept axes. */
  lemma {:induction false} KeepLength<T>(s: seq<T>, mask: Mask)
    ensures |Keep(s, mask)| == KeptBefore(mask, |s|)
    ensures |Keep(s, mask)| == |s| - MaskedCount(mask, |s|)
  {
    if |s| > 0 {
      KeepLength(s[..|s| - 1], mask);
    }
    KeptPlusMasked(mask, |s|);
  }

  /** There is one listed axis per kept axis. */
  lemma {:induction false} KeptAxesLength(mask: Mask, n: nat)
    ensures |KeptAxes(mask, n)| == KeptBefore(mask, n)
  {
    if n > 0 {
      KeptAxesLength(mask, n - 1);
    }
  }

  /** The listed axes are exactly the kept axes below `n`. */
  lemma {:induction false} KeptAxesMembers(mask: Mask, n: nat, i: nat)
    ensures i in KeptAxes(mask, n) <==> i < n && !Masked(mask, i)
  {
    if n > 0 {
      KeptAxesMembers(mask, n - 1, i);
    }
  }

  /** A kept axis below `n` is counted by `KeptBefore(mask, n)` but not by its own count. */
  lemma {:induction false} KeptBeforeStrict(mask: Mask, i: nat, n: nat)
    requires i < n && !Masked(mask, i)
    ensures KeptBefore(mask, i) < KeptBefore(mask, n)
  {
    if i < n - 1 {
      KeptBeforeStrict(mask, i, n - 1);
    }
  }

  /** The listed axis at compacted position `k` has exactly `k` kept axes before it. */
  lemma {:induction false} KeptAxesPosition(mask: Mask, n: nat, k: nat)
    requires k < |KeptAxes(mask, n)|
    ensures KeptBefore(mask, KeptAxes(mask, n)[k]) == k
    ensures !Masked(mask, KeptAxes(mask, n)[k])
  {
    KeptAxesLength(mask, n - 1);
    if k < |KeptAxes(mask, n - 1)| {
      KeptAxesPosition(mask, n - 1, k);
    }
  }

  /** Compacted positions and kept axes correspond one to one. */
  lemma {:induction false} KeptBeforeIsPosition(mask: Mask, n: nat, i: nat)
    requires i < n && !Masked(mask, i)
    ensures KeptBefore(mask, i) < |KeptAxes(mask, n)|
    ensures KeptAxes(mask, n)[KeptBefore(mask, i)] == i
  {
    KeptAxesLength(mask, n);
    KeptBeforeStrict(mask, i, n);
    var k := KeptBefore(mask, i);
    KeptAxesPosition(mask, n, k);
    var a := KeptAxes(mask, n)[k];
    // Two distinct kept axes have distinct kept counts before them.
    if a < i {
      KeptBeforeStrict(mask, a, i);
    } else if i < a {
      KeptBeforeStrict(mask, i, a);
    }
  }

  /** Entry `k` of the selection is the entry of `s` at the `k`-th kept axis. */
  lemma {:induction false} KeepGathers<T>(s: seq<T>, mask: Mask)
    ensures |Keep(s, mask)| == |KeptAxes(mask, |s|)|
    ensures forall k :: 0 <= k < |Keep(s, mask)| ==> Keep(s, mask)[k] == s[KeptAxes(mask, |s|)[k]]
  {
    KeepLength(s, mask);
    KeptAxesLength(mask, |s|);
    if |s| > 0 {
      var init := s[..|s| - 1];
      KeepGathers(init, mask);
      forall k | 0 <= k < |Keep(s, mask)|
        ensures Keep(s, mask)[k] == s[KeptAxes(mask, |s|)[k]]
      {
        if k < |Keep(init, mask)| {
          assert Keep(s, mask)[k] == Keep(init, mask)[k];
          assert KeptAxes(mask, |s|)[k] == KeptAxes(mask, |init|)[k];
        }
      }
    }
  }

  /** A kept entry of `s` lands at its compacted position in the selection. */
  lemma KeepAt<T>(s: seq<T>, mask: Mask, i: nat)
    requires i < |s| && !Masked(mask, i)
    ensures KeptBefore(mask, i) < |Keep(s, mask)|
    ensures Keep(s, mask)[KeptBefore(mask, i)] == s[i]
  {
    KeepGathers(s, mask);
    KeptBeforeIsPosition(mask, |s|, i);
  }
}
