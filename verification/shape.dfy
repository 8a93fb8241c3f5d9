/**
 The two index loops of the dispatcher: the compaction of the input shape
 into the output shape, and the same-rank view of the output that the
 vendor tensor descriptor is built from.
 */
module Shape {
  import opened Layout
  import opened AxisMask

  /**
   The transient view of the output: rank of the input, size 1 and stride 0
   on every reduced axis, the input's size and the output's real stride at
   the compacted position on every kept axis.
   */
  predicate IsView(v: Meta, dims: seq<nat>, mask: Mask, outStrides: seq<int>)
  {
    && v.Valid()
    && v.nd == |dims|
    && forall i :: 0 <= i < |dims| ==> ViewAxis(v.dims[i], v.strides[i], dims, mask, outStrides, i)
  }

  /** Size `d` and stride `st` are what the view holds at axis `i`. */
  predicate ViewAxis(d: nat, st: int, dims: seq<nat>, mask: Mask, outStrides: seq<int>, i: nat)
    requires i < |dims|
  {
    if Masked(mask, i) then d == 1 && st == 0
    else
      && d == dims[i]
      && KeptBefore(mask, i) < |outStrides|
      && st == outStrides[KeptBefore(mask, i)]
  }

  /** The view in closed form: reduced axes get size 1 and stride 0, kept axes their size and compacted stride. */
  function ViewOf(dims: seq<nat>, mask: Mask, outStrides: seq<int>): (v: Meta)
    ensures |outStrides| == |dims| - MaskedCount(mask, |dims|) ==> IsView(v, dims, mask, outStrides)
  {
    KeptPlusMasked(mask, |dims|);
    var vdims := seq(|dims|, i requires 0 <= i < |dims| => if Masked(mask, i) then 1 else dims[i]);
    var vstrs := seq(|dims|, i requires 0 <= i < |dims| =>
      if Masked(mask, i) || KeptBefore(mask, i) >= |outStrides| then 0 else outStrides[KeptBefore(mask, i)]);
    assert forall i :: 0 <= i < |dims| && !Masked(mask, i) ==> KeptBefore(mask, i) < KeptBefore(mask, |dims|) by {
      forall i | 0 <= i < |dims| && !Masked(mask, i)
        ensures KeptBefore(mask, i) < KeptBefore(mask, |dims|)
      {
        KeptBeforeStrict(mask, i, |dims|);
      }
    }
    Meta(|dims|, vdims, vstrs)
  }

  /**
   The first loop: walk the input axes in order and append the size of every
   axis the mask keeps into the eight-entry scratch array, counting them in `p`.
   */
  method OutputDims(dims: seq<nat>, mask: Mask) returns (buf: seq<nat>, p: nat)
    requires |dims| <= MaxRank
    ensures |buf| == MaxRank
    ensures p == |dims| - MaskedCount(mask, |dims|)
    ensures buf[..p] == Keep(dims, mask)
  {
    buf := seq(MaxRank, _ => 0);
    p := 0;
    var i := 0;
    while i < |dims|
      invariant i <= |dims|
      invariant |buf| == MaxRank
      invariant p == KeptBefore(mask, i) && p <= i
      invariant buf[..p] == Keep(dims[..i], mask)
    {
      assert dims[..i + 1][..i] == dims[..i];
      if !Masked(mask, i) {
        buf := buf[p := dims[i]];
        assert buf[..p + 1] == buf[..p] + [dims[i]];
        p := p + 1;
      }
      i := i + 1;
    }
    assert dims[..i] == dims;
    KeptPlusMasked(mask, |dims|);
  }

  /**
   The second loop: rewrite the scratch arrays into the same-rank view. Every
   entry below the input's rank is written, so what the arrays held before
   does not matter. The output-axis counter `p` advances on kept axes only,
   so it ends at the output's rank.
   */
  method TransientView(dims: seq<nat>, mask: Mask, outStrides: seq<int>)
    returns (vdims: seq<nat>, vstrs: seq<int>, p: nat)
    requires |dims| <= MaxRank
    requires |outStrides| == |dims| - MaskedCount(mask, |dims|)
    ensures |vdims| == MaxRank && |vstrs| == MaxRank
    ensures IsView(Meta(|dims|, vdims[..|dims|], vstrs[..|dims|]), dims, mask, outStrides)
    ensures Meta(|dims|, vdims[..|dims|], vstrs[..|dims|]) == ViewOf(dims, mask, outStrides)
    ensures p == |outStrides|
  {
    KeptPlusMasked(mask, |dims|);
    vdims := seq(MaxRank, _ => 0);
    vstrs := seq(MaxRank, _ => 0);
    p := 0;
    var i := 0;
    while i < |dims|
      invariant i <= |dims|
      invariant |vdims| == MaxRank && |vstrs| == MaxRank
      invariant p == KeptBefore(mask, i)
      invariant forall j :: 0 <= j < i ==> ViewAxis(vdims[j], vstrs[j], dims, mask, outStrides, j)
    {
      if Masked(mask, i) {
        vdims := vdims[i := 1];
        vstrs := vstrs[i := 0];
      } else {
        KeptBeforeStrict(mask, i, |dims|);
        vdims := vdims[i := dims[i]];
        vstrs := vstrs[i := outStrides[p]];
        p := p + 1;
      }
      assert ViewAxis(vdims[i], vstrs[i], dims, mask, outStrides, i);
      i := i + 1;
    }
    assert forall j :: 0 <= j < |dims| ==> vdims[..|dims|][j] == vdims[j] && vstrs[..|dims|][j] == vstrs[j];
    ViewUnique(Meta(|dims|, vdims[..|dims|], vstrs[..|dims|]), ViewOf(dims, mask, outStrides), dims, mask, outStrides);
  }

  /** A view is determined by the input shape, the mask and the output strides. */
  lemma ViewUnique(v: Meta, w: Meta, dims: seq<nat>, mask: Mask, outStrides: seq<int>)
    requires IsView(v, dims, mask, outStrides) && IsView(w, dims, mask, outStrides)
    ensures v == w
  {
  }

  /**
   Dropping the reduced axes of the view gives back the output exactly: the
   kept sizes are the output shape and the kept strides are the output strides.
   */
  lemma ViewSqueeze(v: Meta, dims: seq<nat>, mask: Mask, outStrides: seq<int>)
    requires IsView(v, dims, mask, outStrides)
    requires |outStrides| == |dims| - MaskedCount(mask, |dims|)
    ensures Keep(v.dims, mask) == Keep(dims, mask)
    ensures Keep(v.strides, mask) == outStrides
  {
    KeepGathers(v.dims, mask);
    KeepGathers(v.strides, mask);
    KeepGathers(dims, mask);
    KeepLength(dims, mask);
    var axes := KeptAxes(mask, |dims|);
    forall k | 0 <= k < |axes|
      ensures Keep(v.dims, mask)[k] == Keep(dims, mask)[k]
      ensures Keep(v.strides, mask)[k] == outStrides[k]
    {
      KeptAxesPosition(mask, |dims|, k);
    }
  }

  /** Sizes of 1 on reduced axes do not change the element count. */
  lemma {:induction false} ProdKeepOnes(s: seq<nat>, mask: Mask)
    requires forall i :: 0 <= i < |s| && Masked(mask, i) ==> s[i] == 1
    ensures Prod(s) == Prod(Keep(s, mask))
  {
    if |s| > 0 {
      var n := |s| - 1;
      var init := s[..n];
      ProdKeepOnes(init, mask);
      assert Prod(s) == Prod(init) * s[n];
      if Masked(mask, n) {
        assert Keep(s, mask) == Keep(init, mask);
      } else {
        var k := Keep(init, mask) + [s[n]];
        assert Keep(s, mask) == k;
        assert k[..|k| - 1] == Keep(init, mask);
        assert Prod(k) == Prod(Keep(init, mask)) * s[n];
      }
    }
  }

  /** The view addresses as many elements as the output holds. */
  lemma ViewElementCount(v: Meta, dims: seq<nat>, mask: Mask, outStrides: seq<int>)
    requires IsView(v, dims, mask, outStrides)
    requires |outStrides| == |dims| - MaskedCount(mask, |dims|)
    ensures Prod(v.dims) == Prod(Keep(dims, mask))
  {
    ProdKeepOnes(v.dims, mask);
    ViewSqueeze(v, dims, mask, outStrides);
  }

  /**
   Reducing axis 1 of a 4 x 3 x 5 float array: the output is 4 x 5 with
   C-order strides 20 and 4, and the output descriptor sees sizes 4, 1, 5 with
   strides 20, 0, 4.
   */
  lemma ReduceMiddleAxisExample()
    ensures Keep([4, 3, 5], 2) == [4, 5]
    ensures CStrides([4, 5], ItemSize(Float)) == [20, 4]
    ensures ViewOf([4, 3, 5], 2, [20, 4]) == Meta(3, [4, 1, 5], [20, 0, 4])
  {
  }
}
