/**
 Array metadata as libgpuarray keeps it for a GpuArray: the rank, the
 per-axis sizes and the per-axis byte strides, plus the element types the
 reduction meets.
 */
module Layout {

  /** Largest rank the reduction handles: the scratch shape and stride arrays hold eight axes. */
  const MaxRank: nat := 8

  /** The typecodes the dispatcher distinguishes; every other typecode is carried with its item size. */
  datatype ElemType = Half | Float | Double | UInt | OtherType(code: int, size: nat)

  /** Bytes per element. */
  function ItemSize(t: ElemType): nat
  {
    match t
    case Half => 2
    case Float => 4
    case Double => 8
    case UInt => 4
    case OtherType(_, size) => size
  }

  /**
   The `nd`, `dimensions` and `strides` fields of an array. The rank is a
   field of its own because the dispatcher overwrites the three fields
   one at a time, so they need not agree while it does.
   */
  datatype Meta = Meta(nd: nat, dims: seq<nat>, strides: seq<int>)
  {
    predicate Valid()
    {
      nd == |dims| && nd == |strides|
    }
  }

  /** Number of elements of an array with these sizes (1 for rank 0). */
  function Prod(s: seq<nat>): nat
  {
    if |s| == 0 then 1 else Prod(s[..|s| - 1]) * s[|s| - 1]
  }

  /** Row-major byte strides: the last axis moves fastest, each axis steps over a whole block of the next. */
  function CStrides(dims: seq<nat>, itemSize: nat): (r: seq<int>)
    ensures |r| == |dims|
  {
    if |dims| == 0 then []
    else
      var rest := CStrides(dims[1..], itemSize);
      [if |dims| == 1 then itemSize else rest[0] * dims[1]] + rest
  }

  /** In row-major order the last axis steps by one element and every other axis by a block of the next. */
  lemma {:induction false} CStridesRowMajor(dims: seq<nat>, itemSize: nat)
    ensures |dims| > 0 ==> CStrides(dims, itemSize)[|dims| - 1] == itemSize
    ensures forall k :: 0 <= k < |dims| - 1 ==>
              CStrides(dims, itemSize)[k] == CStrides(dims, itemSize)[k + 1] * dims[k + 1]
  {
    if |dims| > 0 {
      CStridesRowMajor(dims[1..], itemSize);
    }
  }

  /** The metadata of a fresh C-ordered array of the given shape and element type, as the output allocator returns it. */
  function Allocated(shape: seq<nat>, t: ElemType): (m: Meta)
    ensures m.Valid()
    ensures m.dims == shape
  {
    Meta(|shape|, shape, CStrides(shape, ItemSize(t)))
  }
}
