/**
 The reduction descriptor settings and the precision class of the alpha /
 beta scale constants.
 */
module Descriptors {
  import opened Options
  import opened Layout

  datatype NanPolicy = NotPropagateNan | PropagateNan

  /** Whether the primitive also reports, per output element, the flattened index of its source element. */
  datatype IndexMode = NoIndices | FlattenedIndices

  datatype IndexWidth = Indices8 | Indices16 | Indices32 | Indices64

  /** The reduction operator and accumulator type are passed through from the parameters unchanged. */
  datatype ReduceDesc = ReduceDesc(op: nat, accType: nat, nan: NanPolicy, mode: IndexMode, width: IndexWidth)

  /** The floating-point type of the alpha = 1 and beta = 0 constants handed to the primitive. */
  datatype Precision = SinglePrecision | DoublePrecision

  /**
   The reduction descriptor the dispatcher configures: NaNs propagate, indices
   are 32 bits wide, and indices are reported exactly when an index array was supplied.
   */
  function ReduceDescriptor(op: nat, accType: nat, wantIndices: bool): (d: ReduceDesc)
    ensures d.op == op && d.accType == accType
    ensures d.nan == PropagateNan && d.width == Indices32
    ensures d.mode == FlattenedIndices <==> wantIndices
  {
    ReduceDesc(op, accType, PropagateNan, if wantIndices then FlattenedIndices else NoIndices, Indices32)
  }

  /** The scale-constant class of an element type, or nothing when the reduction does not support it. */
  function ScaleClass(t: ElemType): (r: Option<Precision>)
    ensures r == Some(SinglePrecision) <==> t == Float || t == Half
    ensures r == Some(DoublePrecision) <==> t == Double
    ensures r == None <==> t.UInt? || t.OtherType?
  {
    match t
    case Float => Some(SinglePrecision)
    case Half => Some(SinglePrecision)
    case Double => Some(DoublePrecision)
    case _ => None
  }
}
