/**
 The reduction dispatcher. It validates the input, derives the output shape,
 configures the input, output and reduction descriptors, sizes and holds the
 workspace, and runs the reduction primitive once. Every external call is
 answered by an oracle outcome; the dispatcher records the calls it makes and
 the writes it makes to the output's metadata as a trace.
 */
module Dispatch {
  import opened Options
  import opened Layout
  import opened AxisMask
  import opened Shape
  import opened Descriptors
  import opened Checks
  import opened Traces

  /**
   Validation and allocation: the contiguity check, the input descriptor, the
   output shape, the output array and the optional index array with its
   element count `indsize`.
   */
  method Allocate(input: Input, params: Params, oracle: Oracle)
    returns (failure: Option<Step>, out: Option<Meta>, ind: Option<Meta>, indsize: nat, trace: seq<Event>)
    requires input.meta.Valid() && input.meta.nd <= MaxRank
    ensures failure.None? <==> AllocationsPass(input, params, oracle)
    ensures failure.Some? ==> failure == PrepareVerdict(input, params, oracle)
    ensures out.Some? <==> input.cContiguous && oracle.inputDescOk && oracle.outputAllocOk
    ensures out.Some? ==> out.value == OutputMeta(input, params)
    ensures ind.Some? <==> out.Some? && params.wantIndices && oracle.indexAllocOk
    ensures ind.Some? ==> ind.value == Allocated(OutputShape(input, params), UInt)
    ensures failure.None? ==> indsize == IndexCount(input, params)
    ensures trace == AllocationTrace(input, params, oracle)
  {
    out := None;
    ind := None;
    indsize := 0;
    if !input.cContiguous {
      return Some(NotContiguous), out, ind, indsize, [];
    }
    if !oracle.inputDescOk {
      return Some(InputDescSetup), out, ind, indsize, [SetInputDesc(input.meta)];
    }

    var dims, p := OutputDims(input.meta.dims, params.axis);
    var shape := dims[..p];
    trace := [SetInputDesc(input.meta), PrepOutput(shape, input.dtype)];
    if !oracle.outputAllocOk {
      return Some(OutputAlloc), out, ind, indsize, trace;
    }
    out := Some(Allocated(shape, input.dtype));

    if params.wantIndices {
      trace := trace + [PrepIndices(shape, UInt)];
      if !oracle.indexAllocOk {
        return Some(IndexAlloc), out, ind, indsize, trace;
      }
      ind := Some(Allocated(shape, UInt));
      indsize := Prod(ind.value.dims);
    }
    return None, out, ind, indsize, trace;
  }

  /**
   The metadata surgery: install the same-rank view in the output's own
   fields, set up the output descriptor from them, and put the fields back.
   The rank is not saved but restored from the view loop's counter. Returns
   the output's metadata afterwards, whether the setup succeeded, and the trace.
   */
  method DescribeOutput(input: Input, params: Params, saved: Meta, oracle: Oracle)
    returns (out: Meta, described: bool, trace: seq<Event>)
    requires input.meta.Valid() && input.meta.nd <= MaxRank
    requires saved == OutputMeta(input, params)
    ensures out == saved
    ensures described == oracle.outputDescOk
    ensures trace == SurgeryTrace(input, params)
  {
    KeepLength(input.meta.dims, params.axis);
    var vdims, vstrs, p := TransientView(input.meta.dims, params.axis, saved.strides);

    out := saved;
    var tdims, tstrs := out.dims, out.strides;
    out := Meta(input.meta.nd, vdims[..input.meta.nd], vstrs[..input.meta.nd]);
    var view := out;
    // The descriptor is set up from whatever the output's fields hold now.
    described := oracle.outputDescOk;
    trace := [InstallView(view), SetOutputDesc(out)];
    out := Meta(p, tdims, tstrs);
    trace := trace + [RestoreMeta(out)];
  }

  /**
   The first half of a call, up to and including the output-descriptor surgery.
   Returns the failing check if any, the output and index metadata, the index
   element count `indsize`, and the trace.
   */
  method Prepare(input: Input, params: Params, oracle: Oracle)
    returns (failure: Option<Step>, out: Option<Meta>, ind: Option<Meta>, indsize: nat, trace: seq<Event>)
    requires input.meta.Valid() && input.meta.nd <= MaxRank
    ensures failure == PrepareVerdict(input, params, oracle)
    ensures out.Some? <==> input.cContiguous && oracle.inputDescOk && oracle.outputAllocOk
    ensures out.Some? ==> out.value == OutputMeta(input, params)
    ensures ind.Some? <==> out.Some? && params.wantIndices && oracle.indexAllocOk
    ensures ind.Some? ==> ind.value == Allocated(OutputShape(input, params), UInt)
    ensures failure.None? ==> indsize == IndexCount(input, params)
    ensures trace == PrepareTrace(input, params, oracle)
  {
    var allocations;
    failure, out, ind, indsize, allocations := Allocate(input, params, oracle);
    if failure.Some? {
      return failure, out, ind, indsize, allocations;
    }
    var restored, described, surgery := DescribeOutput(input, params, out.value, oracle);
    out := Some(restored);
    trace := allocations + surgery;
    if !described {
      return Some(OutputDescSetup), out, ind, indsize, trace;
    }
    return None, out, ind, indsize, trace;
  }

  /**
   The second half of a call, once the output descriptor is set: the reduction
   descriptor, the scale constants, the workspace and the reduction itself.
   `indsize` is the index element count from the first half.
   */
  method Execute(input: Input, params: Params, indsize: nat, oracle: Oracle)
    returns (failure: Option<Step>, trace: seq<Event>)
    requires indsize == IndexCount(input, params)
    ensures (if failure.Some? then Failed(failure.value) else Done) == ExecuteVerdict(input, params, oracle)
    ensures trace == ExecuteTrace(input, params, oracle)
  {
    var desc := ReduceDescriptor(params.redOp, params.accType, params.wantIndices);
    trace := [SetReduceDesc(desc)];
    if !oracle.reduceDescOk {
      return Some(ReduceDescSetup), trace;
    }

    var scale := ScaleClass(input.dtype);
    if scale.None? {
      return Some(UnsupportedDtype), trace;
    }

    trace := trace + [QueryWorkspace];
    if oracle.worksize.None? {
      return Some(WorkspaceQuery), trace;
    }
    var worksize := oracle.worksize.value;
    var held := false;
    if worksize != 0 {
      trace := trace + [AllocWorkspace(worksize)];
      if !oracle.workspaceAllocOk {
        return Some(WorkspaceAlloc), trace;
      }
      held := true;
    }

    var call := ReduceCall(desc, params.wantIndices, indsize, worksize != 0, worksize, scale.value);
    trace := trace + [Reduce(call)];
    // The workspace is released whether or not the reduction succeeds.
    if held {
      trace := trace + [ReleaseWorkspace];
    }
    if !oracle.reduceOk {
      return Some(ReduceRun), trace;
    }
    return None, trace;
  }

  /**
   One call of the dispatcher. Returns the status, the output and index
   arrays' metadata as the caller sees them afterwards (nothing when they
   were not allocated), and the trace of calls and metadata writes.
   */
  method Dispatch(input: Input, params: Params, oracle: Oracle)
    returns (status: Status, out: Option<Meta>, ind: Option<Meta>, trace: seq<Event>)
    requires input.meta.Valid() && input.meta.nd <= MaxRank
    // The status names the first failing check (see VerdictIsFirstFailure).
    ensures status == Verdict(input, params, oracle)
    // The output and index arrays, as the caller sees them afterwards.
    ensures out.Some? <==> input.cContiguous && oracle.inputDescOk && oracle.outputAllocOk
    ensures out.Some? ==> out.value == OutputMeta(input, params)
    ensures ind.Some? <==> out.Some? && params.wantIndices && oracle.indexAllocOk
    ensures ind.Some? ==> ind.value == Allocated(OutputShape(input, params), UInt)
    ensures trace == DispatchTrace(input, params, oracle)
    // Every call gets the arguments its step promises.
    ensures forall e :: e in trace ==> EventOk(e, input, params, oracle)
    // The view surgery is undone right after the output descriptor setup, before any failure is returned.
    ensures out.Some? ==> Bracketed(trace, out.value)
    // The call stops at the failing check; the reduction runs exactly when every check before it passes.
    ensures StopsAt(trace, status)
    ensures status == Failed(UnsupportedDtype) ==> QueryWorkspace !in trace
    ensures Reduced(trace) <==> status == Done || status == Failed(ReduceRun)
    // A held workspace is released exactly once, right after the reduction, whatever its outcome.
    ensures Occurrences(trace, ReleaseWorkspace) == (if WorkspaceHeld(trace, oracle) then 1 else 0)
    ensures ReleaseWorkspace in trace ==> |trace| >= 2 && trace[|trace| - 1] == ReleaseWorkspace && trace[|trace| - 2].Reduce?
  {
    var failure, indsize;
    failure, out, ind, indsize, trace := Prepare(input, params, oracle);
    if failure.Some? {
      status := Failed(failure.value);
    } else {
      var failure2, executed := Execute(input, params, indsize, oracle);
      status := if failure2.Some? then Failed(failure2.value) else Done;
      trace := trace + executed;
    }
    DispatchTraceEvents(input, params, oracle);
    DispatchTraceBracketed(input, params, oracle);
    DispatchTraceStops(input, params, oracle);
    DispatchTraceReduces(input, params, oracle);
    DispatchTraceReleases(input, params, oracle);
  }
}
