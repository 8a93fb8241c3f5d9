/**
 The calls the reduction dispatcher makes, and the writes it makes to the
 output array's metadata, as a trace. Reference definitions give the trace of
 every path through the dispatcher; the lemmas state what every such trace
 guarantees: the arguments of each call, the bracketing of the view surgery,
 the release of the workspace, and where a failed call stops.
 */
module Traces {
  import opened Options
  import opened Layout
  import opened AxisMask
  import opened Shape
  import opened Descriptors
  import opened Checks

  /**
   The arguments of the reduction call that the dispatcher chooses: the
   descriptor, whether an index buffer is passed and its element count,
   whether a workspace is passed and its size, and the scale-constant class.
   */
  datatype ReduceCall = ReduceCall(
    desc: ReduceDesc,
    indices: bool,
    indexCount: nat,
    workspace: bool,
    workspaceSize: nat,
    scale: Precision)

  /** One external call, or one write to the output array's metadata. */
  datatype Event =
    | SetInputDesc(input: Meta)
    | PrepOutput(shape: seq<nat>, dtype: ElemType)
    | PrepIndices(shape: seq<nat>, dtype: ElemType)
    | InstallView(view: Meta)
    | SetOutputDesc(view: Meta)
    | RestoreMeta(meta: Meta)
    | SetReduceDesc(desc: ReduceDesc)
    | QueryWorkspace
    | AllocWorkspace(size: nat)
    | Reduce(call: ReduceCall)
    | ReleaseWorkspace

  /** The output array's metadata as the allocator leaves it: fresh, C-ordered, of the output shape. */
  function OutputMeta(input: Input, params: Params): Meta
  {
    Allocated(OutputShape(input, params), input.dtype)
  }

  /** The same-rank view of the output that the output descriptor is set up from. */
  function OutputView(input: Input, params: Params): Meta
  {
    ViewOf(input.meta.dims, params.axis, OutputMeta(input, params).strides)
  }

  // ---------------------------------------------------------------------------
  // The trace of every path

  /** The first calls: the input descriptor, the output array, and the index array when one is wanted. */
  function AllocationTrace(input: Input, params: Params, oracle: Oracle): seq<Event>
  {
    var shape := OutputShape(input, params);
    if !input.cContiguous then []
    else if !oracle.inputDescOk then [SetInputDesc(input.meta)]
    else if oracle.outputAllocOk && params.wantIndices then
      [SetInputDesc(input.meta), PrepOutput(shape, input.dtype), PrepIndices(shape, UInt)]
    else [SetInputDesc(input.meta), PrepOutput(shape, input.dtype)]
  }

  /** The surgery: install the view, set up the output descriptor from it, restore the output's metadata. */
  function SurgeryTrace(input: Input, params: Params): seq<Event>
  {
    [InstallView(OutputView(input, params)), SetOutputDesc(OutputView(input, params)), RestoreMeta(OutputMeta(input, params))]
  }

  /** The first half of a call: the allocations, then the surgery once they have all succeeded. */
  function PrepareTrace(input: Input, params: Params, oracle: Oracle): seq<Event>
  {
    AllocationTrace(input, params, oracle) + (if AllocationsPass(input, params, oracle) then SurgeryTrace(input, params) else [])
  }

  /**
   The second half: the reduction descriptor, the workspace query, the
   workspace allocation when the size is not 0, the reduction, and the release
   of a workspace that was obtained, whatever the reduction's outcome.
   */
  function ExecuteTrace(input: Input, params: Params, oracle: Oracle): seq<Event>
  {
    var desc := ReduceDescriptor(params.redOp, params.accType, params.wantIndices);
    var scale := ScaleClass(input.dtype);
    if !oracle.reduceDescOk || scale.None? then [SetReduceDesc(desc)]
    else if oracle.worksize.None? then [SetReduceDesc(desc), QueryWorkspace]
    else
      var n := oracle.worksize.value;
      var call := ReduceCall(desc, params.wantIndices, IndexCount(input, params), n != 0, n, scale.value);
      if n == 0 then [SetReduceDesc(desc), QueryWorkspace, Reduce(call)]
      else if !oracle.workspaceAllocOk then [SetReduceDesc(desc), QueryWorkspace, AllocWorkspace(n)]
      else [SetReduceDesc(desc), QueryWorkspace, AllocWorkspace(n), Reduce(call), ReleaseWorkspace]
  }

  /** A whole call: the second half runs only when every check of the first half passes. */
  function DispatchTrace(input: Input, params: Params, oracle: Oracle): seq<Event>
  {
    PrepareTrace(input, params, oracle) + (if PrepareVerdict(input, params, oracle).None? then ExecuteTrace(input, params, oracle) else [])
  }

  // ---------------------------------------------------------------------------
  // What a trace guarantees

  /**
   What each call and metadata write of the first half passes: the input's own
   metadata, the output shape, an unsigned 32-bit index array of the same shape,
   a view of the input's rank that has size 1 and stride 0 on the reduced axes
   and the input's size and the output's own stride elsewhere, and the
   allocator's metadata when the view is undone.
   */
  predicate PrepareEvent(e: Event, input: Input, params: Params)
  {
    var shape := OutputShape(input, params);
    var saved := OutputMeta(input, params);
    match e
    case SetInputDesc(m) => m == input.meta
    case PrepOutput(sh, t) => sh == shape && t == input.dtype
    case PrepIndices(sh, t) => params.wantIndices && sh == shape && t == UInt
    case InstallView(v) => IsView(v, input.meta.dims, params.axis, saved.strides)
    case SetOutputDesc(v) => IsView(v, input.meta.dims, params.axis, saved.strides)
    case RestoreMeta(m) => m == saved
    case _ => false
  }

  /** The reduction descriptor carries the parameters' operator and accumulator type, propagates NaNs, and asks for 32-bit indices exactly when an index array is supplied. */
  predicate DescribesParams(d: ReduceDesc, params: Params)
  {
    && d.op == params.redOp && d.accType == params.accType
    && d.nan == PropagateNan && d.width == Indices32
    && (d.mode == FlattenedIndices <==> params.wantIndices)
  }

  /**
   What each call of the second half passes: the reduction descriptor, a
   workspace request of the non-zero queried size, and the reduction's
   descriptor, index-buffer, workspace and scale-constant arguments.
   */
  predicate ExecuteEvent(e: Event, input: Input, params: Params, oracle: Oracle)
  {
    match e
    case SetReduceDesc(d) => DescribesParams(d, params)
    case QueryWorkspace => true
    case AllocWorkspace(n) => n != 0 && oracle.worksize == Some(n)
    case Reduce(c) =>
      && DescribesParams(c.desc, params)
      && ScaleClass(input.dtype) == Some(c.scale)
      && (c.indices <==> params.wantIndices)
      && c.indexCount == IndexCount(input, params)
      && oracle.worksize == Some(c.workspaceSize)
      && (c.workspace <==> c.workspaceSize != 0)
    case ReleaseWorkspace => true
    case _ => false
  }

  /** Every call and metadata write of a whole call passes what its half promises. */
  predicate EventOk(e: Event, input: Input, params: Params, oracle: Oracle)
  {
    PrepareEvent(e, input, params) || ExecuteEvent(e, input, params, oracle)
  }

  /** Entry `i` of the trace is an output-descriptor setup. */
  predicate SetsOutputDesc(trace: seq<Event>, i: int)
  {
    0 <= i < |trace| && trace[i].SetOutputDesc?
  }

  /** Entry `i` of the trace installs a view in the output's metadata. */
  predicate InstallsView(trace: seq<Event>, i: int)
  {
    0 <= i < |trace| && trace[i].InstallView?
  }

  /**
   The view surgery is bracketed: every installed view is immediately used for
   an output-descriptor setup, and every such setup is preceded by installing
   the view it sees and followed by restoring `saved`. So an installed view is
   always undone two entries later.
   */
  predicate Bracketed(trace: seq<Event>, saved: Meta)
  {
    && (forall i {:trigger InstallsView(trace, i)} :: 0 <= i < |trace| && InstallsView(trace, i) ==>
          i < |trace| - 1 && trace[i + 1] == SetOutputDesc(trace[i].view))
    && (forall i {:trigger SetsOutputDesc(trace, i)} :: 0 <= i < |trace| && SetsOutputDesc(trace, i) ==>
          && 0 < i < |trace| - 1
          && trace[i - 1] == InstallView(trace[i].view)
          && trace[i + 1] == RestoreMeta(saved))
  }

  /** The workspace was obtained: it was requested with the queried size and the allocation succeeded. */
  predicate WorkspaceHeld(trace: seq<Event>, oracle: Oracle)
  {
    oracle.worksize.Some? && AllocWorkspace(oracle.worksize.value) in trace && oracle.workspaceAllocOk
  }

  /** How many times `e` occurs in `trace`. */
  function Occurrences(trace: seq<Event>, e: Event): nat
  {
    if |trace| == 0 then 0
    else Occurrences(trace[..|trace| - 1], e) + (if trace[|trace| - 1] == e then 1 else 0)
  }

  /** The reduction primitive was called. */
  predicate Reduced(trace: seq<Event>)
  {
    exists i :: 0 <= i < |trace| && trace[i].Reduce?
  }

  /**
   The trace ends with the call whose failure `status` reports: nothing at all
   for a non-contiguous input, the restoring write for a failed output
   descriptor, and the reduction (followed by the workspace release when one
   was held) when the reduction was reached.
   */
  predicate StopsAt(trace: seq<Event>, status: Status)
  {
    if |trace| == 0 then status == Failed(NotContiguous)
    else
      var last := trace[|trace| - 1];
      match status
      case Failed(NotContiguous) => false
      case Failed(InputDescSetup) => last.SetInputDesc?
      case Failed(OutputAlloc) => last.PrepOutput?
      case Failed(IndexAlloc) => last.PrepIndices?
      case Failed(OutputDescSetup) => last.RestoreMeta?
      case Failed(ReduceDescSetup) => last.SetReduceDesc?
      case Failed(UnsupportedDtype) => last.SetReduceDesc?
      case Failed(WorkspaceQuery) => last.QueryWorkspace?
      case Failed(WorkspaceAlloc) => last.AllocWorkspace?
      case _ => last.Reduce? || (last.ReleaseWorkspace? && |trace| >= 2 && trace[|trace| - 2].Reduce?)
  }

  lemma {:induction false} OccurrencesAbsent(trace: seq<Event>, e: Event)
    requires e !in trace
    ensures Occurrences(trace, e) == 0
  {
    if |trace| > 0 {
      assert trace[..|trace| - 1] <= trace;
      OccurrencesAbsent(trace[..|trace| - 1], e);
    }
  }

  lemma {:induction false} OccurrencesConcat(a: seq<Event>, b: seq<Event>, e: Event)
    ensures Occurrences(a + b, e) == Occurrences(a, e) + Occurrences(b, e)
    decreases |b|
  {
    if |b| == 0 {
      assert a + b == a;
    } else {
      var c := a + b;
      var init := b[..|b| - 1];
      assert c[..|c| - 1] == a + init;
      assert c[|c| - 1] == b[|b| - 1];
      OccurrencesConcat(a, init, e);
    }
  }

  /** The view installed for the output descriptor is a genuine view of the input over the output's strides. */
  lemma OutputViewIsView(input: Input, params: Params)
    ensures IsView(OutputView(input, params), input.meta.dims, params.axis, OutputMeta(input, params).strides)
  {
    KeepLength(input.meta.dims, params.axis);
  }

  /** Every call and write of the first half passes the arguments `PrepareEvent` describes. */
  lemma PrepareTraceEvents(input: Input, params: Params, oracle: Oracle)
    ensures forall e :: e in PrepareTrace(input, params, oracle) ==> PrepareEvent(e, input, params)
  {
    OutputViewIsView(input, params);
  }

  /** Every call of the second half passes the arguments `ExecuteEvent` describes. */
  lemma ExecuteTraceEvents(input: Input, params: Params, oracle: Oracle)
    ensures forall e :: e in ExecuteTrace(input, params, oracle) ==> ExecuteEvent(e, input, params, oracle)
  {
  }

  /** Every call and write of a whole call passes the arguments its step promises. */
  lemma DispatchTraceEvents(input: Input, params: Params, oracle: Oracle)
    ensures forall e :: e in DispatchTrace(input, params, oracle) ==> EventOk(e, input, params, oracle)
  {
    PrepareTraceEvents(input, params, oracle);
    ExecuteTraceEvents(input, params, oracle);
  }

  /** Calls appended after a bracketed trace, none of them a view installation or an output-descriptor setup, keep it bracketed. */
  lemma BracketedExtend(p: seq<Event>, x: seq<Event>, saved: Meta)
    requires Bracketed(p, saved)
    requires forall e :: e in x ==> !e.SetOutputDesc? && !e.InstallView?
    ensures Bracketed(p + x, saved)
  {
    var t := p + x;
    forall i | 0 <= i < |t| && InstallsView(t, i)
      ensures i < |t| - 1 && t[i + 1] == SetOutputDesc(t[i].view)
    {
      assert forall j :: |p| <= j < |t| ==> t[j] == x[j - |p|] && x[j - |p|] in x;
      assert forall j :: 0 <= j < |p| ==> t[j] == p[j];
      assert InstallsView(p, i);
    }
    forall i | 0 <= i < |t| && SetsOutputDesc(t, i)
      ensures 0 < i < |t| - 1 && t[i - 1] == InstallView(t[i].view) && t[i + 1] == RestoreMeta(saved)
    {
      assert forall j :: |p| <= j < |t| ==> t[j] == x[j - |p|] && x[j - |p|] in x;
      assert forall j :: 0 <= j < |p| ==> t[j] == p[j];
      assert SetsOutputDesc(p, i);
    }
  }

  /** The first half sets up the output descriptor exactly when the allocations pass, inside the surgery. */
  lemma PrepareTraceBracketed(input: Input, params: Params, oracle: Oracle)
    ensures Bracketed(PrepareTrace(input, params, oracle), OutputMeta(input, params))
    ensures SetOutputDesc(OutputView(input, params)) in PrepareTrace(input, params, oracle) <==> AllocationsPass(input, params, oracle)
  {
  }

  /**
   The output descriptor is set up exactly when the allocations pass, and the
   surgery around it is always undone right away, before any failure is
   reported: the output ends with the allocator's own metadata.
   */
  lemma DispatchTraceBracketed(input: Input, params: Params, oracle: Oracle)
    ensures Bracketed(DispatchTrace(input, params, oracle), OutputMeta(input, params))
    ensures SetOutputDesc(OutputView(input, params)) in DispatchTrace(input, params, oracle) <==> AllocationsPass(input, params, oracle)
  {
    var p := PrepareTrace(input, params, oracle);
    var x := if PrepareVerdict(input, params, oracle).None? then ExecuteTrace(input, params, oracle) else [];
    assert DispatchTrace(input, params, oracle) == p + x;
    PrepareTraceBracketed(input, params, oracle);
    BracketedExtend(p, x, OutputMeta(input, params));
  }

  /** In the second half alone, a workspace that was obtained is released exactly once, as the last call, right after the reduction. */
  lemma ExecuteTraceReleases(input: Input, params: Params, oracle: Oracle)
    ensures var x := ExecuteTrace(input, params, oracle);
            Occurrences(x, ReleaseWorkspace) == (if WorkspaceHeld(x, oracle) then 1 else 0)
    ensures var x := ExecuteTrace(input, params, oracle);
            ReleaseWorkspace in x ==> |x| >= 2 && x[|x| - 1] == ReleaseWorkspace && x[|x| - 2].Reduce?
  {
    var x := ExecuteTrace(input, params, oracle);
    if WorkspaceHeld(x, oracle) {
      var held := x[..|x| - 1];
      assert x == held + [ReleaseWorkspace];
      OccurrencesAbsent(held, ReleaseWorkspace);
      OccurrencesConcat(held, [ReleaseWorkspace], ReleaseWorkspace);
    } else {
      OccurrencesAbsent(x, ReleaseWorkspace);
    }
  }

  /** A workspace that was obtained is released exactly once, as the last call, right after the reduction; one that was not is never released. */
  lemma DispatchTraceReleases(input: Input, params: Params, oracle: Oracle)
    ensures var trace := DispatchTrace(input, params, oracle);
            Occurrences(trace, ReleaseWorkspace) == (if WorkspaceHeld(trace, oracle) then 1 else 0)
    ensures var trace := DispatchTrace(input, params, oracle);
            ReleaseWorkspace in trace ==> |trace| >= 2 && trace[|trace| - 1] == ReleaseWorkspace && trace[|trace| - 2].Reduce?
  {
    var p := PrepareTrace(input, params, oracle);
    var trace := DispatchTrace(input, params, oracle);
    assert ReleaseWorkspace !in p && (forall n :: AllocWorkspace(n) !in p);
    OccurrencesAbsent(p, ReleaseWorkspace);
    if PrepareVerdict(input, params, oracle).None? {
      var x := ExecuteTrace(input, params, oracle);
      assert trace == p + x;
      ExecuteTraceReleases(input, params, oracle);
      OccurrencesConcat(p, x, ReleaseWorkspace);
      assert forall e :: e in trace <==> e in p || e in x;
      if ReleaseWorkspace in x {
        assert trace[|trace| - 1] == x[|x| - 1] && trace[|trace| - 2] == x[|x| - 2];
      }
    } else {
      assert trace == p;
    }
  }

  /** Appending calls after a trace that stops at a step of the second half keeps it stopping there. */
  lemma StopsAtExtend(p: seq<Event>, x: seq<Event>, status: Status)
    requires |x| > 0 && StopsAt(x, status)
    ensures StopsAt(p + x, status)
  {
  }

  /** A first half that fails stops at its failing call. */
  lemma PrepareTraceStops(input: Input, params: Params, oracle: Oracle)
    requires PrepareVerdict(input, params, oracle).Some?
    ensures StopsAt(PrepareTrace(input, params, oracle), Failed(PrepareVerdict(input, params, oracle).value))
  {
  }

  /** The second half stops at its failing call, or at the reduction. */
  lemma ExecuteTraceStops(input: Input, params: Params, oracle: Oracle)
    ensures |ExecuteTrace(input, params, oracle)| > 0
    ensures StopsAt(ExecuteTrace(input, params, oracle), ExecuteVerdict(input, params, oracle))
    ensures ExecuteVerdict(input, params, oracle) == Failed(UnsupportedDtype) ==> QueryWorkspace !in ExecuteTrace(input, params, oracle)
  {
  }

  /**
   A failed call stops at the failing call: the trace ends with the call whose
   failure the verdict reports, and an unsupported element type stops the call
   before the workspace query.
   */
  lemma DispatchTraceStops(input: Input, params: Params, oracle: Oracle)
    ensures StopsAt(DispatchTrace(input, params, oracle), Verdict(input, params, oracle))
    ensures Verdict(input, params, oracle) == Failed(UnsupportedDtype) ==> QueryWorkspace !in DispatchTrace(input, params, oracle)
  {
    var p := PrepareTrace(input, params, oracle);
    var trace := DispatchTrace(input, params, oracle);
    if PrepareVerdict(input, params, oracle).None? {
      var x := ExecuteTrace(input, params, oracle);
      assert trace == p + x;
      ExecuteTraceStops(input, params, oracle);
      StopsAtExtend(p, x, ExecuteVerdict(input, params, oracle));
      assert QueryWorkspace !in p;
    } else {
      assert trace == p;
      PrepareTraceStops(input, params, oracle);
    }
  }

  /** Calls before a trace that include no reduction do not change whether it reduces. */
  lemma ReducedAfter(p: seq<Event>, x: seq<Event>)
    requires forall e :: e in p ==> !e.Reduce?
    ensures Reduced(p + x) <==> Reduced(x)
  {
    var t := p + x;
    assert forall j :: 0 <= j < |p| ==> t[j] == p[j] && p[j] in p;
    assert forall j :: |p| <= j < |t| ==> t[j] == x[j - |p|];
    if Reduced(x) {
      var k :| 0 <= k < |x| && x[k].Reduce?;
      assert t[|p| + k] == x[k];
    }
  }

  /** The second half calls the reduction primitive exactly when its checks before the reduction pass. */
  lemma ExecuteTraceReduces(input: Input, params: Params, oracle: Oracle)
    ensures Reduced(ExecuteTrace(input, params, oracle)) <==>
            ExecuteVerdict(input, params, oracle) == Done || ExecuteVerdict(input, params, oracle) == Failed(ReduceRun)
  {
    var x := ExecuteTrace(input, params, oracle);
    if ExecuteVerdict(input, params, oracle) == Done || ExecuteVerdict(input, params, oracle) == Failed(ReduceRun) {
      assert x[if oracle.worksize.value == 0 then 2 else 3].Reduce?;
    }
  }

  /** The reduction primitive is called exactly when every check before it passes. */
  lemma DispatchTraceReduces(input: Input, params: Params, oracle: Oracle)
    ensures Reduced(DispatchTrace(input, params, oracle)) <==>
            Verdict(input, params, oracle) == Done || Verdict(input, params, oracle) == Failed(ReduceRun)
  {
    var p := PrepareTrace(input, params, oracle);
    if PrepareVerdict(input, params, oracle).None? {
      assert DispatchTrace(input, params, oracle) == p + ExecuteTrace(input, params, oracle);
      ExecuteTraceReduces(input, params, oracle);
      ReducedAfter(p, ExecuteTrace(input, params, oracle));
    } else {
      assert DispatchTrace(input, params, oracle) == p + [];
      ReducedAfter(p, []);
    }
  }
}
