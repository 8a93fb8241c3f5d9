/**
 The checks of the reduction dispatcher and the order in which they are made.
 Every external call is answered by an oracle outcome, so whether a check
 fails is a function of the input, the parameters and the oracle alone.
 */
module Checks {
  import opened Options
  import opened Layout
  import opened AxisMask
  import opened Descriptors

  /** The input array: its metadata, its element type and its C-contiguity flag. */
  datatype Input = Input(meta: Meta, dtype: ElemType, cContiguous: bool)

  /** The operator parameters: reduced axes, operator, accumulator type, and whether an index array is passed. */
  datatype Params = Params(axis: Mask, redOp: nat, accType: nat, wantIndices: bool)

  /**
   What the external calls answer: the two tensor-descriptor setups, the two
   array allocations, the reduction-descriptor setup, the workspace query
   (its size, or nothing on failure), the workspace allocation and the reduction.
   */
  datatype Oracle = Oracle(
    inputDescOk: bool,
    outputAllocOk: bool,
    indexAllocOk: bool,
    outputDescOk: bool,
    reduceDescOk: bool,
    worksize: Option<nat>,
    workspaceAllocOk: bool,
    reduceOk: bool)

  /** The checks of the dispatcher, each of which can end a call with failure. */
  datatype Step =
    | NotContiguous
    | InputDescSetup
    | OutputAlloc
    | IndexAlloc
    | OutputDescSetup
    | ReduceDescSetup
    | UnsupportedDtype
    | WorkspaceQuery
    | WorkspaceAlloc
    | ReduceRun

  datatype Status = Done | Failed(step: Step)

  /** The C return value: 0 on success, 1 on any failure. */
  function ReturnCode(s: Status): int
  {
    if s.Done? then 0 else 1
  }

  /** The position of each check in the dispatcher. */
  function Order(s: Step): nat
  {
    match s
    case NotContiguous => 0
    case InputDescSetup => 1
    case OutputAlloc => 2
    case IndexAlloc => 3
    case OutputDescSetup => 4
    case ReduceDescSetup => 5
    case UnsupportedDtype => 6
    case WorkspaceQuery => 7
    case WorkspaceAlloc => 8
    case ReduceRun => 9
  }

  /** The check `s` fails, judged from the input, the parameters and the oracle alone. */
  predicate Blames(s: Step, input: Input, params: Params, oracle: Oracle)
  {
    match s
    case NotContiguous => !input.cContiguous
    case InputDescSetup => !oracle.inputDescOk
    case OutputAlloc => !oracle.outputAllocOk
    case IndexAlloc => params.wantIndices && !oracle.indexAllocOk
    case OutputDescSetup => !oracle.outputDescOk
    case ReduceDescSetup => !oracle.reduceDescOk
    case UnsupportedDtype => ScaleClass(input.dtype).None?
    case WorkspaceQuery => oracle.worksize.None?
    case WorkspaceAlloc => oracle.worksize.Some? && oracle.worksize.value != 0 && !oracle.workspaceAllocOk
    case ReduceRun => !oracle.reduceOk
  }

  /** `s` fails and every check before it passes. */
  predicate FirstFailure(s: Step, input: Input, params: Params, oracle: Oracle)
  {
    && Blames(s, input, params, oracle)
    && forall t: Step :: Order(t) < Order(s) ==> !Blames(t, input, params, oracle)
  }

  /** No check fails. */
  predicate Succeeds(input: Input, params: Params, oracle: Oracle)
  {
    forall t: Step :: !Blames(t, input, params, oracle)
  }

  /** The first of the checks up to the output descriptor setup that fails, if any. */
  function PrepareVerdict(input: Input, params: Params, oracle: Oracle): Option<Step>
  {
    if Blames(NotContiguous, input, params, oracle) then Some(NotContiguous)
    else if Blames(InputDescSetup, input, params, oracle) then Some(InputDescSetup)
    else if Blames(OutputAlloc, input, params, oracle) then Some(OutputAlloc)
    else if Blames(IndexAlloc, input, params, oracle) then Some(IndexAlloc)
    else if Blames(OutputDescSetup, input, params, oracle) then Some(OutputDescSetup)
    else None
  }

  /** The contiguity, input-descriptor and allocation checks pass: the output-descriptor surgery is reached. */
  predicate AllocationsPass(input: Input, params: Params, oracle: Oracle)
  {
    && input.cContiguous
    && oracle.inputDescOk
    && oracle.outputAllocOk
    && (params.wantIndices ==> oracle.indexAllocOk)
  }

  /** The first of the remaining checks that fails, or success. */
  function ExecuteVerdict(input: Input, params: Params, oracle: Oracle): Status
  {
    if Blames(ReduceDescSetup, input, params, oracle) then Failed(ReduceDescSetup)
    else if Blames(UnsupportedDtype, input, params, oracle) then Failed(UnsupportedDtype)
    else if Blames(WorkspaceQuery, input, params, oracle) then Failed(WorkspaceQuery)
    else if Blames(WorkspaceAlloc, input, params, oracle) then Failed(WorkspaceAlloc)
    else if Blames(ReduceRun, input, params, oracle) then Failed(ReduceRun)
    else Done
  }

  /** The outcome of a call: the checks are made in the dispatcher's order and the first failure ends it. */
  function Verdict(input: Input, params: Params, oracle: Oracle): Status
  {
    match PrepareVerdict(input, params, oracle)
    case Some(s) => Failed(s)
    case None => ExecuteVerdict(input, params, oracle)
  }

  /** The verdict names the first failing check, and is success exactly when no check fails. */
  lemma VerdictIsFirstFailure(input: Input, params: Params, oracle: Oracle)
    ensures Verdict(input, params, oracle).Failed? ==>
              FirstFailure(Verdict(input, params, oracle).step, input, params, oracle)
    ensures ReturnCode(Verdict(input, params, oracle)) == 0 <==> Succeeds(input, params, oracle)
  {
  }

  /** At most one check is the first to fail. */
  lemma FirstFailureUnique(s: Step, t: Step, input: Input, params: Params, oracle: Oracle)
    requires FirstFailure(s, input, params, oracle) && FirstFailure(t, input, params, oracle)
    ensures s == t
  {
  }

  /** The shape of the output and index arrays: the input sizes at the kept axes. */
  function OutputShape(input: Input, params: Params): seq<nat>
  {
    Keep(input.meta.dims, params.axis)
  }

  /** The number of index elements the reduction is told about: the output's element count, or 0 without indices. */
  function IndexCount(input: Input, params: Params): nat
  {
    if params.wantIndices then Prod(OutputShape(input, params)) else 0
  }
}
