# dnn_redux: a Dafny model of Theano's cuDNN reduction dispatcher

Theano's GPU back end hands reductions along a set of axes ("sum over axes 0
and 2", "argmax over axis 1") to cuDNN's `cudnnReduceTensor`. The C function
`dnn_redux` in `theano/gpuarray/dnn_redux.c` is the adapter. It takes an input
array, a 32-bit axis mask, an operator and an optional index array, and then:

1. refuses a non-contiguous input;
2. sets up the input tensor descriptor;
3. compacts the input shape by dropping the masked axes, and allocates the
   output (and, when asked, an unsigned-int index array) with that shape;
4. builds a *transient view* of the input's rank over the output. Reduced axes
   get size 1 and stride 0. Kept axes get the input's size and the output's
   real stride at the compacted position;
5. performs the "surgery": installs that view in the output's own metadata,
   sets up the output descriptor from it, and restores the metadata before
   looking at the result. The rank is not saved; it is restored from the view
   loop's counter;
6. configures the reduction descriptor: NaNs propagate, indices are 32 bits
   wide, and flattened indices are used exactly when an index array is passed;
7. picks single- or double-precision alpha/beta constants from the element
   type, refusing any other type;
8. queries the workspace size, allocates a workspace only when the size is
   non-zero, runs the reduction, and releases the workspace whatever the
   reduction's outcome.

The model is organised in eight modules:

- `Options` (`options.dfy`): the `Option` type.
- `Layout` (`layout.dfy`): array metadata `Meta(nd, dims, strides)`, element
  types and their sizes, the element count `Prod`, and C-order strides for a
  freshly allocated array.
- `AxisMask` (`axis_mask.dfy`): the mask as a number below 2^32, where bit `i`
  reduces axis `i`. It also defines compaction: `Keep` drops the masked
  entries, `KeptBefore` gives the compacted position, and `KeptAxes` lists the
  kept axes.
- `Shape` (`shape.dfy`): the two loops of the function as methods over an
  eight-entry buffer, together with the transient view and its laws.
- `Descriptors` (`descriptors.dfy`): the reduction-descriptor settings and the
  scale-constant precision class.
- `Checks` (`checks.dfy`): the ten checks of the function, which of them fails
  for given oracle answers, and the order in which they are made.
- `Traces` (`traces.dfy`): the calls made and the writes to the output's
  metadata, as a trace. Reference definitions give the trace of every path.
  Lemmas state what every trace guarantees.
- `Dispatch` (`dispatch.dfy`): the function itself, as methods for its two
  halves and one method for a whole call.

Every external call is an *oracle* answer passed in as a parameter (`Oracle`).
These are the two tensor-descriptor setups, the output and index allocations,
the reduction-descriptor setup, the workspace-size query (a size, or nothing on
failure), the workspace allocation and the reduction. With those answers fixed
the dispatcher is deterministic, and its outcome and trace are stated
completely.

## Model

| member | source | states |
|---|---|---|
| Shape.OutputDims | theano/gpuarray/dnn_redux.c:71-77 | The first loop leaves, at the front of the eight-entry buffer, exactly the input sizes at the unmasked axes in their original order. Its counter `p` is the input rank minus the number of masked axes below the rank. |
| AxisMask.KeepLength | theano/gpuarray/dnn_redux.c:71-77 | The compacted shape has as many entries as there are kept axes below the rank, that is the rank minus the masked axes. |
| AxisMask.KeptPlusMasked | theano/gpuarray/dnn_redux.c:71-77 | Below any bound, every axis is either kept or masked: the kept count plus the masked count is the bound. |
| AxisMask.KeptAxesMembers | theano/gpuarray/dnn_redux.c:72-73 | An axis is kept exactly when it is below the rank and its mask bit is clear. Mask bits at or above the rank are ignored. |
| AxisMask.KeepGathers | theano/gpuarray/dnn_redux.c:71-77 | Entry k of the compacted shape is the input entry at the k-th kept axis, so the relative order is preserved. |
| AxisMask.KeptBeforeStrict | theano/gpuarray/dnn_redux.c:97-100 | A kept axis's compacted position lies below the number of kept axes, so the view loop only reads output strides that exist. |
| AxisMask.KeptAxesPosition | theano/gpuarray/dnn_redux.c:97-100 | The counter `p` at the k-th kept axis is k, and that axis is unmasked. |
| AxisMask.KeptBeforeIsPosition | theano/gpuarray/dnn_redux.c:97-100 | The kept axis at the compacted position of axis i is i itself. Compaction is a bijection between the kept axes and the output positions. |
| AxisMask.KeepAt | theano/gpuarray/dnn_redux.c:97-99 | The compacted entry at the compacted position of a kept axis is that axis's entry. |
| Layout.CStridesRowMajor | theano/gpuarray/dnn_redux.c:79-80 | A fresh C-order array has the item size as its last stride, and every other stride is the next stride times the next size. |
| Shape.TransientView | theano/gpuarray/dnn_redux.c:92-102 | The second loop builds a view with the input's rank. Masked axes get size 1 and stride 0. Unmasked axes get the input size and the output's stride at the compacted position. The view equals the closed form `ViewOf`, and the counter ends at the output's rank, which is the value line 115 restores. |
| Shape.ViewOf | theano/gpuarray/dnn_redux.c:92-102 | The closed-form view is a transient view whenever the output strides have the output's rank. |
| Shape.ViewUnique | theano/gpuarray/dnn_redux.c:92-102 | A transient view is determined by the input shape, the mask and the output strides: two such views are equal. |
| Shape.ViewSqueeze | theano/gpuarray/dnn_redux.c:92-102 | Dropping the masked axes from the view gives back the output shape and the output strides, so the view is an exact inverse of the compaction. |
| Shape.ProdKeepOnes | theano/gpuarray/dnn_redux.c:94-96 | Axes of size 1 do not change the element count: dropping them leaves the product of the sizes unchanged. |
| Shape.ViewElementCount | theano/gpuarray/dnn_redux.c:92-102 | The view describes exactly as many elements as the output array holds. |
| Shape.ReduceMiddleAxisExample | theano/gpuarray/dnn_redux.c:71-102 | Reducing axis 1 of a 4 x 3 x 5 float array gives a 4 x 5 output with strides 20 and 4, and a view with sizes 4, 1, 5 and strides 20, 0, 4. |
| Descriptors.ReduceDescriptor | theano/gpuarray/dnn_redux.c:124-128 | The operator and accumulator type are passed through. NaNs propagate and indices are 32 bits wide. Flattened-index mode is chosen exactly when an index array is supplied. |
| Descriptors.ScaleClass | theano/gpuarray/dnn_redux.c:136-149 | Float and half select single-precision constants and double selects double precision. Every other type, unsigned int included, is unsupported. |
| Checks.VerdictIsFirstFailure | theano/gpuarray/dnn_redux.c:63-189 | The verdict names a check that fails while every earlier check passes, and the return code is 0 exactly when no check fails. |
| Checks.FirstFailureUnique | theano/gpuarray/dnn_redux.c:63-189 | At most one check is the first to fail, so the failure the verdict names is the only one the caller can be told about. |
| Dispatch.Allocate | theano/gpuarray/dnn_redux.c:63-87 | The contiguity, input-descriptor and allocation checks, made in order. The output and index arrays exist exactly when their allocations were reached and succeeded, with the compacted shape and C-order strides (unsigned int for indices). `indsize` is the output's element count with indices and 0 without. The trace is the reference allocation trace. |
| Dispatch.DescribeOutput | theano/gpuarray/dnn_redux.c:104-120 | The surgery installs the transient view, sets up the descriptor from it, and leaves the output's metadata equal to the allocator's, rank included. This holds whether or not the setup succeeded. |
| Dispatch.Prepare | theano/gpuarray/dnn_redux.c:63-120 | The first half fails exactly at the first failing check of its five. When it fails at the output descriptor, it fails only after the restore. |
| Dispatch.Execute | theano/gpuarray/dnn_redux.c:123-189 | The second half's outcome is its first failing check or success. Its calls are the reduction descriptor, the workspace query, a workspace allocation only for a non-zero size, the reduction, and the release of a held workspace. |
| Dispatch.Dispatch | theano/gpuarray/dnn_redux.c:40-190 | A whole call. The status is the first failing check, and the caller sees the output and index arrays as the allocator made them. Every call gets the arguments its step promises. The surgery is bracketed and the call stops at the failing check. The reduction runs exactly when every earlier check passes, and a held workspace is released exactly once, right after the reduction. |
| Traces.OutputViewIsView | theano/gpuarray/dnn_redux.c:92-109 | The view installed for the output descriptor is a transient view over the fresh output's strides. |
| Traces.PrepareTraceEvents | theano/gpuarray/dnn_redux.c:68-117 | The first half passes the input's own metadata to its descriptor, and the compacted shape to both allocations (unsigned int for indices). The output descriptor sees a transient view, and the restore writes back the allocator's metadata. |
| Traces.DispatchTraceEvents | theano/gpuarray/dnn_redux.c:68-181 | Every call of a whole call passes the arguments its step promises. The reduction gets a null index buffer and count 0 without indices, and the output's element count with them. It gets the queried workspace size, with a workspace exactly when that size is non-zero, and the scale class of the input type. |
| Traces.PrepareTraceBracketed | theano/gpuarray/dnn_redux.c:104-120 | In the first half, the output descriptor is set up exactly when the allocations pass. Every installed view is used at once for the setup, and the setup is immediately preceded by installing its view and followed by the restore. |
| Traces.BracketedExtend | theano/gpuarray/dnn_redux.c:121-189 | Calls after the surgery that neither install a view nor set up the output descriptor keep the surgery bracketed. |
| Traces.DispatchTraceBracketed | theano/gpuarray/dnn_redux.c:104-120 | In a whole call, the output descriptor is set up exactly when the allocations pass, and always between installing the view and restoring the allocator's metadata. Every installed view is followed at once by the setup that uses it and then by the restore, so the view never outlives the setup. |
| Traces.ExecuteTraceReleases | theano/gpuarray/dnn_redux.c:163-181 | In the second half, an obtained workspace is released exactly once, as the last call and right after the reduction; otherwise it is never released. |
| Traces.DispatchTraceReleases | theano/gpuarray/dnn_redux.c:163-187 | The same holds for a whole call, whatever the reduction's outcome. |
| Traces.ExecuteTraceStops | theano/gpuarray/dnn_redux.c:124-187 | The second half ends with the call whose failure it reports, or with the reduction (and release). An unsupported type ends it before the workspace query. |
| Traces.DispatchTraceStops | theano/gpuarray/dnn_redux.c:63-189 | A whole call ends with the call whose failure the verdict reports. A non-contiguous input makes no call at all, and a failed output descriptor returns after the restore. An unsupported type stops before the workspace query. |
| Traces.ExecuteTraceReduces | theano/gpuarray/dnn_redux.c:124-178 | The second half calls the reduction exactly when its earlier checks pass. |
| Traces.DispatchTraceReduces | theano/gpuarray/dnn_redux.c:63-178 | A whole call runs the reduction exactly when its verdict is success or a failed reduction, that is when every earlier check passes. |

## Left out

- The cuDNN and libgpuarray calls (`c_set_tensorNd`, `cudnnSetReduceTensorDescriptor`, `cudnnGetReductionWorkspaceSize`, `gpudata_alloc`, `cudnnReduceTensor`, `gpudata_release`) are foreign code. Each call that can fail is an oracle answer (`gpudata_release` returns nothing and is only recorded). The trace records the arguments the dispatcher computes for each call. It does not record the descriptor handles and device data pointers passed through unchanged: the three descriptors given to `cudnnGetReductionWorkspaceSize` (lines 151-155), and the descriptors and data pointers of the input and output given to `cudnnReduceTensor` (lines 176-178).
- `theano_prep_output` is not part of this model. Its result is modelled as a fresh C-order array of the requested shape; reuse of an existing output array of the right shape is not modelled.
- The numerical reduction (sums, maxima, argmax values), the float values of the static alpha/beta constants, and device memory contents. Only the constants' precision class is modelled.
- Python exception classes and messages. A failure is the check that failed (`Step`). The code raises `ValueError` for a non-contiguous input and `RuntimeError` for an unsupported type and for every reduction-side failure.
- The type check follows the code's order. It comes after the reduction-descriptor setup (lines 124-149), so an unsupported type fails after that device call but before the workspace query.
- Input rank above 8 is excluded by a `requires`. The scratch arrays at lines 50-51 have eight entries, and the descriptor setup rejects higher ranks outside this file.
- The mask test `axis & (1U << i)` is modelled as bit `i` of a number below 2^32. Bits at or above the input rank are ignored, as in the loops.
- Overflow of `size_t` in the element count `indsize` is not modelled; counts are unbounded naturals.
- Contiguity is a flag carried by the input, because libgpuarray computes it.
- The per-instance descriptor creation and destruction (lines 1-35) and asynchronous device-stream ordering.
- The dereference `*((void **)workspace)` at line 174 is modelled only as "a workspace is passed".
