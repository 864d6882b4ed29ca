# SYCL-DNN launch dispatch, modelled in Dafny

This project models the kernel specialisation and launch-dispatch layer of
SYCL-DNN, in two places:

- **Pooling.** `launch_pooling` first guards the index width. An output size
  above `INT32_MAX` gets a 64-bit index when `SNN_USE_INT64` is compiled in.
  Without that flag it gets `IndexExceeded` and nothing is submitted.
  `launch_with_index` then picks the vector width from the cascade 4, 2, 1.
  `launch_with_vector_size` divides the thread count by that width and asks
  `can_use_fastdiv` at the same width. `queue_pooling` submits one
  `PoolingOp` kernel over exactly that many threads.
- **Direct convolution.** `queue_direct_kernel` computes the required thread
  count. That is the output size for `InputBackprop`, and the output size
  divided by the vector width otherwise. It rounds the count up to a multiple
  of the device's maximum work-group size and submits one `DirectConv2D`
  kernel over the rounded range.

How the model is built:

- **Queue.** The compute queue is a log of submissions (`Runtime.Queue`).
  Each submission records the kernel's specialisation (its template
  arguments), the one-dimensional launch range and the accessors it binds.
  An event is the position of its submission in the log.
- **Launchers.** Every launcher is a pure function from the queue before the
  call to an `SNNStatus` plus the queue after the call. That makes "exactly
  one submission" and "no submission" statements about the log.
- **Unseen helpers.** `can_vectorize`, `can_use_fastdiv` and `get_sizes` have
  no definitions in this model. They are parameters: arbitrary function
  values in `PoolingLaunch.PoolingHelpers`, and the output size as a natural
  number.
- **Rounding helper.** `helpers::round_up_to_nearest_multiple` is not part of
  this model either. It is defined as the one function its name describes:
  the least multiple that is not below the value. `DirectConv.RoundUpIsLeast`
  proves that it is the least one.

Modules:

- `Runtime`: the queue, events, status and accessor bindings.
- `Config`: index widths, element types and build flags.
- `PoolingQueue`: `queue_pooling`.
- `PoolingLaunch`: `launch_pooling` and its helpers.
- `DirectConv`: `queue_direct_kernel`.

Two behaviours of the code are worth stating explicitly:

- **No rounding in pooling.** `queue_pooling` launches `range<1>{threads}`
  with the divided count as it is. There is no work-group rounding on the
  pooling path. A pooling launch of 1000 outputs at width 2 launches exactly
  500 threads (`PoolingLaunch.ForwardMaxPoolScenario`). Only
  `queue_direct_kernel` rounds up to a work-group multiple.
- **No upper bound with 64-bit indexing.** With `SNN_USE_INT64`, the guard
  picks the 64-bit index for every size above `INT32_MAX`. That includes
  `size_t` sizes above `INT64_MAX`, which a 64-bit index cannot hold.
  `PoolingLaunch.IndexGuard` states this as written. It promises the chosen
  width represents the size only for sizes up to `INT64_MAX`. Without
  `SNN_USE_INT64`, every size above `INT32_MAX` is rejected.

## Model

| member | source | states |
|---|---|---|
| PoolingQueue.QueuePooling | src/pooling/queue_pooling_kernel_impl.h:36-49 | Always returns OK with the event of exactly one new submission; earlier queue entries are untouched; the kernel carries exactly the (T, Index, PoolType, Direction, VectorWidth, UseFastDiv) it was called with; the range equals `threads` with no work-group rounding; only the input (read) and the output (write) are bound |
| PoolingLaunch.IndexGuard | src/pooling/launch_pooling.cc:76-88 | The chosen index width is compiled in and is the narrowest compiled-in width that represents the size; without 64-bit support the result is absent exactly when the size exceeds INT32_MAX, whatever its magnitude; for sizes up to INT64_MAX the chosen width represents the size, and it is absent exactly when no compiled-in width does; above INT32_MAX with 64-bit support it is always the 64-bit width |
| PoolingLaunch.ChooseVectorWidth | src/pooling/launch_pooling.cc:59-68 | The width is 4, 2 or 1; a width above 1 is one `can_vectorize` accepted; every larger candidate was rejected |
| PoolingLaunch.CascadeIsFirstAccepted | src/pooling/launch_pooling.cc:59-68 | The if/else chain equals the first of 4, 2, 1 accepted by a top-down search in which width 1 is always accepted, and that search always finds a width |
| PoolingLaunch.WidthOneIsNeverAsked | src/pooling/launch_pooling.cc:65-67 | Width 1 is reached with no predicate: any two helpers that agree at widths 4 and 2 choose the same width, whatever they answer at width 1 |
| PoolingLaunch.LaunchWithVectorSize | src/pooling/launch_pooling.cc:40-52 | Exactly one OK submission whose thread count t satisfies t·w ≤ threads < (t+1)·w (integer division by the width, no rounding), whose fast-division flag is `can_use_fastdiv` at that same width, and whose other template arguments are passed through |
| PoolingLaunch.LaunchWithIndex | src/pooling/launch_pooling.cc:54-69 | Exactly one OK submission at the given index width, with the cascade's width (`ChooseVectorWidth`), a thread count of `threads / width`, fast division evaluated at that width, and the input bound for reading and the output for writing |
| PoolingLaunch.InstantiatedIffNotMaxGradient | src/pooling/launch_pooling.cc:97-101 | The instantiation table holds exactly Max/Forward, MaxWithNan/Forward, Average/Forward and Average/Backpropagate: every pair except a max-type operator run backwards (the pairs `DisableIfMaxGradient` on line 72 removes) |
| PoolingLaunch.LaunchPooling | src/pooling/launch_pooling.cc:71-89 | IndexExceeded exactly when the size exceeds INT32_MAX without 64-bit support, and then the queue is unchanged and no event is returned; otherwise exactly one submission with a 32-bit index for sizes up to INT32_MAX and a 64-bit index above, the cascade's width, the thread count `size / width`, fast division at that width, input read and output write |
| PoolingLaunch.OverflowCheckedBeforeDivision | src/pooling/launch_pooling.cc:76-84 | A size above INT32_MAX is widened or rejected even when size divided by the chosen vector width would fit in 32 bits |
| PoolingLaunch.ForwardMaxPoolScenario | src/pooling/launch_pooling.cc:44-51 | A forward max pool of 1000 outputs whose helpers reject 4 and accept 2 launches with a 32-bit index, width 2 and exactly 500 threads |
| DirectConv.RequiredThreads | src/conv2d/direct/queue_direct_kernel_impl.h:32-39 | InputBackprop needs one thread per output whatever the width; every other type needs t threads with t·w ≤ outputs < (t+1)·w |
| DirectConv.UnitWidthNeedsOneThreadPerOutput | src/conv2d/direct/queue_direct_kernel_impl.h:32-39 | With vector width 1 every convolution type needs exactly one thread per output |
| DirectConv.RoundUpToNearestMultiple | src/conv2d/direct/queue_direct_kernel_impl.h:55-56 | The result is at least the value, a multiple of the work-group size, and less than one work-group above the value |
| DirectConv.RoundUpIsLeast | src/conv2d/direct/queue_direct_kernel_impl.h:55-56 | No multiple of the work-group size that is at least the value lies below the rounded result |
| DirectConv.QueueDirectKernel | src/conv2d/direct/queue_direct_kernel_impl.h:43-68 | Always OK with the event of exactly one new submission; the kernel carries exactly its template arguments; the range covers the required threads, is a multiple of the work-group size and exceeds the requirement by less than one work-group; input and filter are bound read-only and output write-only |
| DirectConv.LaunchRangeIsLeastCover | src/conv2d/direct/queue_direct_kernel_impl.h:53-56 | The launched range is the smallest work-group multiple covering the required threads |
| DirectConv.RangeCanExceedIndex | src/conv2d/direct/queue_direct_kernel_impl.h:51-56 | A 32-bit InputBackprop launch of INT32_MAX outputs with work-groups of 1024 rounds to 2^31 threads, one more than a 32-bit `Index` can hold |
| DirectConv.DirectLaunchScenario | src/conv2d/direct/queue_direct_kernel_impl.h:53-65 | 1000 outputs at width 2 with work-groups of 16: 512 threads for forward or filter backprop, 1008 for input backprop |

## Left out

- Kernel bodies (`PoolingOp`, `DirectConv2D`) and the SYCL runtime are not modelled. That covers command-group handlers, accessor objects, event completion, `wait_and_throw` and asynchronous device errors. Device execution and floating-point numerics are outside this layer. A submission is an abstract record.
- `can_vectorize`, `can_use_fastdiv` and `get_sizes` are not part of this model. They are left abstract as parameters, so every property holds whatever they answer; no divisibility rule is assumed for them.
- `helpers::round_up_to_nearest_multiple` is not part of this model. It is replaced by the unique least-multiple function its name describes.
- The contents of `PoolingParams` and `Conv2DParams` are not modelled. The launchers only forward them to the kernel constructors and to the unseen helpers.
- The conversion of `max_work_group_size` into the `Index` type is not modelled. Counts are unbounded naturals. The direct-convolution output size is required to fit its `Index` type, and the work-group size is required to be positive, as the device guarantees.
- DirectConv.QueueDirectKernel: the launched range is an unbounded natural and can exceed the kernel's `Index` range. For example, a 32-bit index, `InputBackprop`, `INT32_MAX` outputs and a work-group size of 1024 give a range of 2^31 (`DirectConv.RangeCanExceedIndex`). The source rounds values typed `Index` (src/conv2d/direct/queue_direct_kernel_impl.h:51-56). So `range - required < workgroupSize` and the other range facts hold for mathematical integers, not necessarily at the `Index` width.
- `src/reduce/launch_reduction.cc` is not modelled. It forwards to `queue_kernel` with an `int` index and has no decision logic. `queue_kernel` is not part of this model.
- The declaration-only headers are not modelled: `src/pooling/queue_pooling_kernel.h`, `src/conv2d/im2col/queue_filter_transform.h`, `src/transpose/queue_kernel.h` and `include/sycldnn/internal/reduce/launch.h`. They contain no behaviour.
- Tests, fixtures, samples and the test generator are not modelled. They are harnesses over float comparisons and device I/O.
- Element types appear only as an opaque tag (`Config.DataType`) with their feature flags. Nothing in the dispatch depends on them.
- The max-gradient pairs (Max or MaxWithNan with Backpropagate) are removed from `launch_pooling` at compile time by its `DisableIfMaxGradient` template parameter (src/pooling/launch_pooling.cc:71-72). An element type whose feature flag is off (half or double) has no instantiation, so a call for it fails at link time. The model does not distinguish the two failures. Both become the precondition `PoolingLaunch.Instantiated`.
