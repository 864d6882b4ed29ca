/** The direct-convolution launcher `queue_direct_kernel`: it works out how
    many threads the convolution type needs, rounds that up to a multiple of
    the device's maximum work-group size, and submits one `DirectConv2D`
    kernel over the rounded range. */
module DirectConv {
  import opened Config
  import opened Runtime

  /** The convolution types (`conv_type::…`). */
  datatype ConvType = Forward | InputBackprop | FilterBackprop

  /** The data layouts the direct kernels are written for. */
  datatype Layout = NCHW | NHWC

  /** The template arguments `DirectConv2D<T, Index, ConvType, UseFastDiv,
      Window, Stride, VectorWidth, Layout>` is instantiated with. */
  datatype DirectKernel = DirectKernel(
    dtype: DataType,
    index: IndexWidth,
    conv: ConvType,
    useFastDiv: bool,
    window: nat,
    stride: nat,
    vectorWidth: nat,
    layout: Layout)

  /** `calculate_required_threads`: an input-backprop thread owns one output
      element; every other thread produces `vectorWidth` outputs, so the
      count is the output size divided by the width, rounded down. */
  function RequiredThreads(conv: ConvType, vectorWidth: nat, outputSize: nat): (r: nat)
    requires vectorWidth > 0
    ensures conv == InputBackprop ==> r == outputSize
    ensures conv != InputBackprop ==> r * vectorWidth <= outputSize < (r + 1) * vectorWidth
  {
    if conv == InputBackprop then outputSize else outputSize / vectorWidth
  }

  /** With a vector width of 1 every convolution type needs one thread per
      output element. */
  lemma UnitWidthNeedsOneThreadPerOutput(conv: ConvType, outputSize: nat)
    ensures RequiredThreads(conv, 1, outputSize) == outputSize
  {
  }

  /** `helpers::round_up_to_nearest_multiple`, whose body is not part of this
      model: the multiple of `multiple` that is at least `value` and less than
      `multiple` above it (unique, see RoundUpIsLeast). */
  function RoundUpToNearestMultiple(value: nat, multiple: nat): (r: nat)
    requires multiple > 0
    ensures r >= value
    ensures r % multiple == 0
    ensures r - value < multiple
  {
    var rem := value % multiple;
    if rem == 0 then value
    else
      var r := (value / multiple + 1) * multiple;
      MultipleHasNoRemainder(value / multiple + 1, multiple);
      r
  }

  /** `c * k` leaves no remainder modulo `k`. */
  lemma MultipleHasNoRemainder(c: nat, k: nat)
    requires k > 0
    ensures (c * k) % k == 0
  {
    DivModUnique(c * k, k, c, 0);
  }

  /** Quotient and remainder are the only pair with `x == q * k + r` and
      `0 <= r < k`. */
  lemma DivModUnique(x: int, k: int, q: int, r: int)
    requires k > 0 && 0 <= r < k && x == q * k + r
    ensures x / k == q && x % k == r
  {
    var q', r' := x / k, x % k;
    assert x == q' * k + r';
    assert (q - q') * k == r' - r;
    SmallMultipleIsZero(q - q', k, r' - r);
  }

  /** A multiple of `k` strictly between `-k` and `k` is zero. */
  lemma SmallMultipleIsZero(t: int, k: int, d: int)
    requires k > 0 && t * k == d && -k < d < k
    ensures t == 0
  {
  }

  /** Multiplying by a natural number preserves order. */
  lemma MultiplyMonotone(i: nat, j: nat, k: nat)
    requires i <= j
    ensures i * k <= j * k
  {
  }

  /** The rounded value is the smallest multiple that is at least `value`. */
  lemma RoundUpIsLeast(value: nat, multiple: nat, m: nat)
    requires multiple > 0
    requires m >= value && m % multiple == 0
    ensures RoundUpToNearestMultiple(value, multiple) <= m
  {
    var j := m / multiple;
    DivModUnique(m, multiple, j, 0);
    var c := value / multiple;
    DivModUnique(value, multiple, c, value % multiple);
    if value % multiple != 0 {
      // c * multiple < value <= j * multiple, so c + 1 <= j.
      if c >= j {
        MultiplyMonotone(j, c, multiple);
        assert false;
      }
      MultiplyMonotone(c + 1, j, multiple);
    }
  }

  /** The accessors a direct convolution binds: input and filter read-only,
      output write-only. */
  const DirectBindings: seq<Binding> :=
    [Binding(Input, Read), Binding(Filter, Read), Binding(Output, Write)]

  /** `queue_direct_kernel`: exactly one submission over the required thread
      count rounded up to the work-group size, and `{event, OK}`.
      `outputSize` has the kernel's `Index` type; `workgroupSize` is the
      device's `max_work_group_size`, which is always positive. */
  function QueueDirectKernel(q: Queue<DirectKernel>, k: DirectKernel, outputSize: nat,
                             workgroupSize: nat): (r: LaunchResult<DirectKernel>)
    requires k.vectorWidth > 0 && workgroupSize > 0
    requires outputSize <= IndexMax(k.index)
    ensures r.status.status == OK && SubmittedOnce(q, r)
    ensures r.queue[|q|].kernel == k
    ensures r.queue[|q|].bindings == DirectBindings
    ensures var required := RequiredThreads(k.conv, k.vectorWidth, outputSize);
            && r.queue[|q|].range >= required
            && r.queue[|q|].range % workgroupSize == 0
            && r.queue[|q|].range - required < workgroupSize
  {
    var required := RequiredThreads(k.conv, k.vectorWidth, outputSize);
    var nThreads := RoundUpToNearestMultiple(required, workgroupSize);
    var (q', e) := Submit(q, Submission(k, nThreads, DirectBindings));
    LaunchResult(SNNStatus(Some(e), OK), q')
  }

  /** The launched range is the smallest work-group multiple covering every
      required thread. */
  lemma LaunchRangeIsLeastCover(q: Queue<DirectKernel>, k: DirectKernel, outputSize: nat,
                                workgroupSize: nat, m: nat)
    requires k.vectorWidth > 0 && workgroupSize > 0
    requires outputSize <= IndexMax(k.index)
    requires m >= RequiredThreads(k.conv, k.vectorWidth, outputSize) && m % workgroupSize == 0
    ensures QueueDirectKernel(q, k, outputSize, workgroupSize).queue[|q|].range <= m
  {
    RoundUpIsLeast(RequiredThreads(k.conv, k.vectorWidth, outputSize), workgroupSize, m);
  }

  /** A forward convolution of 1000 outputs at width 2 needs 500 threads and,
      with work-groups of 16, launches 512; input backprop at the same width
      needs all 1000 and launches 1008. */
  lemma DirectLaunchScenario(q: Queue<DirectKernel>, k: DirectKernel)
    requires k.vectorWidth == 2 && k.conv != InputBackprop
    ensures QueueDirectKernel(q, k, 1000, 16).queue[|q|].range == 512
    ensures QueueDirectKernel(q, k.(conv := InputBackprop), 1000, 16).queue[|q|].range == 1008
  {
  }

  /** The rounded range is a mathematical count: at a 32-bit index, input
      backprop over INT32_MAX outputs with work-groups of 1024 rounds to 2^31,
      which the `Index` type itself cannot hold. */
  lemma RangeCanExceedIndex(q: Queue<DirectKernel>, k: DirectKernel)
    requires k.index == Int32 && k.conv == InputBackprop && k.vectorWidth > 0
    ensures QueueDirectKernel(q, k, Int32Max, 1024).queue[|q|].range == Int32Max + 1
    ensures QueueDirectKernel(q, k, Int32Max, 1024).queue[|q|].range > IndexMax(k.index)
  {
  }
}
