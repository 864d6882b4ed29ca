/** The pooling launcher: `launch_pooling` guards the index width,
    `launch_with_index` picks the vector width from the cascade 4, 2, 1, and
    `launch_with_vector_size` divides the thread count and picks fast
    division before handing everything to `queue_pooling`. */
module PoolingLaunch {
  import opened Config
  import opened Runtime
  import opened PoolingQueue

  /** `can_vectorize<Direction, PoolType>(pp, w)` and
      `can_use_fastdiv<Direction>(pp, w)`, with the pooling parameters `pp` of
      the call already applied. Their definitions are not part of this model,
      so they are arbitrary functions here. */
  datatype PoolingHelpers = PoolingHelpers(
    canVectorize: (Direction, PoolOp, nat) -> bool,
    canUseFastDiv: (Direction, nat) -> bool)

  // ---------------------------------------------------------------------
  // Index-width guard

  /** Index width `w` is compiled in: 32-bit always, 64-bit behind SNN_USE_INT64. */
  predicate Available(w: IndexWidth, useInt64: bool)
  {
    w == Int32 || useInt64
  }

  /** An index of width `w` can count to `n` without wrapping. */
  predicate Represents(w: IndexWidth, n: nat)
  {
    n <= IndexMax(w)
  }

  /** The guard at the head of `launch_pooling`: the index width the kernel
      is instantiated with, or None when the launch must report IndexExceeded.
      It compares the undivided output size against INT32_MAX. */
  function IndexGuard(outputSize: nat, useInt64: bool): (r: Option<IndexWidth>)
    ensures r.Some? ==> Available(r.value, useInt64)
    ensures r.Some? ==> forall w :: Available(w, useInt64) && Represents(w, outputSize) ==>
                          IndexMax(r.value) <= IndexMax(w)
    ensures outputSize <= Int64Max && r.Some? ==> Represents(r.value, outputSize)
    ensures outputSize <= Int64Max ==>
              (r.None? <==> forall w :: Available(w, useInt64) ==> !Represents(w, outputSize))
    ensures outputSize > Int32Max && useInt64 ==> r == Some(Int64)
    ensures !useInt64 ==> (r.None? <==> !Represents(Int32, outputSize))
  {
    if outputSize > Int32Max then
      if useInt64 then Some(Int64) else None
    else
      assert Available(Int32, useInt64) && Represents(Int32, outputSize);
      Some(Int32)
  }

  // ---------------------------------------------------------------------
  // Vector-width cascade

  /** The vector widths `launch_with_index` tries, in order. */
  const VectorCandidates: seq<nat> := [4, 2, 1]

  /** The widths a pooling kernel is instantiated with. */
  predicate IsVectorWidth(w: nat)
  {
    w == 4 || w == 2 || w == 1
  }

  /** The branch `launch_with_index` takes: 4 if `can_vectorize` accepts 4,
      else 2 if it accepts 2, else 1 without asking. */
  function ChooseVectorWidth(h: PoolingHelpers, dir: Direction, op: PoolOp): (w: nat)
    ensures IsVectorWidth(w)
    ensures w != 1 ==> h.canVectorize(dir, op, w)
    ensures w < 4 ==> !h.canVectorize(dir, op, 4)
    ensures w < 2 ==> !h.canVectorize(dir, op, 2)
  {
    if h.canVectorize(dir, op, 4) then 4
    else if h.canVectorize(dir, op, 2) then 2
    else 1
  }

  /** Reference definition of a top-down cascade: the position of the first
      candidate `accept` takes, or |cands| when it takes none. */
  function FirstAccepted(cands: seq<nat>, accept: nat -> bool): (k: nat)
    ensures k <= |cands|
    ensures k < |cands| ==> accept(cands[k])
    ensures forall j :: 0 <= j < k ==> !accept(cands[j])
  {
    if |cands| == 0 then 0
    else if accept(cands[0]) then 0
    else 1 + FirstAccepted(cands[1..], accept)
  }

  /** What the cascade accepts: width 1 unconditionally, any other width when
      `can_vectorize` says so. */
  function Accepts(h: PoolingHelpers, dir: Direction, op: PoolOp): nat -> bool
  {
    (w: nat) => w == 1 || h.canVectorize(dir, op, w)
  }

  /** The if/else chain of `launch_with_index` is the first candidate of
      4, 2, 1 that the cascade accepts, and that candidate always exists. */
  lemma CascadeIsFirstAccepted(h: PoolingHelpers, dir: Direction, op: PoolOp)
    ensures FirstAccepted(VectorCandidates, Accepts(h, dir, op)) < |VectorCandidates|
    ensures ChooseVectorWidth(h, dir, op)
            == VectorCandidates[FirstAccepted(VectorCandidates, Accepts(h, dir, op))]
  {
  }

  /** Width 1 needs no predicate: `can_vectorize(pp, 1)` is never consulted,
      so two helpers that agree on widths 4 and 2 choose the same width. */
  lemma WidthOneIsNeverAsked(h: PoolingHelpers, h': PoolingHelpers, dir: Direction, op: PoolOp)
    requires h.canVectorize(dir, op, 4) == h'.canVectorize(dir, op, 4)
    requires h.canVectorize(dir, op, 2) == h'.canVectorize(dir, op, 2)
    ensures ChooseVectorWidth(h, dir, op) == ChooseVectorWidth(h', dir, op)
  {
  }

  // ---------------------------------------------------------------------
  // Thread count and fast division

  /** `launch_with_vector_size`: each thread handles `w` outputs, so the
      thread count is divided by `w` (integer division, no rounding), and
      fast division is asked for at that same `w`. */
  function LaunchWithVectorSize(q: Queue<PoolingKernel>, dtype: DataType, index: IndexWidth,
                                op: PoolOp, dir: Direction, w: nat, threads: nat,
                                h: PoolingHelpers): (r: LaunchResult<PoolingKernel>)
    requires IsVectorWidth(w)
    ensures r.status.status == OK && SubmittedOnce(q, r)
    ensures r.queue[|q|].range * w <= threads < (r.queue[|q|].range + 1) * w
    ensures r.queue[|q|].kernel
            == PoolingKernel(dtype, index, op, dir, w, h.canUseFastDiv(dir, w))
    ensures r.queue[|q|].bindings == [Binding(Input, Read), Binding(Output, Write)]
  {
    var perThread := threads / w;
    if h.canUseFastDiv(dir, w) then
      QueuePooling(q, PoolingKernel(dtype, index, op, dir, w, true), perThread)
    else
      QueuePooling(q, PoolingKernel(dtype, index, op, dir, w, false), perThread)
  }

  /** `launch_with_index`: the cascade's width, then `launch_with_vector_size`. */
  function LaunchWithIndex(q: Queue<PoolingKernel>, dtype: DataType, index: IndexWidth,
                           op: PoolOp, dir: Direction, threads: nat,
                           h: PoolingHelpers): (r: LaunchResult<PoolingKernel>)
    ensures r.status.status == OK && SubmittedOnce(q, r)
    ensures var k := r.queue[|q|].kernel;
            && k.index == index && k.dtype == dtype && k.op == op && k.dir == dir
            && k.vectorWidth == ChooseVectorWidth(h, dir, op)
            && k.useFastDiv == h.canUseFastDiv(dir, k.vectorWidth)
            && r.queue[|q|].range == threads / k.vectorWidth
    ensures r.queue[|q|].bindings == [Binding(Input, Read), Binding(Output, Write)]
  {
    LaunchWithVectorSize(q, dtype, index, op, dir, ChooseVectorWidth(h, dir, op), threads, h)
  }

  // ---------------------------------------------------------------------
  // Instantiation table and the entry point

  /** The (operator, direction) pairs `launch_pooling` is instantiated for. */
  const InstantiatedPairs: set<(PoolOp, Direction)> :=
    {(Max, Forward), (MaxWithNan, Forward), (Average, Forward), (Average, Backpropagate)}

  /** The pairs `DisableIfMaxGradient` removes: a max-type operator run backwards. */
  predicate IsMaxGradient(op: PoolOp, dir: Direction)
  {
    (op == Max || op == MaxWithNan) && dir == Backpropagate
  }

  /** The instantiation table holds exactly the pairs that are not max gradients. */
  lemma InstantiatedIffNotMaxGradient(op: PoolOp, dir: Direction)
    ensures (op, dir) in InstantiatedPairs <==> !IsMaxGradient(op, dir)
  {
  }

  /** A `launch_pooling` symbol exists for this element type and pair. */
  predicate Instantiated(b: Build, dtype: DataType, op: PoolOp, dir: Direction)
  {
    TypeEnabled(b, dtype) && (op, dir) in InstantiatedPairs
  }

  /** `launch_pooling`: the index guard, then `launch_with_index` on the
      undivided output size. */
  function LaunchPooling(q: Queue<PoolingKernel>, b: Build, dtype: DataType, op: PoolOp,
                         dir: Direction, outputSize: nat, h: PoolingHelpers)
    : (r: LaunchResult<PoolingKernel>)
    requires Instantiated(b, dtype, op, dir)
    ensures r.status.status == IndexExceeded <==> outputSize > Int32Max && !b.useInt64
    ensures r.status.status == IndexExceeded ==> NothingSubmitted(q, r)
    ensures r.status.status == OK ==> SubmittedOnce(q, r)
    ensures r.status.status == OK ==>
              var k := r.queue[|q|].kernel;
              && (outputSize <= Int32Max ==> k.index == Int32)
              && (outputSize > Int32Max ==> k.index == Int64)
              && k.dtype == dtype && k.op == op && k.dir == dir
              && k.vectorWidth == ChooseVectorWidth(h, dir, op)
              && k.useFastDiv == h.canUseFastDiv(dir, k.vectorWidth)
              && r.queue[|q|].range == outputSize / k.vectorWidth
              && r.queue[|q|].bindings == [Binding(Input, Read), Binding(Output, Write)]
  {
    match IndexGuard(outputSize, b.useInt64)
    case None => LaunchResult(SNNStatus(None, IndexExceeded), q)
    case Some(index) => LaunchWithIndex(q, dtype, index, op, dir, outputSize, h)
  }

  /** The guard looks at the size before the vector width divides it: a size
      above INT32_MAX is widened or rejected even when size / width would fit. */
  lemma OverflowCheckedBeforeDivision(q: Queue<PoolingKernel>, b: Build, dtype: DataType,
                                      op: PoolOp, dir: Direction, outputSize: nat,
                                      h: PoolingHelpers)
    requires Instantiated(b, dtype, op, dir)
    requires outputSize > Int32Max
    requires outputSize / ChooseVectorWidth(h, dir, op) <= Int32Max
    ensures var r := LaunchPooling(q, b, dtype, op, dir, outputSize, h);
            if b.useInt64 then r.status.status == OK && r.queue[|q|].kernel.index == Int64
            else r.status.status == IndexExceeded && r.queue == q
  {
  }

  /** A forward max pool producing 1000 values whose helpers reject width 4
      but accept width 2: 32-bit index, width 2, and a range of exactly 500
      threads, with no work-group rounding. */
  lemma ForwardMaxPoolScenario(q: Queue<PoolingKernel>, b: Build, h: PoolingHelpers)
    requires !h.canVectorize(Forward, Max, 4) && h.canVectorize(Forward, Max, 2)
    ensures var r := LaunchPooling(q, b, Float, Max, Forward, 1000, h);
            && r.status.status == OK
            && r.queue[|q|].kernel.index == Int32
            && r.queue[|q|].kernel.vectorWidth == 2
            && r.queue[|q|].range == 500
  {
  }
}
