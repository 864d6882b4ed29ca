/** The terminal step of the pooling path: `queue_pooling` submits one
    `PoolingOp` kernel, fully specialised by its template arguments, over
    exactly the number of threads it is given. */
module PoolingQueue {
  import opened Config
  import opened Runtime

  /** The pooling operators (`PoolType`). */
  datatype PoolOp = Max | MaxWithNan | Average

  /** The pooling directions. */
  datatype Direction = Forward | Backpropagate

  /** The template arguments `PoolingOp<T, Index, PoolType, Direction,
      VectorWidth, UseFastDiv>` is instantiated with. */
  datatype PoolingKernel = PoolingKernel(
    dtype: DataType,
    index: IndexWidth,
    op: PoolOp,
    dir: Direction,
    vectorWidth: nat,
    useFastDiv: bool)

  /** `queue_pooling`: one submission over `range<1>{threads}` binding the
      input for reading and the output for writing, then `{event, OK}`. */
  function QueuePooling(q: Queue<PoolingKernel>, k: PoolingKernel, threads: nat)
    : (r: LaunchResult<PoolingKernel>)
    ensures r.status.status == OK
    ensures SubmittedOnce(q, r)
    ensures r.queue[|q|].kernel == k
    ensures r.queue[|q|].range == threads
    ensures r.queue[|q|].bindings == [Binding(Input, Read), Binding(Output, Write)]
  {
    var (q', e) := Submit(q, Submission(k, threads, [Binding(Input, Read), Binding(Output, Write)]));
    LaunchResult(SNNStatus(Some(e), OK), q')
  }
}
