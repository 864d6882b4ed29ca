/** The slice of the SYCL runtime the dispatch layer touches: a compute queue
    that records kernel submissions, the completion handle (event) handed back
    for each one, and the SNNStatus a launcher returns.

    The queue is modelled as the log of everything submitted to it so far; an
    event is the position of its submission in that log. Device execution, the
    kernel bodies and asynchronous errors are outside this model. */
module Runtime {

  datatype Option<+T> = None | Some(value: T)

  /** The status codes the launchers of this layer can produce. */
  datatype StatusCode = OK | IndexExceeded

  /** A completion handle: the index of its submission in the queue's log. */
  datatype Event = Event(id: nat)

  /** What every launcher returns: an optional event and a status code.
      A launch rejected before submission carries no event. */
  datatype SNNStatus = SNNStatus(event: Option<Event>, status: StatusCode)

  datatype AccessMode = Read | Write

  /** The memory objects a kernel can be bound to. */
  datatype Buffer = Input | Filter | Output

  /** One accessor requested inside a command group. */
  datatype Binding = Binding(buffer: Buffer, mode: AccessMode)

  /** One `parallel_for` submitted through `queue.submit`: the specialised
      kernel, the one-dimensional launch range and the accessors it binds. */
  datatype Submission<K> = Submission(kernel: K, range: nat, bindings: seq<Binding>)

  type Queue<K> = seq<Submission<K>>

  /** The status a launcher returns, together with the queue after the call. */
  datatype LaunchResult<K> = LaunchResult(status: SNNStatus, queue: Queue<K>)

  /** `queue.submit`: the command group goes to the back of the queue and its
      event names exactly that entry. */
  function Submit<K>(q: Queue<K>, s: Submission<K>): (r: (Queue<K>, Event))
    ensures |r.0| == |q| + 1 && r.0[..|q|] == q
    ensures r.1.id < |r.0| && r.0[r.1.id] == s
  {
    (q + [s], Event(|q|))
  }

  /** `after` is `before` with exactly one submission appended, and the
      returned event names that submission. */
  predicate SubmittedOnce<K(==)>(before: Queue<K>, after: LaunchResult<K>)
  {
    && |after.queue| == |before| + 1
    && after.queue[..|before|] == before
    && after.status.event == Some(Event(|before|))
  }

  /** Nothing was submitted and no event was produced. */
  predicate NothingSubmitted<K(==)>(before: Queue<K>, after: LaunchResult<K>)
  {
    after.queue == before && after.status.event == None
  }
}
