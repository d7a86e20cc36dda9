/** The asynchronous sink as a labelled transition system.

    Any number of producers run `enqueue`, one closer runs the body of `Close`
    (guarded by sync.Once), and one worker runs `run`. Every label is one atomic
    operation on shared memory: a channel operation, a lock operation, an atomic
    load, store or add. A worker step that only touches worker-local variables is
    folded into the shared operation next to it.

    httpsink, elastic and lokisink share this protocol. They differ in how a batch becomes
    a payload, which here is the `Marshal` step, and in what may fail: elastic decodes the
    answer's body, and wraps a cancellation met there so that nobody sees it any more. */
module SinkProtocol {
  import opened Backoff
  import opened Options

  /** A snapshotted record together with its size estimate. */
  datatype Record = Record(id: int, size: nat)

  /** The fields that steer delivery; durations are nanoseconds. `decodesAnswer` is no setting
      but tells elastic's sink from the other two. */
  datatype Config = Config(
    queueSize: int, batchSize: int, maxRecordBytes: int, maxRetries: int, blockOnQueueFull: bool,
    retryBackoff: int, maxBackoff: int, decodesAnswer: bool)
  {
    predicate Valid() {
      queueSize >= 1 && batchSize >= 1 && maxRetries >= 0 && Durations(retryBackoff, maxBackoff)
    }
  }

  /** normalizeConfig: whatever the caller sets, the running sink has a valid configuration,
      and each setting that is valid by itself is left as it was. */
  function Normalize(c: Config): (r: Config)
    requires c.retryBackoff < TWO_63 && c.maxBackoff < TWO_63
    ensures r.Valid() && r.maxRecordBytes > 0
    ensures c.queueSize > 0 ==> r.queueSize == c.queueSize
    ensures c.batchSize > 0 ==> r.batchSize == c.batchSize
    ensures c.maxRecordBytes > 0 ==> r.maxRecordBytes == c.maxRecordBytes
    ensures c.maxRetries >= 0 ==> r.maxRetries == c.maxRetries
    ensures c.retryBackoff > 0 ==> r.retryBackoff == c.retryBackoff
    ensures c.maxBackoff > 0 ==> r.maxBackoff == c.maxBackoff
    ensures r.blockOnQueueFull == c.blockOnQueueFull && r.decodesAnswer == c.decodesAnswer
  {
    Config(
      if c.queueSize <= 0 then 2048 else c.queueSize,
      if c.batchSize <= 0 then 200 else c.batchSize,
      if c.maxRecordBytes <= 0 then 64 * 1024 else c.maxRecordBytes,
      if c.maxRetries < 0 then 3 else c.maxRetries,
      c.blockOnQueueFull,
      if c.retryBackoff <= 0 then 150_000_000 else c.retryBackoff,
      if c.maxBackoff <= 0 then 2_000_000_000 else c.maxBackoff,
      c.decodesAnswer)
  }

  /** What an empty configuration stands for: durations of 150 milliseconds and two seconds. */
  lemma Defaults(block: bool, decodes: bool)
    ensures Normalize(Config(0, 0, 0, -1, block, 0, 0, decodes))
         == Config(2048, 200, 65536, 3, block, 150_000_000, 2_000_000_000, decodes)
  {
  }

  // ---- errors and contexts ----

  /** What one error in a joined error is. `Rejected` and `Masked` are permanentErrors, the
      second around a cancellation, which its lack of an Unwrap method hides;
      only `Canceled` answers errors.Is(err, context.Canceled). */
  datatype Err = Transient | Rejected | Masked | Canceled | Deadline | Unsendable

  predicate Retryable(e: Err) { e != Rejected && e != Masked }

  datatype Outcome = Accepted | Failed(e: Err)

  /** The sink's own cancellable context, or the one handed to Close. */
  datatype Ctx = OwnCtx | CloseCtx

  // ---- program counters ----

  datatype Why = WasClosed | TooLarge | QueueFull | Stopping

  datatype ProducerPc =
    | Idle
    | Entered(rec: Record)       // read lock held, before closed.Load
    | Admitted(rec: Record)      // closed was false, before the size check
    | Ready(rec: Record)         // at the select on the queue
    | Oversize                   // before oversized.Add
    | Dropping(why: Why)         // before dropped.Add
    | Sent                       // between the channel send and enqueued.Add
    | Leaving(admitted: bool)    // before RUnlock

  datatype CloserPc =
    | NotClosing | CtxStored | ClosedStored | CtxCancelled | StopClosed
    | LockWaiting | LockHeld | EnqueuesDoneClosed | Unlocked

  datatype Writer = Free | Pending | Held

  /** Where `flush` returns to: the main loop, the drain loop, or the end of run. */
  datatype Return = Main | Drain | Exit

  /** One call of ship: who waits for it, first or second shipment, which context. */
  datatype Job = Job(ret: Return, nth: nat, ctx: Ctx)

  datatype WorkerPc =
    | Select
    | PickCtx(ret: Return)                             // shipContext: before closed.Load
    | ReadCloseCtx(ret: Return, nth: nat)              // about to read m.closeCtx
    | Marshal(job: Job)
    | Sending(job: Job, attempt: nat, errs: seq<Err>)
    | Retrying(job: Job, attempt: nat, errs: seq<Err>) // before retried.Add
    | Waiting(job: Job, attempt: nat, errs: seq<Err>)  // inside waitRetry
    | Shipped(job: Job, ok: bool, errs: seq<Err>)      // ship has returned
    | Counting(job: Job, ok: bool, errs: seq<Err>)     // before sent.Add or failed.Add
    | AwaitEnqueuesDone
    | Draining
    | Exiting                                          // before close(done)
    | Exited

  /** What made the worker flush: the batch was full, a tick, or the end of the drain. */
  datatype Cause = Filled | Ticked | Drained

  /** A batch that has been counted, how, and why it was flushed. */
  datatype Shipment = Shipment(records: seq<Record>, ok: bool, why: Cause)

  /** What Close publishes, and the write side of enqueueMu. */
  datatype Gate = Gate(
    closer: CloserPc, writer: Writer, closeCtxSet: bool, closed: bool, cancelled: bool,
    stop: bool, enqueuesDone: bool)

  datatype Stats = Stats(enqueued: nat, dropped: nat, sent: nat, failed: nat, retried: nat, oversized: nat)

  /** Records put on the channel, counted batches, enqueue calls that have returned, calls
      that found their record too large, failed posts that call for another one, and what
      started the latest flush. */
  datatype History = History(
    accepted: seq<Record>, flushed: seq<Shipment>, finished: nat, tooBig: nat, retries: nat, cause: Cause)

  datatype State = State(
    cfg: Config, gate: Gate, stats: Stats, history: History,
    queue: seq<Record>, readers: nat, closeCtxEnd: Option<Err>, done: bool,
    producers: seq<ProducerPc>, worker: WorkerPc, batch: seq<Record>)

  predicate Initial(s: State) {
    && s.cfg.Valid()
    && s.gate == Gate(NotClosing, Free, false, false, false, false, false)
    && s.stats == Stats(0, 0, 0, 0, 0, 0)
    && s.history == History([], [], 0, 0, 0, Ticked)
    && s.queue == [] && s.readers == 0 && !s.done && s.closeCtxEnd == None
    && (forall i | 0 <= i < |s.producers| :: s.producers[i] == Idle)
    && s.worker == Select && s.batch == []
  }

  // ---- labels ----

  datatype ProducerStep =
    | Enter(rec: Record) | LoadClosed | CheckSize | CountOversize | CountDrop
    | Send | SeeStop | SeeFull | CountEnqueue | Leave

  datatype WorkerStep =
    | TakeStop | Receive | Tick | PassEnqueuesDone | DrainEmpty | CloseDone
    | LoadClosedFlag | LoadCloseCtx | BuildPayload(ok: bool) | Post(o: Outcome)
    | CountRetry | Wait(cut: bool) | Decide | Count

  datatype Label =
    | Producer(i: nat, p: ProducerStep)
    | CallClose
    | Closer
    | Worker(w: WorkerStep)
    | EndCloseCtx(e: Err)   // the caller's context is cancelled or times out
    | Stutter

  // ---- producers: enqueue ----

  predicate ProducerEnabled(s: State, i: nat, p: ProducerStep) {
    i < |s.producers| &&
    var pc := s.producers[i];
    match p
    case Enter(_) => pc == Idle && s.gate.writer == Free
    case LoadClosed => pc.Entered?
    case CheckSize => pc.Admitted?
    case CountOversize => pc.Oversize?
    case CountDrop => pc.Dropping?
    case Send => pc.Ready? && |s.queue| < s.cfg.queueSize
    case SeeStop => pc.Ready? && s.cfg.blockOnQueueFull && s.gate.stop
    case SeeFull => pc.Ready? && !s.cfg.blockOnQueueFull && |s.queue| >= s.cfg.queueSize
    case CountEnqueue => pc.Sent?
    case Leave => pc.Leaving?
  }

  function At(s: State, i: nat, pc: ProducerPc): State
    requires i < |s.producers|
  {
    s.(producers := s.producers[i := pc])
  }

  predicate TooBig(c: Config, r: Record) { c.maxRecordBytes > 0 && r.size > c.maxRecordBytes }

  function ProducerApply(s: State, i: nat, p: ProducerStep): State
    requires ProducerEnabled(s, i, p)
  {
    var pc := s.producers[i];
    match p
    case Enter(rec) => At(s, i, Entered(rec)).(readers := s.readers + 1)
    case LoadClosed => At(s, i, if s.gate.closed then Dropping(WasClosed) else Admitted(pc.rec))
    case CheckSize =>
      if TooBig(s.cfg, pc.rec) then At(s, i, Oversize).(history := s.history.(tooBig := s.history.tooBig + 1))
      else At(s, i, Ready(pc.rec))
    case CountOversize => At(s, i, Dropping(TooLarge)).(stats := s.stats.(oversized := s.stats.oversized + 1))
    case CountDrop => At(s, i, Leaving(pc.why != WasClosed)).(stats := s.stats.(dropped := s.stats.dropped + 1))
    case Send =>
      At(s, i, ProducerPc.Sent).(queue := s.queue + [pc.rec],
                                 history := s.history.(accepted := s.history.accepted + [pc.rec]))
    case SeeStop => At(s, i, Dropping(Stopping))
    case SeeFull => At(s, i, Dropping(QueueFull))
    case CountEnqueue => At(s, i, Leaving(true)).(stats := s.stats.(enqueued := s.stats.enqueued + 1))
    case Leave =>
      At(s, i, Idle).(readers := if s.readers > 0 then s.readers - 1 else 0,
                      history := s.history.(finished := s.history.finished + 1))
  }

  // ---- closer: the body of once.Do in Close ----

  predicate CloserEnabled(s: State) {
    match s.gate.closer
    case NotClosing => false
    case LockWaiting => s.readers == 0
    case Unlocked => false
    case _ => true
  }

  function CloserApply(s: State): State
    requires CloserEnabled(s)
  {
    match s.gate.closer
    case CtxStored => s.(gate := s.gate.(closer := ClosedStored, closed := true))
    case ClosedStored => s.(gate := s.gate.(closer := CtxCancelled, cancelled := true))
    case CtxCancelled => s.(gate := s.gate.(closer := StopClosed, stop := true))
    case StopClosed => s.(gate := s.gate.(closer := LockWaiting, writer := Pending))
    case LockWaiting => s.(gate := s.gate.(closer := LockHeld, writer := Held))
    case LockHeld => s.(gate := s.gate.(closer := EnqueuesDoneClosed, enqueuesDone := true))
    case EnqueuesDoneClosed => s.(gate := s.gate.(closer := Unlocked, writer := Free))
  }

  // ---- worker: run, flush, ship ----

  function CtxErr(s: State, c: Ctx): Option<Err> {
    match c
    case OwnCtx => if s.gate.cancelled then Some(Canceled) else None
    case CloseCtx => s.closeCtxEnd
  }

  /** A transport answers context.Canceled only when its request's context was cancelled; the
      body of an answer is broken off by a cancellation only then, and only where it is read. */
  predicate MayFail(s: State, c: Ctx, e: Err) {
    && e != Unsendable
    && (e == Canceled || e == Masked ==> CtxErr(s, c) == Some(Canceled))
    && (e == Masked ==> s.cfg.decodesAnswer)
  }

  predicate WorkerEnabled(s: State, w: WorkerStep) {
    match w
    case TakeStop => s.worker == Select && s.gate.stop
    case Receive => (s.worker == Select || s.worker == Draining) && |s.queue| > 0
    case Tick => s.worker == Select
    case PassEnqueuesDone => s.worker == AwaitEnqueuesDone && s.gate.enqueuesDone
    case DrainEmpty => s.worker == Draining && s.queue == []
    case CloseDone => s.worker == Exiting
    case LoadClosedFlag => s.worker.PickCtx?
    case LoadCloseCtx => s.worker.ReadCloseCtx?
    case BuildPayload(_) => s.worker.Marshal?
    case Post(o) => s.worker.Sending? && (o.Failed? ==> MayFail(s, s.worker.job.ctx, o.e))
    case CountRetry => s.worker.Retrying?
    case Wait(cut) => s.worker.Waiting? && (cut ==> CtxErr(s, s.worker.job.ctx).Some?)
    case Decide => s.worker.Shipped?
    case Count => s.worker.Counting?
  }

  /** flush does nothing on an empty batch. */
  function StartFlush(batch: seq<Record>, ret: Return): WorkerPc {
    if batch == [] then Back(ret) else PickCtx(ret)
  }

  function Back(ret: Return): WorkerPc {
    match ret case Main => Select case Drain => Draining case Exit => Exiting
  }

  function AfterPost(c: Config, pc: WorkerPc, o: Outcome): WorkerPc
    requires pc.Sending?
  {
    match o
    case Accepted => Shipped(pc.job, true, pc.errs)
    case Failed(e) =>
      var errs := pc.errs + [e];
      if pc.attempt == c.maxRetries || !Retryable(e) then Shipped(pc.job, false, errs)
      else Retrying(pc.job, pc.attempt, errs)
  }

  function WorkerApply(s: State, w: WorkerStep): State
    requires WorkerEnabled(s, w)
  {
    match w
    case TakeStop => s.(worker := AwaitEnqueuesDone)
    case Receive =>
      var batch := s.batch + [s.queue[0]];
      var s' := s.(queue := s.queue[1..], batch := batch);
      if |batch| >= s.cfg.batchSize
      then s'.(worker := StartFlush(batch, if s.worker == Select then Main else Drain),
               history := s.history.(cause := Filled))
      else s'
    case Tick => s.(worker := StartFlush(s.batch, Main), history := s.history.(cause := Ticked))
    case PassEnqueuesDone => s.(worker := Draining)
    case DrainEmpty => s.(worker := StartFlush(s.batch, Exit), history := s.history.(cause := Drained))
    case CloseDone => s.(worker := Exited, done := true)
    case LoadClosedFlag =>
      s.(worker := if s.gate.closed then ReadCloseCtx(s.worker.ret, 1) else Marshal(Job(s.worker.ret, 1, OwnCtx)))
    case LoadCloseCtx => s.(worker := Marshal(Job(s.worker.ret, s.worker.nth, CloseCtx)))
    case BuildPayload(ok) =>
      s.(worker := if ok then Sending(s.worker.job, 0, []) else Shipped(s.worker.job, false, [Unsendable]))
    case Post(o) =>
      var pc := AfterPost(s.cfg, s.worker, o);
      s.(worker := pc, history := s.history.(retries := s.history.retries + if pc.Retrying? then 1 else 0))
    case CountRetry =>
      s.(worker := Waiting(s.worker.job, s.worker.attempt, s.worker.errs), stats := s.stats.(retried := s.stats.retried + 1))
    case Wait(cut) =>
      var pc := s.worker;
      s.(worker := if cut then Shipped(pc.job, false, pc.errs + [CtxErr(s, pc.job.ctx).value])
                   else Sending(pc.job, pc.attempt + 1, pc.errs))
    case Decide =>
      var pc := s.worker;
      s.(worker := if !pc.ok && Canceled in pc.errs && pc.job.nth == 1 && s.gate.closed
                   then ReadCloseCtx(pc.job.ret, 2) else Counting(pc.job, pc.ok, pc.errs))
    case Count =>
      var pc := s.worker;
      s.(stats := if pc.ok then s.stats.(sent := s.stats.sent + |s.batch|)
                  else s.stats.(failed := s.stats.failed + |s.batch|),
         history := s.history.(flushed := s.history.flushed + [Shipment(s.batch, pc.ok, s.history.cause)]),
         batch := [], worker := Back(pc.job.ret))
  }

  // ---- the whole system ----

  predicate Enabled(s: State, l: Label) {
    match l
    case Producer(i, p) => ProducerEnabled(s, i, p)
    case CallClose => s.gate.closer == NotClosing
    case Closer => CloserEnabled(s)
    case Worker(w) => WorkerEnabled(s, w)
    case EndCloseCtx(e) => s.closeCtxEnd == None && (e == Canceled || e == Deadline)
    case Stutter => true
  }

  function Apply(s: State, l: Label): State
    requires Enabled(s, l)
  {
    match l
    case Producer(i, p) => ProducerApply(s, i, p)
    case CallClose => s.(gate := s.gate.(closer := CtxStored, closeCtxSet := true))
    case Closer => CloserApply(s)
    case Worker(w) => WorkerApply(s, w)
    case EndCloseCtx(e) => s.(closeCtxEnd := Some(e))
    case Stutter => s
  }

  predicate Next(s: State, l: Label, s': State) { Enabled(s, l) && s' == Apply(s, l) }

  ghost predicate StepOf(t: seq<State>, ls: seq<Label>, i: nat)
    requires i < |ls| && i + 1 < |t|
  {
    Next(t[i], ls[i], t[i + 1])
  }

  /** `t` is the sequence of states of one interleaving, `ls` the steps between them. */
  ghost predicate Behavior(t: seq<State>, ls: seq<Label>) {
    |t| == |ls| + 1 && forall i: nat | i < |ls| :: StepOf(t, ls, i)
  }

  /** Some interleaving of some length leads from an initial state to `s`. */
  ghost predicate Reachable(s: State) {
    exists t, ls :: Behavior(t, ls) && Initial(t[0]) && t[|ls|] == s
  }
}
