/** The inductive invariant of the sink protocol, kept by every atomic step. */
module SinkInvariant {
  import opened Options
  import opened SinkProtocol

  // ---- counting producers by program counter ----

  function SumBy(w: ProducerPc -> nat, ps: seq<ProducerPc>): nat {
    if ps == [] then 0 else w(ps[0]) + SumBy(w, ps[1..])
  }

  lemma {:induction false} SumUpdate(w: ProducerPc -> nat, ps: seq<ProducerPc>, i: nat, pc: ProducerPc)
    requires i < |ps|
    ensures SumBy(w, ps[i := pc]) + w(ps[i]) == SumBy(w, ps) + w(pc)
  {
    if i == 0 {
      assert ps[i := pc][1..] == ps[1..];
    } else {
      assert ps[i := pc][1..] == ps[1..][i - 1 := pc];
      SumUpdate(w, ps[1..], i - 1, pc);
    }
  }

  lemma {:induction false} SumZero(w: ProducerPc -> nat, ps: seq<ProducerPc>)
    ensures SumBy(w, ps) == 0 <==> forall i | 0 <= i < |ps| :: w(ps[i]) == 0
  {
    if ps != [] {
      SumZero(w, ps[1..]);
      assert forall i | 1 <= i < |ps| :: ps[i] == ps[1..][i - 1];
      if forall i | 0 <= i < |ps| :: w(ps[i]) == 0 {
        assert forall i | 0 <= i < |ps[1..]| :: ps[1..][i] == ps[i + 1];
      }
    }
  }

  function Inside(pc: ProducerPc): nat { if pc == Idle then 0 else 1 }
  function Uncounted(pc: ProducerPc): nat { if pc.Sent? then 1 else 0 }
  function Counted(pc: ProducerPc): nat { if pc.Leaving? then 1 else 0 }
  function OversizeOwed(pc: ProducerPc): nat { if pc == Dropping(TooLarge) then 1 else 0 }

  /** This producer read closed == false in the call it is in. */
  predicate IsAdmitted(pc: ProducerPc) {
    pc.Admitted? || pc.Ready? || pc.Oversize? || pc.Sent? || (pc.Dropping? && pc.why != WasClosed)
    || pc == Leaving(true)
  }

  // ---- histories ----

  function Records(f: seq<Shipment>): seq<Record> {
    if f == [] then [] else Records(f[..|f| - 1]) + f[|f| - 1].records
  }

  /** How many records were counted as sent (ok) or as failed (!ok). */
  function Total(f: seq<Shipment>, ok: bool): nat {
    if f == [] then 0
    else Total(f[..|f| - 1], ok) + (if f[|f| - 1].ok == ok then |f[|f| - 1].records| else 0)
  }

  lemma {:induction false} TotalsCover(f: seq<Shipment>)
    ensures Total(f, true) + Total(f, false) == |Records(f)|
  {
    if f != [] { TotalsCover(f[..|f| - 1]); }
  }

  // ---- the invariant, part by part ----

  /** Nothing accepted is lost, duplicated or reordered; enqueued, sent, failed and dropped agree
      with history. */
  predicate Conserved(s: State) {
    && s.history.accepted == Records(s.history.flushed) + s.batch + s.queue
    && s.stats.sent == Total(s.history.flushed, true)
    && s.stats.failed == Total(s.history.flushed, false)
    && Balanced(s)
  }

  /** The counters of enqueue against its calls. */
  predicate Balanced(s: State) {
    && s.stats.enqueued + SumBy(Uncounted, s.producers) == |s.history.accepted|
    && s.stats.enqueued + s.stats.dropped == s.history.finished + SumBy(Counted, s.producers)
    && s.stats.oversized <= s.stats.dropped + SumBy(OversizeOwed, s.producers)
  }

  function BigUncounted(pc: ProducerPc): nat { if pc.Oversize? then 1 else 0 }

  /** Every call that found its record too large, and every post that failed and is tried
      again, is counted, but for those about to be. */
  predicate Tallied(s: State) {
    && s.stats.oversized + SumBy(BigUncounted, s.producers) == s.history.tooBig
    && s.stats.retried + (if s.worker.Retrying? then 1 else 0) == s.history.retries
  }

  predicate InFlush(pc: WorkerPc) {
    !pc.Select? && !pc.AwaitEnqueuesDone? && !pc.Draining? && !pc.Exiting? && !pc.Exited?
  }

  predicate Bounded(s: State) {
    && s.cfg.Valid()
    && |s.queue| <= s.cfg.queueSize
    && (if InFlush(s.worker) then 1 <= |s.batch| <= s.cfg.batchSize else |s.batch| < s.cfg.batchSize)
    && (forall k | 0 <= k < |s.history.flushed| :: 1 <= |s.history.flushed[k].records| <= s.cfg.batchSize)
    && (forall i | 0 <= i < |s.producers| && s.producers[i].Ready? :: !TooBig(s.cfg, s.producers[i].rec))
    && (forall k | 0 <= k < |s.history.accepted| :: !TooBig(s.cfg, s.history.accepted[k]))
  }

  /** Why batches are flushed: for being full only at exactly batchSize records, and for the end
      of the drain only once, last. */
  predicate Caused(s: State) {
    && (InFlush(s.worker) && s.history.cause == Filled ==> |s.batch| == s.cfg.batchSize)
    && (InFlush(s.worker) ==> (s.history.cause == Drained <==> RetOf(s.worker) == Exit))
    && CausesFit(s.cfg.batchSize, s.worker == Exiting || s.worker == Exited, s.history.flushed)
  }

  predicate CausesFit(batchSize: int, leaving: bool, f: seq<Shipment>) {
    forall k | 0 <= k < |f| ::
      && (f[k].why == Filled ==> |f[k].records| == batchSize)
      && (f[k].why == Drained ==> k == |f| - 1 && leaving)
  }

  function Phase(c: CloserPc): nat {
    match c
    case NotClosing => 0 case CtxStored => 1 case ClosedStored => 2 case CtxCancelled => 3
    case StopClosed => 4 case LockWaiting => 5 case LockHeld => 6 case EnqueuesDoneClosed => 7 case Unlocked => 8
  }

  /** What Close has published so far is exactly what its program counter says. */
  predicate Published(s: State) {
    var c := Phase(s.gate.closer);
    && (s.gate.closeCtxSet <==> c >= 1) && (s.gate.closed <==> c >= 2) && (s.gate.cancelled <==> c >= 3)
    && (s.gate.stop <==> c >= 4) && (s.gate.enqueuesDone <==> c >= 7)
    && s.gate.writer == (if c == 5 then Pending else if c == 6 || c == 7 then Held else Free)
  }

  /** The read lock is held exactly by the producers inside a call; once the write lock
      has been taken, every producer inside the call saw closed == true. */
  predicate Locked(s: State) {
    && s.readers == SumBy(Inside, s.producers)
    && (s.gate.writer == Held ==> s.readers == 0)
    && (Phase(s.gate.closer) >= 6 ==> forall i | 0 <= i < |s.producers| :: !IsAdmitted(s.producers[i]))
  }

  function RetOf(pc: WorkerPc): Return {
    match pc
    case PickCtx(ret) => ret
    case ReadCloseCtx(ret, _) => ret
    case Marshal(job) => job.ret
    case Sending(job, _, _) => job.ret
    case Retrying(job, _, _) => job.ret
    case Waiting(job, _, _) => job.ret
    case Shipped(job, _, _) => job.ret
    case Counting(job, _, _) => job.ret
    case Draining => Drain
    case Exiting => Exit
    case Exited => Exit
    case _ => Main
  }

  /** The worker drains only after all admitted enqueues are over, and is on its way
      out only when the queue is empty. */
  predicate DrainsLate(s: State) {
    && (RetOf(s.worker) != Main ==> s.gate.enqueuesDone)
    && (s.worker == AwaitEnqueuesDone ==> s.gate.stop)
    && (RetOf(s.worker) == Exit ==> s.queue == [])
    && (s.worker == Exiting || s.worker == Exited ==> s.batch == [])
    && (s.done <==> s.worker == Exited)
  }

  predicate HasJob(pc: WorkerPc) {
    pc.Marshal? || pc.Sending? || pc.Retrying? || pc.Waiting? || pc.Shipped? || pc.Counting?
  }

  predicate JobFits(s: State, j: Job) {
    && (j.ctx == CloseCtx ==> s.gate.closeCtxSet)
    && (j.nth == 1 || (j.nth == 2 && j.ctx == CloseCtx))
  }

  /** Some answer or wait of the shipment met the cancellation of its context. */
  predicate MetCancel(errs: seq<Err>) { Canceled in errs || Masked in errs }

  predicate CutKnown(s: State, j: Job, errs: seq<Err>) {
    && (j.ctx == OwnCtx && MetCancel(errs) ==> s.gate.cancelled)
    && (Masked in errs ==> s.cfg.decodesAnswer)
  }

  predicate CutsKnown(s: State) {
    var pc := s.worker;
    && (s.closeCtxEnd.Some? ==> s.closeCtxEnd.value == Canceled || s.closeCtxEnd.value == Deadline)
    && (pc.Sending? || pc.Retrying? || pc.Waiting? || pc.Shipped? || pc.Counting? ==> CutKnown(s, pc.job, pc.errs))
  }

  /** Which context a shipment runs under, how many attempts it has made, and that none that
      shows a cancellation of the sink's own context is about to be counted as failed. */
  predicate ShipsSafely(s: State) {
    var pc := s.worker;
    && (pc.ReadCloseCtx? ==> s.gate.closeCtxSet && (pc.nth == 1 || pc.nth == 2))
    && (HasJob(pc) ==> JobFits(s, pc.job))
    && (pc.Sending? ==> pc.attempt <= s.cfg.maxRetries && |pc.errs| == pc.attempt)
    && (pc.Retrying? || pc.Waiting? ==> pc.attempt < s.cfg.maxRetries && |pc.errs| == pc.attempt + 1)
    && (pc.Shipped? || pc.Counting? ==> |pc.errs| <= s.cfg.maxRetries + 2)
    && (pc.Counting? && !pc.ok && pc.job.ctx == OwnCtx ==> Canceled !in pc.errs)
  }

  predicate Inv(s: State) {
    Conserved(s) && Tallied(s) && Bounded(s) && Published(s) && Locked(s) && DrainsLate(s) && ShipsSafely(s)
    && CutsKnown(s) && Caused(s)
  }

  // ---- every step keeps it ----

  lemma InitialInv(s: State)
    requires Initial(s)
    ensures Inv(s)
  {
    SumZero(Inside, s.producers);
    SumZero(Uncounted, s.producers);
    SumZero(Counted, s.producers);
    SumZero(OversizeOwed, s.producers);
    SumZero(BigUncounted, s.producers);
  }

  lemma ProducerKeepsTallied(s: State, i: nat, p: ProducerStep)
    requires Tallied(s) && ProducerEnabled(s, i, p)
    ensures Tallied(ProducerApply(s, i, p))
  {
    SumUpdate(BigUncounted, s.producers, i, ProducerApply(s, i, p).producers[i]);
  }

  lemma WorkerKeepsTallied(s: State, w: WorkerStep)
    requires Tallied(s) && WorkerEnabled(s, w)
    ensures Tallied(WorkerApply(s, w))
  {
  }

  lemma ProducerKeepsConserved(s: State, i: nat, p: ProducerStep)
    requires Conserved(s) && ProducerEnabled(s, i, p)
    ensures Conserved(ProducerApply(s, i, p))
  {
    ProducerKeepsBalanced(s, i, p);
    if p == Send { SendKeepsOrder(s, i); }
  }

  lemma ProducerKeepsBalanced(s: State, i: nat, p: ProducerStep)
    requires Balanced(s) && ProducerEnabled(s, i, p)
    ensures Balanced(ProducerApply(s, i, p))
  {
    var pc' := ProducerApply(s, i, p).producers[i];
    SumUpdate(Uncounted, s.producers, i, pc');
    SumUpdate(Counted, s.producers, i, pc');
    SumUpdate(OversizeOwed, s.producers, i, pc');
  }

  lemma SendKeepsOrder(s: State, i: nat)
    requires Conserved(s) && ProducerEnabled(s, i, Send)
    ensures var s' := ProducerApply(s, i, Send);
            s'.history.accepted == Records(s'.history.flushed) + s'.batch + s'.queue
  {
    var front, rec := Records(s.history.flushed) + s.batch, s.producers[i].rec;
    assert (front + s.queue) + [rec] == front + (s.queue + [rec]);
  }

  lemma ProducerKeepsLocked(s: State, i: nat, p: ProducerStep)
    requires Locked(s) && Published(s) && ProducerEnabled(s, i, p)
    ensures Locked(ProducerApply(s, i, p))
  {
    SumUpdate(Inside, s.producers, i, ProducerApply(s, i, p).producers[i]);
  }

  lemma ProducerKeepsBounded(s: State, i: nat, p: ProducerStep)
    requires Bounded(s) && ProducerEnabled(s, i, p)
    ensures Bounded(ProducerApply(s, i, p))
  {
  }

  lemma ProducerKeepsInv(s: State, i: nat, p: ProducerStep)
    requires Inv(s) && ProducerEnabled(s, i, p)
    ensures Inv(ProducerApply(s, i, p))
  {
    ProducerKeepsConserved(s, i, p);
    ProducerKeepsTallied(s, i, p);
    ProducerKeepsLocked(s, i, p);
    ProducerKeepsBounded(s, i, p);
    ProducerFrame(s, i, p);
    WorkerSideKept(s, ProducerApply(s, i, p));
  }

  /** A producer leaves the rest of the sink alone, and the queue once no call is admitted. */
  lemma ProducerFrame(s: State, i: nat, p: ProducerStep)
    requires Locked(s) && ProducerEnabled(s, i, p)
    ensures var s' := ProducerApply(s, i, p);
      && s'.gate == s.gate && s'.worker == s.worker && s'.batch == s.batch && s'.done == s.done
      && s'.cfg == s.cfg && s'.closeCtxEnd == s.closeCtxEnd
      && s'.history.flushed == s.history.flushed && s'.history.cause == s.history.cause
      && (Phase(s.gate.closer) >= 6 ==> s'.queue == s.queue)
  {
  }

  lemma WorkerSideKept(s: State, s': State)
    requires Published(s) && DrainsLate(s) && ShipsSafely(s) && CutsKnown(s) && Caused(s)
    requires s'.gate == s.gate && s'.worker == s.worker && s'.batch == s.batch && s'.done == s.done
    requires s'.cfg == s.cfg && s'.closeCtxEnd == s.closeCtxEnd
    requires s'.history.flushed == s.history.flushed && s'.history.cause == s.history.cause
    requires Phase(s.gate.closer) >= 6 ==> s'.queue == s.queue
    ensures Published(s') && DrainsLate(s') && ShipsSafely(s') && CutsKnown(s') && Caused(s')
  {
  }

  lemma CloserKeepsPublished(s: State)
    requires Published(s) && Locked(s) && CloserEnabled(s)
    ensures Published(CloserApply(s)) && Locked(CloserApply(s))
  {
    SumZero(Inside, s.producers);
  }

  /** The other parts read of the gate only flags that Close sets and never clears. */
  lemma GateOnly(s: State, g: Gate)
    requires Conserved(s) && Tallied(s) && Bounded(s) && DrainsLate(s) && ShipsSafely(s) && CutsKnown(s) && Caused(s)
    requires s.gate.closeCtxSet ==> g.closeCtxSet
    requires s.gate.cancelled ==> g.cancelled
    requires s.gate.stop ==> g.stop
    requires s.gate.enqueuesDone ==> g.enqueuesDone
    ensures var s' := s.(gate := g);
            Conserved(s') && Tallied(s') && Bounded(s') && DrainsLate(s') && ShipsSafely(s') && CutsKnown(s') && Caused(s')
  {
  }

  lemma CloserKeepsInv(s: State)
    requires Inv(s) && CloserEnabled(s)
    ensures Inv(CloserApply(s))
  {
    CloserKeepsPublished(s);
    assert CloserApply(s) == s.(gate := CloserApply(s).gate);
    GateOnly(s, CloserApply(s).gate);
  }

  lemma MoveOne(front: seq<Record>, batch: seq<Record>, queue: seq<Record>)
    requires queue != []
    ensures front + batch + queue == front + (batch + [queue[0]]) + queue[1..]
  {
  }

  lemma WorkerKeepsConserved(s: State, w: WorkerStep)
    requires Conserved(s) && WorkerEnabled(s, w)
    ensures Conserved(WorkerApply(s, w))
  {
    if w == Receive {
      MoveOne(Records(s.history.flushed), s.batch, s.queue);
    } else if w == Count {
      CountKeepsConserved(s);
    }
  }

  lemma CountKeepsConserved(s: State)
    requires Conserved(s) && WorkerEnabled(s, Count)
    ensures Conserved(WorkerApply(s, Count))
  {
    var f, b := s.history.flushed, Shipment(s.batch, s.worker.ok, s.history.cause);
    assert (f + [b])[..|f|] == f;
    assert Records(f + [b]) + [] + s.queue == Records(f) + s.batch + s.queue;
  }

  lemma WorkerKeepsBounded(s: State, w: WorkerStep)
    requires Bounded(s) && WorkerEnabled(s, w)
    ensures Bounded(WorkerApply(s, w))
  {
  }

  lemma WorkerKeepsDrainsLate(s: State, w: WorkerStep)
    requires Bounded(s) && Published(s) && DrainsLate(s) && WorkerEnabled(s, w)
    ensures DrainsLate(WorkerApply(s, w))
  {
  }

  lemma WorkerKeepsShipsSafely(s: State, w: WorkerStep)
    requires Bounded(s) && Published(s) && ShipsSafely(s) && CutsKnown(s) && WorkerEnabled(s, w)
    ensures ShipsSafely(WorkerApply(s, w))
  {
  }

  lemma WorkerKeepsCutsKnown(s: State, w: WorkerStep)
    requires CutsKnown(s) && WorkerEnabled(s, w)
    ensures CutsKnown(WorkerApply(s, w))
  {
  }

  lemma WorkerKeepsCaused(s: State, w: WorkerStep)
    requires Bounded(s) && Caused(s) && WorkerEnabled(s, w)
    ensures Caused(WorkerApply(s, w))
  {
    if w == Count { CountKeepsCaused(s); }
  }

  lemma CountKeepsCaused(s: State)
    requires Bounded(s) && Caused(s) && WorkerEnabled(s, Count)
    ensures Caused(WorkerApply(s, Count))
  {
  }

  lemma WorkerKeepsInv(s: State, w: WorkerStep)
    requires Inv(s) && WorkerEnabled(s, w)
    ensures Inv(WorkerApply(s, w))
  {
    WorkerKeepsConserved(s, w);
    WorkerKeepsTallied(s, w);
    WorkerKeepsBounded(s, w);
    WorkerKeepsDrainsLate(s, w);
    WorkerKeepsShipsSafely(s, w);
    WorkerKeepsCutsKnown(s, w);
    WorkerKeepsCaused(s, w);
    var s' := WorkerApply(s, w);
    assert s'.producers == s.producers && s'.readers == s.readers && s'.gate.writer == s.gate.writer;
  }

  lemma NextKeepsInv(s: State, l: Label)
    requires Inv(s) && Enabled(s, l)
    ensures Inv(Apply(s, l))
  {
    match l
    case Producer(i, p) => ProducerKeepsInv(s, i, p);
    case Closer => CloserKeepsInv(s);
    case Worker(w) => WorkerKeepsInv(s, w);
    case _ =>
  }

  lemma {:induction false} BehaviorKeepsInv(t: seq<State>, ls: seq<Label>, i: nat)
    requires Behavior(t, ls) && Inv(t[0]) && i <= |ls|
    ensures Inv(t[i])
  {
    if i > 0 {
      BehaviorKeepsInv(t, ls, i - 1);
      assert StepOf(t, ls, i - 1);
      NextKeepsInv(t[i - 1], ls[i - 1]);
    }
  }

  lemma ReachableInv(s: State)
    requires Reachable(s)
    ensures Inv(s)
  {
    var t, ls :| Behavior(t, ls) && Initial(t[0]) && t[|ls|] == s;
    InitialInv(t[0]);
    BehaviorKeepsInv(t, ls, |ls|);
  }

  lemma InitialReachable(s: State)
    requires Initial(s)
    ensures Reachable(s)
  {
    assert Behavior([s], []);
  }

  lemma ReachableNext(s: State, l: Label)
    requires Reachable(s) && Enabled(s, l)
    ensures Reachable(Apply(s, l))
  {
    var t, ls :| Behavior(t, ls) && Initial(t[0]) && t[|ls|] == s;
    var t', ls' := t + [Apply(s, l)], ls + [l];
    forall i: nat | i < |ls'| ensures StepOf(t', ls', i) {
      if i < |ls| { assert StepOf(t, ls, i); }
    }
    assert Behavior(t', ls') && t'[|ls'|] == Apply(s, l);
  }
}
