/** What every reachable state of the sink guarantees, and what is true for good once
    `done` is closed. */
module SinkShutdown {
  import opened Options
  import opened SinkProtocol
  import opened SinkInvariant

  // ---- mid-run accounting ----

  /** In every interleaving the accepted records, in order, are the counted batches, then
      the worker's batch, then the queue; `sent + failed` counts exactly the first part. */
  lemma AcceptedIsFlushedThenPending(s: State)
    requires Reachable(s)
    ensures s.history.accepted == Records(s.history.flushed) + s.batch + s.queue
    ensures s.stats.sent + s.stats.failed == |Records(s.history.flushed)|
    ensures s.stats.enqueued + SumBy(Uncounted, s.producers)
         == s.stats.sent + s.stats.failed + |s.batch| + |s.queue|
  {
    ReachableInv(s);
    TotalsCover(s.history.flushed);
  }

  /** The equation over the counters alone holds exactly when no producer is between its
      channel send and its enqueued.Add. */
  lemma PlainEquation(s: State)
    requires Reachable(s)
    ensures s.stats.enqueued == s.stats.sent + s.stats.failed + |s.batch| + |s.queue|
       <==> forall i | 0 <= i < |s.producers| :: !s.producers[i].Sent?
  {
    AcceptedIsFlushedThenPending(s);
    SumZero(Uncounted, s.producers);
    assert forall i | 0 <= i < |s.producers| :: Uncounted(s.producers[i]) == 0 <==> !s.producers[i].Sent?;
  }

  /** It does fail in some run: one send suffices, with everybody else at rest. */
  lemma PlainEquationFails(cfg: Config, rec: Record) returns (s: State)
    requires cfg.Valid() && !TooBig(cfg, rec)
    ensures Reachable(s) && s.cfg == cfg && s.queue == [rec] && s.batch == [] && s.worker == Select
    ensures s.gate == Gate(NotClosing, Free, false, false, false, false, false) && s.closeCtxEnd == None
    ensures s.history.flushed == []
    ensures s.stats.enqueued != s.stats.sent + s.stats.failed + |s.batch| + |s.queue|
  {
    var s0 := State(cfg, Gate(NotClosing, Free, false, false, false, false, false), Stats(0, 0, 0, 0, 0, 0),
                    History([], [], 0, 0, 0, Ticked), [], 0, None, false, [Idle], Select, []);
    InitialReachable(s0);
    var s1 := Advance(s0, Enter(rec));
    var s2 := Advance(s1, LoadClosed);
    var s3 := Advance(s2, CheckSize);
    s := Advance(s3, Send);
  }

  lemma Advance(s: State, p: ProducerStep) returns (s': State)
    requires Reachable(s) && ProducerEnabled(s, 0, p)
    ensures Reachable(s') && s' == ProducerApply(s, 0, p)
  {
    ReachableNext(s, Producer(0, p));
    s' := ProducerApply(s, 0, p);
  }

  /** Every returned enqueue call moved exactly one of `enqueued` and `dropped`, once no
      call is between that add and its return; `oversized` counts the calls that found their
      record too large, which are among the dropped ones; and `retried` the failed posts
      that are tried again. */
  lemma EachCallCountsOnce(s: State)
    requires Reachable(s)
    ensures s.stats.enqueued + s.stats.dropped == s.history.finished + SumBy(Counted, s.producers)
    ensures s.stats.oversized + SumBy(BigUncounted, s.producers) == s.history.tooBig
    ensures s.stats.retried + (if s.worker.Retrying? then 1 else 0) == s.history.retries
    ensures (forall i | 0 <= i < |s.producers| :: s.producers[i] != Dropping(TooLarge))
         ==> s.stats.oversized <= s.stats.dropped
  {
    ReachableInv(s);
    SumZero(OversizeOwed, s.producers);
  }

  /** The bounds: queue, batch, every counted batch, and no oversized record accepted. */
  lemma BoundsHold(s: State)
    requires Reachable(s)
    ensures |s.queue| <= s.cfg.queueSize
    ensures s.worker == Select ==> |s.batch| < s.cfg.batchSize
    ensures forall k | 0 <= k < |s.history.flushed| :: 1 <= |s.history.flushed[k].records| <= s.cfg.batchSize
    ensures s.cfg.maxRecordBytes > 0 ==>
              forall k | 0 <= k < |s.history.accepted| :: s.history.accepted[k].size <= s.cfg.maxRecordBytes
    ensures s.worker.Sending? ==> s.worker.attempt <= s.cfg.maxRetries
  {
    ReachableInv(s);
  }

  /** A counted batch that is not full was flushed by a tick or by the end of the drain; one
      flushed for being full has exactly batchSize records; and the end of the drain flushes
      only the last batch of all, when the worker is on its way out. */
  lemma ShortBatchesHaveACause(s: State, k: nat)
    requires Reachable(s) && k < |s.history.flushed|
    ensures var b := s.history.flushed[k];
      && (|b.records| < s.cfg.batchSize ==> b.why == Ticked || b.why == Drained)
      && (b.why == Filled ==> |b.records| == s.cfg.batchSize)
      && (b.why == Drained ==> k == |s.history.flushed| - 1 && (s.worker == Exiting || s.worker == Exited))
  {
    ReachableInv(s);
  }

  // ---- Close's cancellation ----

  /** m.closeCtx is read only after it was written. A failed shipment under the sink's own
      context that met Close's cancel goes on to a second shipment under Close's context if
      and only if some answer or wait showed the cancellation, which is always so for a sink
      that does not decode the answer's body. What is counted as failed showed none. */
  lemma CutShipmentIsReshipped(s: State)
    requires Reachable(s)
    ensures s.worker.ReadCloseCtx? ==> s.gate.closeCtxSet
    ensures s.worker.Shipped? && !s.worker.ok && s.worker.job.ctx == OwnCtx && MetCancel(s.worker.errs)
        ==> (WorkerApply(s, Decide).worker == ReadCloseCtx(s.worker.job.ret, 2) <==> Canceled in s.worker.errs)
    ensures s.worker.Shipped? && !s.cfg.decodesAnswer
        ==> (MetCancel(s.worker.errs) <==> Canceled in s.worker.errs)
    ensures s.worker.Counting? && !s.worker.ok && s.worker.job.ctx == OwnCtx
        ==> Canceled !in s.worker.errs && (!s.cfg.decodesAnswer ==> !MetCancel(s.worker.errs))
  {
    ReachableInv(s);
  }

  /** The worker is about to post a batch of that one record, under its own context. */
  lemma OneSending(cfg: Config, rec: Record) returns (s: State)
    requires cfg.Valid() && !TooBig(cfg, rec)
    ensures Reachable(s) && s.cfg == cfg && s.batch == [rec] && s.worker == Sending(Job(Main, 1, OwnCtx), 0, [])
    ensures s.gate == Gate(NotClosing, Free, false, false, false, false, false) && s.closeCtxEnd == None
    ensures s.history.flushed == []
  {
    s := PlainEquationFails(cfg, rec);
    s := WorkerAdvance(s, Receive);
    if s.worker == Select { s := WorkerAdvance(s, Tick); }
    s := WorkerAdvance(s, LoadClosedFlag);
    s := WorkerAdvance(s, BuildPayload(true));
  }

  lemma WorkerAdvance(s: State, w: WorkerStep) returns (s': State)
    requires Reachable(s) && WorkerEnabled(s, w)
    ensures Reachable(s') && s' == WorkerApply(s, w)
  {
    ReachableNext(s, Worker(w));
    s' := WorkerApply(s, w);
  }

  lemma CloseAdvance(s: State) returns (s': State)
    requires Reachable(s) && s.gate.closer == NotClosing
    ensures Reachable(s')
    ensures s' == s.(gate := s.gate.(closer := CtxCancelled, closeCtxSet := true, closed := true, cancelled := true))
  {
    ReachableNext(s, CallClose);
    s' := Apply(s, CallClose);
    ReachableNext(s', Closer);
    s' := Apply(s', Closer);
    ReachableNext(s', Closer);
    s' := Apply(s', Closer);
  }

  /** For a sink that decodes the answer's body this does fail in some run: Close cancels while
      the body is read, and a batch is counted as failed though Close's context was never
      ended and never tried. */
  lemma MaskedCutIsLost(cfg: Config, rec: Record) returns (s: State)
    requires cfg.Valid() && cfg.decodesAnswer && !TooBig(cfg, rec)
    ensures Reachable(s) && s.worker == Select && s.closeCtxEnd == None
    ensures |s.history.flushed| == 1 && s.history.flushed[0].records == [rec] && !s.history.flushed[0].ok
    ensures s.stats.failed == 1
  {
    s := OneSending(cfg, rec);
    s := CloseAdvance(s);
    s := WorkerAdvance(s, Post(Failed(Masked)));
    s := WorkerAdvance(s, Decide);
    s := WorkerAdvance(s, Count);
    ReachableInv(s);
    CountedOnce(s, rec);
  }

  lemma CountedOnce(s: State, rec: Record)
    requires Inv(s) && |s.history.flushed| == 1
    requires s.history.flushed[0].records == [rec] && !s.history.flushed[0].ok
    ensures s.stats.failed == 1
  {
    var f := s.history.flushed;
    assert f[..0] == [] && Total([], false) == 0;
    assert f[..|f| - 1] == f[..0];
  }

  // ---- after done ----

  /** When `done` closes nothing accepted is left anywhere, nobody who saw closed == false
      is still inside enqueue, and every accepted record was counted, in order. */
  lemma NothingLostAtShutdown(s: State)
    requires Reachable(s) && s.done
    ensures s.queue == [] && s.batch == []
    ensures forall i | 0 <= i < |s.producers| :: !IsAdmitted(s.producers[i])
    ensures Records(s.history.flushed) == s.history.accepted
    ensures s.stats.enqueued == |s.history.accepted| == s.stats.sent + s.stats.failed
  {
    ReachableInv(s);
    TotalsCover(s.history.flushed);
    SumZero(Uncounted, s.producers);
    assert s.history.accepted == Records(s.history.flushed);
  }

  /** Everything but `dropped`, the producers, the gate and the caller's context. */
  ghost predicate OnlyDropsSince(s: State, s': State) {
    && s'.history.accepted == s.history.accepted && s'.history.flushed == s.history.flushed
    && s'.queue == s.queue && s'.batch == s.batch && s'.worker == s.worker && s'.done == s.done
    && s'.stats == s.stats.(dropped := s'.stats.dropped)
    && s'.stats.dropped - s.stats.dropped
       == (s'.history.finished - s.history.finished) + SumBy(Counted, s'.producers) - SumBy(Counted, s.producers)
  }

  lemma LateProducerOnlyDrops(s: State, i: nat, p: ProducerStep)
    requires s.gate.closed && ProducerEnabled(s, i, p) && !IsAdmitted(s.producers[i])
    requires s.stats.enqueued + s.stats.dropped == s.history.finished + SumBy(Counted, s.producers)
    ensures OnlyDropsSince(s, ProducerApply(s, i, p))
  {
    SumUpdate(Counted, s.producers, i, ProducerApply(s, i, p).producers[i]);
  }

  lemma DoneStepOnlyDrops(s: State, l: Label)
    requires Inv(s) && s.done && Enabled(s, l)
    ensures OnlyDropsSince(s, Apply(s, l))
  {
    match l
    case Producer(i, p) => LateProducerOnlyDrops(s, i, p);
    case _ =>
  }

  lemma DropsCompose(s: State, m: State, s': State)
    requires OnlyDropsSince(s, m) && OnlyDropsSince(m, s')
    ensures OnlyDropsSince(s, s')
  {
  }

  /** From then on, forever and whatever anybody does, enqueue only drops: one drop for
      each call that returns. */
  lemma {:induction false} AfterDoneOnlyDrops(t: seq<State>, ls: seq<Label>, i: nat)
    requires Behavior(t, ls) && Reachable(t[0]) && t[0].done && i <= |ls|
    ensures OnlyDropsSince(t[0], t[i])
  {
    if i > 0 {
      AfterDoneOnlyDrops(t, ls, i - 1);
      ReachableInv(t[0]);
      BehaviorKeepsInv(t, ls, i - 1);
      assert StepOf(t, ls, i - 1);
      DoneStepOnlyDrops(t[i - 1], ls[i - 1]);
      DropsCompose(t[0], t[i - 1], t[i]);
    }
  }
}
