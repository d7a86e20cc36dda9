/** The sink as code: `enqueue`, `Close`, `run`, `flush` and `ship` with their loops and
    early returns over the sink's own fields. Each method is proved to take only steps of
    the protocol, so what SinkShutdown proves of every reachable state holds of the object
    at every point of every method.

    `Others` stands for the rest of the program: between two of the worker's operations any
    other goroutine may take any number of steps. */
module SinkMiddleware {
  import opened Backoff
  import opened Options
  import opened SinkProtocol
  import opened SinkInvariant
  import opened SinkShutdown

  /** One protocol step; the code updates the fields it stands for. */
  ghost function Stepped(s: State, l: Label): (s': State)
    requires Reachable(s) && Enabled(s, l)
    ensures Reachable(s') && s' == Apply(s, l)
  {
    ReachableNext(s, l);
    Apply(s, l)
  }

  // ---- what other goroutines can do to the worker's view ----

  predicate NoWorker(ls: seq<Label>) {
    forall k | 0 <= k < |ls| :: !ls[k].Worker?
  }

  /** The worker's own data is untouched, what Close publishes stays published, the queue
      only grows, and not at all once enqueuesDone is closed. */
  predicate SameForWorker(s: State, s': State) {
    && s'.cfg == s.cfg && s'.worker == s.worker && s'.batch == s.batch && s'.done == s.done
    && s'.history.flushed == s.history.flushed && s'.history.cause == s.history.cause
    && s'.stats.sent == s.stats.sent && s'.stats.failed == s.stats.failed && s'.stats.retried == s.stats.retried
    && s.queue <= s'.queue
    && (s.gate.enqueuesDone ==> s'.queue == s.queue && s'.gate.enqueuesDone)
    && (s.gate.closed ==> s'.gate.closed) && (s.gate.stop ==> s'.gate.stop)
  }

  lemma OneProducerStep(s: State, i: nat, p: ProducerStep)
    requires Published(s) && Locked(s) && ProducerEnabled(s, i, p)
    ensures SameForWorker(s, ProducerApply(s, i, p))
  {
  }

  lemma OneForeignStep(s: State, l: Label)
    requires Published(s) && Locked(s) && Enabled(s, l) && !l.Worker?
    ensures SameForWorker(s, Apply(s, l))
  {
    match l
    case Producer(i, p) => OneProducerStep(s, i, p);
    case _ =>
  }

  lemma {:induction false} ForeignSteps(t: seq<State>, ls: seq<Label>, i: nat)
    requires Behavior(t, ls) && Inv(t[0]) && NoWorker(ls) && i <= |ls|
    ensures SameForWorker(t[0], t[i])
  {
    if i > 0 {
      ForeignSteps(t, ls, i - 1);
      BehaviorKeepsInv(t, ls, i - 1);
      assert StepOf(t, ls, i - 1);
      OneForeignStep(t[i - 1], ls[i - 1]);
    }
  }

  ghost predicate Interference(s: State, s': State) {
    exists t, ls :: Behavior(t, ls) && NoWorker(ls) && t[0] == s && t[|ls|] == s'
  }

  lemma InterferenceIsForeign(s: State, s': State)
    requires Reachable(s) && Interference(s, s')
    ensures SameForWorker(s, s')
  {
    ReachableInv(s);
    var t, ls :| Behavior(t, ls) && NoWorker(ls) && t[0] == s && t[|ls|] == s';
    ForeignSteps(t, ls, |ls|);
  }

  // ---- what Close does ----

  /** One state comes from the other by steps of Close alone. Its program has no branches, so
      they come in the one order the protocol gives them. */
  ghost predicate ByClose(s: State, s': State) {
    exists t, ls :: Behavior(t, ls) && OnlyClose(ls) && t[0] == s && t[|ls|] == s'
  }

  predicate OnlyClose(ls: seq<Label>) {
    forall k | 0 <= k < |ls| :: ls[k] == CallClose || ls[k] == Closer
  }

  lemma CloseStays(s: State)
    ensures ByClose(s, s)
  {
    assert Behavior([s], []) && OnlyClose([]);
  }

  lemma CloseNext(s: State, m: State, l: Label) returns (s': State)
    requires ByClose(s, m) && Enabled(m, l) && (l == CallClose || l == Closer)
    ensures s' == Apply(m, l) && ByClose(s, s')
  {
    s' := Apply(m, l);
    var t, ls :| Behavior(t, ls) && OnlyClose(ls) && t[0] == s && t[|ls|] == m;
    var t', ls' := t + [s'], ls + [l];
    forall i: nat | i < |ls'| ensures StepOf(t', ls', i) {
      if i < |ls| { assert StepOf(t, ls, i); }
    }
    assert Behavior(t', ls') && OnlyClose(ls') && t'[0] == s && t'[|ls'|] == s';
  }

  lemma CloseRuns(s: State, s': State)
    requires s.gate.closer == NotClosing && s' == s.(gate := s'.gate)
    requires s'.gate == if s.readers > 0 then Gate(LockWaiting, Pending, true, true, true, true, s.gate.enqueuesDone)
                        else Gate(Unlocked, Free, true, true, true, true, true)
    ensures ByClose(s, s')
  {
    CloseStays(s);
    var m := CloseNext(s, s, CallClose);
    m := CloseNext(s, m, Closer);
    m := CloseNext(s, m, Closer);
    m := CloseNext(s, m, Closer);
    m := CloseNext(s, m, Closer);
    if s.readers == 0 {
      m := CloseNext(s, m, Closer);
      m := CloseNext(s, m, Closer);
      m := CloseNext(s, m, Closer);
    }
  }

  // ---- what one ship call tried ----

  /** What was posted, and the transport's answer. */
  datatype Exchange = Exchange(text: string, answer: Outcome)

  /** A record of one ship call: its posts in order, whether a retry wait was cut short, and
      the delays it asked for. */
  datatype Attempts = Attempts(log: seq<Exchange>, cut: bool, delays: seq<int>)

  const NO_ATTEMPT := Attempts([], false, [])

  function ErrsOf(log: seq<Exchange>): seq<Err> {
    if log == [] then []
    else ErrsOf(log[..|log| - 1]) + (match log[|log| - 1].answer case Failed(e) => [e] case Accepted => [])
  }

  /** Every post carried this text. */
  predicate AllPosted(log: seq<Exchange>, text: string) {
    forall k | 0 <= k < |log| :: log[k].text == text
  }

  /** ship posts the payload and nothing else, and nothing at all without one. */
  predicate Posts(payload: Option<string>, a: Attempts) {
    match payload case None => a == NO_ATTEMPT case Some(text) => a.log != [] && AllPosted(a.log, text)
  }

  lemma OneMorePosted(was: seq<Exchange>, log: seq<Exchange>, text: string)
    requires AllPosted(was, text) && |log| == |was| + 1 && log[..|was|] == was && log[|was|].text == text
    ensures AllPosted(log, text)
  {
    assert forall k | 0 <= k < |was| :: log[k] == was[k];
  }

  lemma WaitEnds(s: State, job: Job, attempt: nat, errs: seq<Err>, cut: Option<Err>)
    requires s.worker == Waiting(job, attempt, errs) && (cut.Some? ==> cut == CtxErr(s, job.ctx))
    ensures WorkerEnabled(s, Wait(cut.Some?))
    ensures WorkerApply(s, Wait(cut.Some?))
         == s.(worker := if cut.None? then Sending(job, attempt + 1, errs) else Shipped(job, false, errs + [cut.value]))
  {
  }

  predicate TransientFailure(x: Exchange) { x.answer.Failed? && Retryable(x.answer.e) }

  /** Every answer but the last was a failure worth retrying, there are at most
      maxRetries + 1 of them, and a wait of the scheduled length stands between two. */
  predicate Disciplined(c: Config, a: Attempts) {
    && |a.log| <= c.maxRetries + 1
    && (forall k | 0 <= k < |a.log| - 1 :: TransientFailure(a.log[k]))
    && (forall k | 0 <= k < |a.delays| :: a.delays[k] == Delay(c.retryBackoff, c.maxBackoff, k))
    && (if a.cut then a.log != [] && |a.delays| == |a.log| && TransientFailure(a.log[|a.log| - 1])
        else |a.delays| == if a.log == [] then 0 else |a.log| - 1)
  }

  /** The two kinds of failure, by name: after a rejected post, a cancellation hidden in one, or
      success there is no other; while what came back is a transient failure, a deadline or a
      cancellation, ship goes on until the attempts are used up or a wait is cut short. */
  predicate TellsApart(c: Config, a: Attempts) {
    && (forall k | 0 <= k < |a.log| ::
          a.log[k].answer in {Accepted, Failed(Rejected), Failed(Masked)} ==> k == |a.log| - 1 && !a.cut)
    && (a.log != [] && !a.cut
        && a.log[|a.log| - 1].answer in {Failed(Transient), Failed(Deadline), Failed(Canceled)}
        ==> |a.log| == c.maxRetries + 1)
  }

  lemma ReportsTellApart(c: Config, a: Attempts, ok: bool, errs: seq<Err>)
    requires Reports(c, a, ok, errs)
    ensures TellsApart(c, a)
  {
    assert forall k | 0 <= k < |a.log| - 1 :: TransientFailure(a.log[k]);
  }

  /** ship gives up without being cut only after a permanent answer or the last attempt. */
  predicate Exhausted(c: Config, a: Attempts) {
    a.cut || a.log == [] || |a.log| == c.maxRetries + 1 || !TransientFailure(a.log[|a.log| - 1])
  }

  predicate Delivered(a: Attempts) { a.log != [] && a.log[|a.log| - 1].answer == Accepted }

  /** What ship reports: whether the last answer was an acceptance, and every error it met. */
  predicate Reports(c: Config, a: Attempts, ok: bool, errs: seq<Err>) {
    && Disciplined(c, a) && ok == Delivered(a) && (!ok ==> Exhausted(c, a))
    && (if a.log == [] then errs == [Unsendable]
        else if a.cut then |errs| > 0 && errs[..|errs| - 1] == ErrsOf(a.log)
        else errs == ErrsOf(a.log))
  }

  /** ship before its attempt number `attempt`: only transient failures so far. */
  predicate Trying(c: Config, a: Attempts, attempt: nat, errs: seq<Err>) {
    && |a.log| == |a.delays| == attempt <= c.maxRetries && !a.cut && errs == ErrsOf(a.log)
    && (forall k | 0 <= k < |a.log| :: TransientFailure(a.log[k]))
    && (forall k | 0 <= k < |a.delays| :: a.delays[k] == Delay(c.retryBackoff, c.maxBackoff, k))
  }

  lemma TryEnds(c: Config, a: Attempts, attempt: nat, errs: seq<Err>, x: Exchange)
    requires Trying(c, a, attempt, errs)
    ensures x.answer == Accepted ==> Reports(c, a.(log := a.log + [x]), true, errs)
    ensures x.answer.Failed? && (attempt == c.maxRetries || !Retryable(x.answer.e)) ==>
              Reports(c, a.(log := a.log + [x]), false, errs + [x.answer.e])
  {
    assert (a.log + [x])[..|a.log|] == a.log;
  }

  lemma TryAgain(c: Config, a: Attempts, attempt: nat, errs: seq<Err>, x: Exchange, e: Err)
    requires Trying(c, a, attempt, errs) && attempt < c.maxRetries && TransientFailure(x)
    ensures var a' := Attempts(a.log + [x], false, a.delays + [Delay(c.retryBackoff, c.maxBackoff, attempt)]);
            && Trying(c, a', attempt + 1, errs + [x.answer.e])
            && Reports(c, a'.(cut := true), false, errs + [x.answer.e] + [e])
  {
    assert (a.log + [x])[..|a.log|] == a.log;
  }

  // ---- what the main loop did ----

  /** In one schedule, what the caller chooses next for the worker's select. */
  datatype Choice = ChooseStop | ChooseQueue | ChooseTick

  /** A choice, and what the worker saw when it came to it. */
  datatype Seen = Seen(choice: Choice, queue: seq<Record>, stop: bool)

  predicate TakesStop(x: Seen) { x.choice == ChooseStop && x.stop }

  /** The queue behind this turn. */
  function Left(x: Seen): seq<Record> {
    if x.choice == ChooseQueue && x.queue != [] then x.queue[1..] else x.queue
  }

  /** The batches shipped, and the one being filled. */
  datatype Work = Work(batches: seq<seq<Record>>, batch: seq<Record>)

  function Turn(batchSize: int, w: Work, x: Seen): Work {
    if x.choice == ChooseQueue && x.queue != [] then
      var batch := w.batch + [x.queue[0]];
      if |batch| >= batchSize then Work(w.batches + [batch], []) else Work(w.batches, batch)
    else if x.choice == ChooseTick && w.batch != [] then Work(w.batches + [w.batch], [])
    else w
  }

  function Worked(batchSize: int, w: Work, seen: seq<Seen>): Work {
    if seen == [] then w else Turn(batchSize, Worked(batchSize, w, seen[..|seen| - 1]), seen[|seen| - 1])
  }

  /** Between two turns others only add to the queue, and `stop` stays closed. */
  predicate Chained(queue: seq<Record>, stop: bool, seen: seq<Seen>) {
    && (seen != [] ==> queue <= seen[0].queue && (stop ==> seen[0].stop))
    && forall k | 0 < k < |seen| :: Left(seen[k - 1]) <= seen[k].queue && (seen[k - 1].stop ==> seen[k].stop)
  }

  predicate Followed(queue: seq<Record>, stop: bool, seen: seq<Seen>, queue': seq<Record>, stop': bool) {
    if seen == [] then queue <= queue' && (stop ==> stop')
    else Left(seen[|seen| - 1]) <= queue' && (seen[|seen| - 1].stop ==> stop')
  }

  /** The choices are the scheduled ones, and only the last can have taken `stop`. */
  predicate OnSchedule(schedule: seq<Choice>, seen: seq<Seen>) {
    && |seen| <= |schedule|
    && (forall k | 0 <= k < |seen| :: seen[k].choice == schedule[k])
    && (forall k | 0 <= k < |seen| - 1 :: !TakesStop(seen[k]))
  }

  lemma ChainGrows(queue: seq<Record>, stop: bool, seen: seq<Seen>, x: Seen)
    requires Chained(queue, stop, seen) && Followed(queue, stop, seen, x.queue, x.stop)
    ensures Chained(queue, stop, seen + [x])
  {
    var more := seen + [x];
    forall k | 0 < k < |more|
      ensures Left(more[k - 1]) <= more[k].queue && (more[k - 1].stop ==> more[k].stop)
    {
      assert more[k - 1] == seen[k - 1] && more[k] == if k < |seen| then seen[k] else x;
    }
  }

  predicate Stopped(seen: seq<Seen>) { seen != [] && TakesStop(seen[|seen| - 1]) }

  /** Where the loop stands: the queue, `stop`, and the work done. */
  datatype Start = Start(queue: seq<Record>, stop: bool, done: Work)

  /** From one such point to another by these turns. */
  predicate InStep(batchSize: int, schedule: seq<Choice>, seen: seq<Seen>, from: Start, to: Start) {
    && OnSchedule(schedule, seen)
    && Chained(from.queue, from.stop, seen) && Followed(from.queue, from.stop, seen, to.queue, to.stop)
    && Worked(batchSize, from.done, seen) == to.done
  }

  lemma StepOn(batchSize: int, schedule: seq<Choice>, seen: seq<Seen>, from: Start, at: Start, x: Seen, to: Start)
    requires InStep(batchSize, schedule, seen, from, at) && !Stopped(seen)
    requires |seen| < |schedule| && x.choice == schedule[|seen|]
    requires at.queue <= x.queue && (at.stop ==> x.stop)
    requires Left(x) <= to.queue && (x.stop ==> to.stop) && to.done == Turn(batchSize, at.done, x)
    ensures InStep(batchSize, schedule, seen + [x], from, to)
  {
    FollowedOn(from, seen, at, x);
    ChainGrows(from.queue, from.stop, seen, x);
    ScheduleGrows(schedule, seen, x);
    WorkGrows(batchSize, from.done, seen, x);
    assert (seen + [x])[|seen|] == x;
  }

  lemma FollowedOn(from: Start, seen: seq<Seen>, at: Start, x: Seen)
    requires Followed(from.queue, from.stop, seen, at.queue, at.stop)
    requires at.queue <= x.queue && (at.stop ==> x.stop)
    ensures Followed(from.queue, from.stop, seen, x.queue, x.stop)
  {
    PrefixOfPrefix(if seen == [] then from.queue else Left(seen[|seen| - 1]), at.queue, x.queue);
  }

  lemma PrefixOfPrefix(a: seq<Record>, b: seq<Record>, c: seq<Record>)
    requires a <= b <= c
    ensures a <= c
  {
  }

  lemma ScheduleGrows(schedule: seq<Choice>, seen: seq<Seen>, x: Seen)
    requires OnSchedule(schedule, seen) && !Stopped(seen) && |seen| < |schedule| && x.choice == schedule[|seen|]
    ensures OnSchedule(schedule, seen + [x])
  {
    var more := seen + [x];
    forall k | 0 <= k < |more| ensures more[k].choice == schedule[k] && (k < |more| - 1 ==> !TakesStop(more[k])) {
      assert more[k] == if k < |seen| then seen[k] else x;
    }
  }

  lemma WorkGrows(batchSize: int, w: Work, seen: seq<Seen>, x: Seen)
    ensures Worked(batchSize, w, seen + [x]) == Turn(batchSize, Worked(batchSize, w, seen), x)
  {
    assert (seen + [x])[..|seen|] == seen;
  }

  function BatchesOf(f: seq<Shipment>): seq<seq<Record>> {
    seq(|f|, i requires 0 <= i < |f| => f[i].records)
  }

  /** One shipment more, of these records. */
  predicate OneMore(f: seq<Shipment>, f': seq<Shipment>, records: seq<Record>) {
    && |f'| == |f| + 1 && f'[..|f|] == f && f'[|f|].records == records
  }

  lemma BatchesPrefix(f: seq<Shipment>, f': seq<Shipment>)
    requires f <= f'
    ensures BatchesOf(f) <= BatchesOf(f')
  {
    assert forall i | 0 <= i < |f| :: f[i] == f'[i];
  }

  lemma BatchesOneMore(f: seq<Shipment>, f': seq<Shipment>, records: seq<Record>)
    requires OneMore(f, f', records)
    ensures BatchesOf(f') == BatchesOf(f) + [records] && f <= f'
  {
    assert forall i | 0 <= i < |f| :: f'[i] == f'[..|f|][i];
  }

  datatype Progress = Running | Parked | Finished

  class Middleware {
    const cfg: Config
    /** What a batch is posted as, if it can be marshalled and is not too large. */
    const payload: seq<Record> -> Option<string>
    // chan slog.Record, the lock, the close-once channels, the counters
    var queue: seq<Record>
    var readers: nat
    var writer: Writer
    var closeCtxSet: bool
    var closed: bool
    var cancelled: bool
    var stop: bool
    var enqueuesDone: bool
    var done: bool
    var stats: Stats
    var closeCtxEnd: Option<Err>
    // local to run
    var batch: seq<Record>

    ghost var s: State

    ghost predicate Valid()
      reads this
    {
      && Reachable(s) && cfg.Valid()
      && s.cfg == cfg && s.queue == queue && s.readers == readers && s.stats == stats && s.batch == batch
      && s.done == done && s.closeCtxEnd == closeCtxEnd
      && s.gate == Gate(s.gate.closer, writer, closeCtxSet, closed, cancelled, stop, enqueuesDone)
    }

    /** NewMiddleware with n goroutines that may log. */
    constructor (c: Config, build: seq<Record> -> Option<string>, ghost n: nat)
      requires c.Valid()
      ensures Valid() && cfg == c && payload == build && Initial(s) && |s.producers| == n
    {
      cfg, payload := c, build;
      queue, batch, readers, stats, closeCtxEnd := [], [], 0, Stats(0, 0, 0, 0, 0, 0), None;
      writer, closeCtxSet, closed, cancelled, stop, enqueuesDone, done := Free, false, false, false, false, false, false;
      s := State(c, Gate(NotClosing, Free, false, false, false, false, false), Stats(0, 0, 0, 0, 0, 0),
                 History([], [], 0, 0, 0, Ticked), [], 0, None, false, seq(n, _ => Idle), Select, []);
      new;
      InitialReachable(s);
    }

    /** Any number of steps of anybody but the worker; callers know no more than that. */
    method Others()
      requires Valid()
      modifies this
      ensures Valid() && Interference(old(s), s)
    {
      assert Behavior([s], []) && NoWorker([]);
    }

    /** What the worker may rely on after it. */
    method Yield()
      requires Valid()
      modifies this
      ensures Valid() && SameForWorker(old(s), s)
    {
      ghost var was := s;
      Others();
      InterferenceIsForeign(was, s);
    }

    /** HTTPClient.Do and the classification of its answer: any answer the context allows. */
    method Transport(c: Ctx) returns (o: Outcome)
      requires Valid()
      ensures o.Failed? ==> MayFail(s, c, o.e)
    {
      o :| o.Failed? ==>
             && o.e != Unsendable && (o.e == Canceled || o.e == Masked ==> Ended(c) == Some(Canceled))
             && (o.e == Masked ==> cfg.decodesAnswer);
      assert Ended(c) == CtxErr(s, c);
    }

    /** ctx.Err(). */
    function Ended(c: Ctx): Option<Err>
      reads this
    {
      if c == CloseCtx then closeCtxEnd else if cancelled then Some(Canceled) else None
    }

    // ---- enqueue ----

    /** Everything a call of enqueue leaves alone but the queue, the counters and its own
        place in the lock. */
    twostate predicate OnlyProducer(i: nat)
      reads this
    {
      && s.gate == old(s.gate) && s.worker == old(s.worker) && batch == old(batch) && done == old(done)
      && i < |old(s.producers)| == |s.producers| && s.producers == old(s.producers)[i := s.producers[i]]
    }

    /** dropped.Add(1). */
    method Drop(ghost i: nat)
      requires Valid() && i < |s.producers| && s.producers[i].Dropping?
      modifies this
      ensures Valid() && OnlyProducer(i) && s.producers[i].Leaving?
      ensures queue == old(queue) && readers == old(readers)
      ensures stats == old(stats).(dropped := old(stats).dropped + 1)
    {
      stats := stats.(dropped := stats.dropped + 1);
      s := Stepped(s, Producer(i, CountDrop));
    }

    /** RLock, then closed.Load(). */
    method Admit(ghost i: nat, rec: Record) returns (open: bool)
      requires Valid() && i < |s.producers| && s.producers[i] == Idle && writer == Free
      modifies this
      ensures Valid() && OnlyProducer(i) && open == !closed
      ensures s.producers[i] == if closed then Dropping(WasClosed) else Admitted(rec)
      ensures queue == old(queue) && stats == old(stats) && readers == old(readers) + 1
    {
      readers := readers + 1;
      s := Stepped(s, Producer(i, Enter(rec)));
      s := Stepped(s, Producer(i, LoadClosed));
      open := !closed;
    }

    /** The send case of the select, then enqueued.Add(1). */
    method Put(ghost i: nat, rec: Record)
      requires Valid() && i < |s.producers| && s.producers[i] == Ready(rec) && |queue| < cfg.queueSize
      modifies this
      ensures Valid() && OnlyProducer(i) && s.producers[i] == Leaving(true)
      ensures queue == old(queue) + [rec] && readers == old(readers)
      ensures stats == old(stats).(enqueued := old(stats).enqueued + 1)
    {
      queue := queue + [rec];
      s := Stepped(s, Producer(i, Send));
      CountPut(i);
    }

    /** enqueued.Add(1). */
    method CountPut(ghost i: nat)
      requires Valid() && i < |s.producers| && s.producers[i] == ProducerPc.Sent
      modifies this
      ensures Valid() && OnlyProducer(i) && s.producers[i] == Leaving(true)
      ensures queue == old(queue) && readers == old(readers)
      ensures stats == old(stats).(enqueued := old(stats).enqueued + 1)
    {
      stats := stats.(enqueued := stats.enqueued + 1);
      s := Stepped(s, Producer(i, CountEnqueue));
    }

    /** The select on the queue, with or without the stop case. */
    method Offer(ghost i: nat, rec: Record) returns (p: Progress)
      requires Valid() && i < |s.producers| && s.producers[i] == Ready(rec)
      modifies this
      ensures Valid() && OnlyProducer(i) && readers == old(readers)
      ensures p == Finished <==> |old(queue)| < cfg.queueSize
      ensures p == Finished ==>
        s.producers[i] == Leaving(true) && queue == old(queue) + [rec]
        && stats == old(stats).(enqueued := old(stats).enqueued + 1)
      ensures p != Finished ==> queue == old(queue) && stats == old(stats)
      ensures p == Parked <==> |old(queue)| >= cfg.queueSize && cfg.blockOnQueueFull && !stop
      ensures p == Running ==> s.producers[i].Dropping?
    {
      p := Running;
      if |queue| < cfg.queueSize {
        Put(i, rec);
        p := Finished;
      } else if !cfg.blockOnQueueFull {
        s := Stepped(s, Producer(i, SeeFull));
      } else if stop {
        s := Stepped(s, Producer(i, SeeStop));
      } else {
        p := Parked;
      }
    }

    /** The size check; an oversized record is counted before it is dropped. */
    method Check(ghost i: nat, rec: Record) returns (fits: bool)
      requires Valid() && i < |s.producers| && s.producers[i] == Admitted(rec)
      modifies this
      ensures Valid() && OnlyProducer(i) && fits == !TooBig(cfg, rec)
      ensures s.producers[i] == if fits then Ready(rec) else Dropping(TooLarge)
      ensures queue == old(queue) && readers == old(readers)
      ensures stats == if fits then old(stats) else old(stats).(oversized := old(stats).oversized + 1)
    {
      fits := !(cfg.maxRecordBytes > 0 && rec.size > cfg.maxRecordBytes);
      s := Stepped(s, Producer(i, CheckSize));
      if !fits {
        stats := stats.(oversized := stats.oversized + 1);
        s := Stepped(s, Producer(i, CountOversize));
      }
    }

    /** RUnlock. */
    method Unlock(ghost i: nat)
      requires Valid() && i < |s.producers| && s.producers[i].Leaving? && readers > 0
      modifies this
      ensures Valid() && OnlyProducer(i) && s.producers[i] == Idle
      ensures queue == old(queue) && stats == old(stats) && readers == old(readers) - 1
    {
      readers := readers - 1;
      s := Stepped(s, Producer(i, Leave));
    }

    /** One call of enqueue with no other goroutine in between: a closed sink, an oversized
        record and a full queue each count one drop; any other record goes to the end of the
        queue and counts as enqueued. Only a blocking sink with a full queue parks the call. */
    method Enqueue(ghost i: nat, rec: Record) returns (p: Progress)
      requires Valid() && i < |s.producers| && s.producers[i] == Idle && writer == Free
      modifies this
      ensures Valid() && OnlyProducer(i)
      ensures p == Parked || (p == Finished && s.producers[i] == Idle && readers == old(readers))
      ensures p == Parked <==>
        !closed && !TooBig(cfg, rec) && |old(queue)| >= cfg.queueSize && cfg.blockOnQueueFull
      ensures p == Parked ==> queue == old(queue) && stats == old(stats)
      ensures p == Finished ==>
        if !closed && TooBig(cfg, rec)
        then queue == old(queue)
          && stats == old(stats).(dropped := old(stats).dropped + 1, oversized := old(stats).oversized + 1)
        else if closed || |old(queue)| >= cfg.queueSize
        then queue == old(queue) && stats == old(stats).(dropped := old(stats).dropped + 1)
        else queue == old(queue) + [rec] && stats == old(stats).(enqueued := old(stats).enqueued + 1)
      ensures !closed ==>
        (stats.oversized == old(stats).oversized + 1 <==> 0 < cfg.maxRecordBytes < rec.size)
        && stats.oversized <= old(stats).oversized + 1
      ensures !closed && (cfg.maxRecordBytes <= 0 || rec.size <= cfg.maxRecordBytes) && |old(queue)| < cfg.queueSize ==>
        p == Finished && queue == old(queue) + [rec]
    {
      p := Submit(i, rec);
      if p == Parked {
        return;
      }
      if p == Running {
        Drop(i);
      }
      Unlock(i);
      p := Finished;
    }

    /** enqueue up to where it counts a drop: Running asks for that. */
    method Submit(ghost i: nat, rec: Record) returns (p: Progress)
      requires Valid() && i < |s.producers| && s.producers[i] == Idle && writer == Free
      modifies this
      ensures Valid() && OnlyProducer(i) && readers == old(readers) + 1
      ensures p == Running ==> s.producers[i].Dropping?
      ensures p == Finished ==> s.producers[i] == Leaving(true)
      ensures p == Running <==>
                closed || TooBig(cfg, rec) || (|old(queue)| >= cfg.queueSize && !cfg.blockOnQueueFull)
      ensures p == Finished <==> !closed && !TooBig(cfg, rec) && |old(queue)| < cfg.queueSize
      ensures queue == if p == Finished then old(queue) + [rec] else old(queue)
      ensures p == Finished ==> stats == old(stats).(enqueued := old(stats).enqueued + 1)
      ensures p != Finished && !closed && TooBig(cfg, rec) ==>
                stats == old(stats).(oversized := old(stats).oversized + 1)
      ensures p != Finished && (closed || !TooBig(cfg, rec)) ==> stats == old(stats)
    {
      assert stop ==> closed by { ReachableInv(s); }
      p := Running;
      var open := Admit(i, rec);
      if open {
        var fits := Check(i, rec);
        if fits {
          p := Offer(i, rec);
        }
      }
    }

    // ---- Close ----

    /** The context is stored before `closed`. */
    method StoreClosed()
      requires Valid() && s.gate.closer == NotClosing
      modifies this
      ensures Valid()
      ensures s == old(s).(gate := old(s).gate.(closer := ClosedStored, closeCtxSet := true, closed := true))
    {
      closeCtxSet := true;
      s := Stepped(s, CallClose);
      assert s.gate.closer == CtxStored;
      closed := true;
      s := Stepped(s, Closer);
    }

    /** cancel(), then close(stop). */
    method Interrupt()
      requires Valid() && s.gate.closer == ClosedStored
      modifies this
      ensures Valid()
      ensures s == old(s).(gate := old(s).gate.(closer := StopClosed, cancelled := true, stop := true))
    {
      cancelled := true;
      s := Stepped(s, Closer);
      assert s.gate.closer == CtxCancelled;
      stop := true;
      s := Stepped(s, Closer);
    }

    /** enqueueMu.Lock, close(enqueuesDone), Unlock; parks while a call of enqueue is inside. */
    method WaitForEnqueues() returns (p: Progress)
      requires Valid() && s.gate.closer == StopClosed
      modifies this
      ensures Valid() && s == old(s).(gate := s.gate)
      ensures s.gate == if readers > 0 then old(s.gate).(closer := LockWaiting, writer := Pending)
                        else old(s.gate).(closer := Unlocked, writer := Free, enqueuesDone := true)
      ensures p == if readers > 0 then Parked else Finished
    {
      writer := Pending;
      s := Stepped(s, Closer);
      if readers > 0 {
        return Parked;
      }
      ReleaseDrain();
      p := Finished;
    }

    /** Lock returns. */
    method TakeLock()
      requires Valid() && s.gate.closer == LockWaiting && readers == 0
      modifies this
      ensures Valid() && s == old(s).(gate := old(s).gate.(closer := LockHeld, writer := Held))
    {
      writer := Held;
      s := Stepped(s, Closer);
    }

    method SignalEnqueuesDone()
      requires Valid() && s.gate.closer == LockHeld
      modifies this
      ensures Valid() && s == old(s).(gate := old(s).gate.(closer := EnqueuesDoneClosed, enqueuesDone := true))
    {
      enqueuesDone := true;
      s := Stepped(s, Closer);
    }

    /** The locked section: nobody is inside enqueue. */
    method ReleaseDrain()
      requires Valid() && s.gate.closer == LockWaiting && readers == 0
      modifies this
      ensures Valid() && s == old(s).(gate := old(s).gate.(closer := Unlocked, writer := Free, enqueuesDone := true))
    {
      TakeLock();
      SignalEnqueuesDone();
      writer := Free;
      s := Stepped(s, Closer);
    }

    /** Close with no other goroutine in between, short of its wait for `done`. A second call
        changes nothing. */
    method Close() returns (p: Progress)
      requires Valid()
      modifies this
      ensures Valid() && s == old(s).(gate := s.gate)
      ensures old(closeCtxSet) ==> s == old(s)
      ensures !old(closeCtxSet) ==>
        closeCtxSet && closed && cancelled && stop && enqueuesDone == (readers == 0)
        && (p == Parked <==> readers > 0) && writer == (if p == Parked then Pending else Free)
      ensures ByClose(old(s), s)
    {
      p := Finished;
      CloseStays(s);
      assert closeCtxSet <==> s.gate.closer != NotClosing by { ReachableInv(s); }
      if !closeCtxSet {
        assert !enqueuesDone by { ReachableInv(s); }
        StoreClosed();
        Interrupt();
        p := WaitForEnqueues();
        CloseRuns(old(s), s);
      }
    }

    // ---- ship ----

    /** Everything one ship call leaves alone while other goroutines run. */
    twostate predicate OnlyShipped()
      reads this
    {
      && batch == old(batch) && done == old(done) && s.history.flushed == old(s.history.flushed)
      && s.history.cause == old(s.history.cause) && (old(stop) ==> stop)
      && stats.sent == old(stats.sent) && stats.failed == old(stats.failed)
      && old(queue) <= queue && (old(enqueuesDone) ==> enqueuesDone && queue == old(queue))
      && (old(closed) ==> closed)
    }

    /** One post of the payload, after any interference. */
    method Post(job: Job, text: string, ghost attempt: nat, ghost errs: seq<Err>) returns (x: Exchange)
      requires Valid() && s.worker == Sending(job, attempt, errs)
      modifies this
      ensures Valid() && OnlyShipped() && stats.retried == old(stats.retried)
      ensures s.worker == AfterPost(cfg, Sending(job, attempt, errs), x.answer) && x.text == text
      ensures x.answer.Failed? ==> x.answer.e != Unsendable
    {
      Yield();
      var o := Transport(job.ctx);
      s := Stepped(s, Worker(WorkerStep.Post(o)));
      x := Exchange(text, o);
    }

    /** retryErr. */
    method RetryErr(job: Job, ghost attempt: nat, ghost errs: seq<Err>)
      requires Valid() && s.worker == Retrying(job, attempt, errs)
      modifies this
      ensures Valid() && OnlyShipped() && stats.retried == old(stats.retried) + 1
      ensures s.worker == Waiting(job, attempt, errs)
    {
      stats := stats.(retried := stats.retried + 1);
      s := Stepped(s, Worker(CountRetry));
    }

    /** waitRetry: the timer fires, perhaps together with the cancellation, or the context's
        error comes back. */
    method WaitRetry(job: Job, ghost attempt: nat, ghost errs: seq<Err>) returns (cut: Option<Err>)
      requires Valid() && s.worker == Waiting(job, attempt, errs)
      modifies this
      ensures Valid() && OnlyShipped() && stats.retried == old(stats.retried)
      ensures s.worker == if cut.None? then Sending(job, attempt + 1, errs) else Shipped(job, false, errs + [cut.value])
      ensures cut.Some? ==> cut == Ended(job.ctx)
    {
      Yield();
      cut := Ended(job.ctx);
      if * {
        cut := None;
      }
      EndWait(job, attempt, errs, cut);
    }

    /** Either case of its select. */
    method EndWait(ghost job: Job, ghost attempt: nat, ghost errs: seq<Err>, ghost cut: Option<Err>)
      requires Valid() && s.worker == Waiting(job, attempt, errs)
      requires cut.Some? ==> cut == Ended(job.ctx)
      modifies this`s
      ensures Valid()
      ensures s == old(s).(worker := if cut.None? then Sending(job, attempt + 1, errs)
                                     else Shipped(job, false, errs + [cut.value]))
    {
      assert Ended(job.ctx) == CtxErr(s, job.ctx);
      WaitEnds(s, job, attempt, errs, cut);
      s := Stepped(s, Worker(Wait(cut.Some?)));
    }

    /** retryErr, then waitRetry. */
    method Retry(job: Job, ghost attempt: nat, ghost errs: seq<Err>) returns (cut: Option<Err>)
      requires Valid() && s.worker == Retrying(job, attempt, errs)
      modifies this
      ensures Valid() && OnlyShipped() && stats.retried == old(stats.retried) + 1
      ensures s.worker == if cut.None? then Sending(job, attempt + 1, errs) else Shipped(job, false, errs + [cut.value])
      ensures cut.Some? ==> cut == Ended(job.ctx)
    {
      RetryErr(job, attempt, errs);
      cut := WaitRetry(job, attempt, errs);
    }

    /** One turn of the loop of ship, from an earlier record `was`. */
    method TryOnce(job: Job, text: string, attempt: nat, met: seq<Err>, was: Attempts)
      returns (over: bool, ok: bool, errs: seq<Err>, a: Attempts)
      requires Valid() && s.worker == Sending(job, attempt, met) && Trying(cfg, was, attempt, met)
      modifies this
      ensures Valid() && OnlyShipped() && stats.retried + |was.delays| == old(stats.retried) + |a.delays|
      ensures over ==> s.worker == Shipped(job, ok, errs) && Reports(cfg, a, ok, errs) && a.log != []
      ensures !over ==> s.worker == Sending(job, attempt + 1, errs) && Trying(cfg, a, attempt + 1, errs)
      ensures |a.log| == |was.log| + 1 && a.log[..|was.log|] == was.log && a.log[|was.log|].text == text
    {
      ok, errs, a := false, met, was;
      var x := Post(job, text, attempt, errs);
      TryEnds(cfg, a, attempt, errs, x);
      a := a.(log := a.log + [x]);
      if x.answer == Accepted {
        return true, true, errs, a;
      }
      errs := errs + [x.answer.e];
      if attempt == cfg.maxRetries || !Retryable(x.answer.e) {
        return true, false, errs, a;
      }
      a := a.(delays := a.delays + [Delay(cfg.retryBackoff, cfg.maxBackoff, attempt)]);
      var cut := Retry(job, attempt, errs);
      TryAgain(cfg, was, attempt, met, x, if cut.Some? then cut.value else Canceled);
      if cut.Some? {
        return true, false, errs + [cut.value], a.(cut := true);
      }
      over := false;
    }

    /** The loop of ship: post until an answer ends it, a wait is cut short, or the attempts
        run out. `a` records what it did. */
    method TrySends(job: Job, text: string) returns (ok: bool, errs: seq<Err>, a: Attempts)
      requires Valid() && s.worker == Sending(job, 0, [])
      modifies this
      ensures Valid() && OnlyShipped() && s.worker == Shipped(job, ok, errs)
      ensures Reports(cfg, a, ok, errs) && stats.retried == old(stats.retried) + |a.delays|
      ensures a.log != [] && AllPosted(a.log, text) && TellsApart(cfg, a)
    {
      ok, errs, a := false, [], NO_ATTEMPT;
      var attempt: nat := 0;
      var over := false;
      while !over
        invariant Valid() && OnlyShipped() && stats.retried == old(stats.retried) + |a.delays|
        invariant !over ==> s.worker == Sending(job, attempt, errs) && Trying(cfg, a, attempt, errs)
        invariant over ==> s.worker == Shipped(job, ok, errs) && Reports(cfg, a, ok, errs) && a.log != []
        invariant AllPosted(a.log, text)
        decreases !over, cfg.maxRetries - attempt
      {
        ghost var was := a.log;
        over, ok, errs, a := TryOnce(job, text, attempt, errs, a);
        OneMorePosted(was, a.log, text);
        if !over {
          attempt := attempt + 1;
        }
      }
      ReportsTellApart(cfg, a, ok, errs);
    }

    /** One call of ship: a batch that cannot be marshalled or is too large is never sent. */
    method Ship(job: Job) returns (ok: bool, errs: seq<Err>, a: Attempts)
      requires Valid() && s.worker == Marshal(job)
      modifies this
      ensures Valid() && OnlyShipped() && s.worker == Shipped(job, ok, errs)
      ensures Reports(cfg, a, ok, errs) && stats.retried == old(stats.retried) + |a.delays|
      ensures Posts(payload(batch), a) && TellsApart(cfg, a)
    {
      var text := payload(batch);
      s := Stepped(s, Worker(BuildPayload(text.Some?)));
      if text.None? {
        return false, [Unsendable], NO_ATTEMPT;
      }
      ok, errs, a := TrySends(job, text.value);
    }

    // ---- flush ----

    /** shipContext: closed.Load(), then m.closeCtx or m.ctx. */
    method ShipContext(ret: Return) returns (job: Job)
      requires Valid() && s.worker == PickCtx(ret)
      modifies this
      ensures Valid() && OnlyShipped() && stats.retried == old(stats.retried)
      ensures s.worker == Marshal(job) && job == Job(ret, 1, if closed then CloseCtx else OwnCtx)
    {
      Yield();
      var open := !closed;
      s := Stepped(s, Worker(LoadClosedFlag));
      if open {
        return Job(ret, 1, OwnCtx);
      }
      ReadCloseContext(ret, 1);
      return Job(ret, 1, CloseCtx);
    }

    /** The check after the first shipment: a cancelled shipment of a closed sink runs again
        under Close's context. */
    method Reship(job: Job, ok: bool, errs: seq<Err>) returns (again: bool)
      requires Valid() && s.worker == Shipped(job, ok, errs) && job.nth == 1
      modifies this
      ensures Valid() && OnlyShipped() && stats.retried == old(stats.retried)
      ensures again <==> !ok && Canceled in errs && closed
      ensures again ==> s.worker == Marshal(Job(job.ret, 2, CloseCtx))
      ensures !again ==> s.worker == Counting(job, ok, errs)
      ensures !again && !ok && job.ctx == OwnCtx ==> Canceled !in errs
    {
      Yield();
      again := !ok && Canceled in errs && closed;
      DecideAgain(job, ok, errs);
      if again {
        ReadCloseContext(job.ret, 2);
      }
    }

    method DecideAgain(ghost job: Job, ghost ok: bool, ghost errs: seq<Err>)
      requires Valid() && s.worker == Shipped(job, ok, errs) && job.nth == 1
      modifies this`s
      ensures Valid()
      ensures s == old(s).(worker := if !ok && Canceled in errs && closed then ReadCloseCtx(job.ret, 2)
                                     else Counting(job, ok, errs))
      ensures s.worker.Counting? && !ok && job.ctx == OwnCtx ==> Canceled !in errs
    {
      s := Stepped(s, Worker(Decide));
      ReachableInv(s);
    }

    /** Reading m.closeCtx, on a closed sink. */
    method ReadCloseContext(ghost ret: Return, ghost nth: nat)
      requires Valid() && s.worker == ReadCloseCtx(ret, nth)
      modifies this`s
      ensures Valid() && s == old(s).(worker := Marshal(Job(ret, nth, CloseCtx)))
    {
      s := Stepped(s, Worker(LoadCloseCtx));
    }

    /** sent.Add or failed.Add, then batch = batch[:0]. */
    method Settle(job: Job, ok: bool, ghost errs: seq<Err>)
      requires Valid() && s.worker == Counting(job, ok, errs)
      modifies this
      ensures Valid() && s.worker == Back(job.ret) && batch == [] && queue == old(queue)
      ensures s.gate == old(s.gate) && done == old(done)
      ensures s.history.flushed == old(s.history.flushed) + [Shipment(old(batch), ok, old(s.history.cause))]
      ensures stats == if ok then old(stats).(sent := old(stats).sent + |old(batch)|)
                       else old(stats).(failed := old(stats).failed + |old(batch)|)
    {
      if ok {
        stats := stats.(sent := stats.sent + |batch|);
      } else {
        stats := stats.(failed := stats.failed + |batch|);
      }
      batch := [];
      s := Stepped(s, Worker(Count));
    }

    /** ship(m.closeCtx), the second shipment; its error is final. */
    method ShipAgain(job: Job) returns (ok: bool, errs: seq<Err>, a: Attempts)
      requires Valid() && s.worker == Marshal(job) && job.nth == 2
      modifies this
      ensures Valid() && OnlyShipped() && s.worker == Counting(job, ok, errs)
      ensures Reports(cfg, a, ok, errs) && stats.retried == old(stats.retried) + |a.delays|
      ensures Posts(payload(batch), a) && TellsApart(cfg, a)
    {
      ok, errs, a := Ship(job);
      s := Stepped(s, Worker(Decide));
    }

    /** The body of flush for a batch that is not empty, up to the counting. */
    method Deliver(ret: Return) returns (job: Job, ok: bool, errs: seq<Err>, first: Attempts, second: Option<Attempts>)
      requires Valid() && s.worker == PickCtx(ret)
      modifies this
      ensures Valid() && OnlyShipped() && s.worker == Counting(job, ok, errs) && job.ret == ret
      ensures Reports(cfg, if second.Some? then second.value else first, ok, errs)
      ensures second.Some? ==> Disciplined(cfg, first) && !Delivered(first) && job.ctx == CloseCtx
      ensures second.None? && !ok && job.ctx == OwnCtx ==> Canceled !in errs
      ensures Posts(payload(batch), first) && (second.Some? ==> Posts(payload(batch), second.value))
      ensures payload(batch).None? ==> second.None?
      ensures TellsApart(cfg, first) && (second.Some? ==> TellsApart(cfg, second.value))
      ensures stats.retried == old(stats.retried) + |first.delays| + (if second.Some? then |second.value.delays| else 0)
    {
      second := None;
      job := ShipContext(ret);
      ok, errs, first := Ship(job);
      var again := Reship(job, ok, errs);
      if again {
        var a;
        job := Job(ret, 2, CloseCtx);
        ok, errs, a := ShipAgain(job);
        second := Some(a);
      }
    }

    /** flush: an empty batch is nothing to do; any other batch is shipped, once more if Close
        cut it off, and counted as sent exactly when the last shipment was delivered. At most
        2 * (maxRetries + 1) posts in all. */
    method Flush(ret: Return) returns (ok: bool, first: Attempts, second: Option<Attempts>)
      requires Valid() && s.worker == StartFlush(batch, ret)
      modifies this
      ensures Valid() && s.worker == Back(ret) && batch == [] && done == old(done)
      ensures old(queue) <= queue && (old(enqueuesDone) ==> enqueuesDone && queue == old(queue))
      ensures old(stop) ==> stop
      ensures old(batch) == [] ==> stats == old(stats) && s.history.flushed == old(s.history.flushed)
      ensures old(batch) != [] ==>
        && s.history.flushed == old(s.history.flushed) + [Shipment(old(batch), ok, old(s.history.cause))]
        && stats.sent == old(stats.sent) + (if ok then |old(batch)| else 0)
        && stats.failed == old(stats.failed) + (if ok then 0 else |old(batch)|)
        && stats.retried == old(stats.retried) + |first.delays| + (if second.Some? then |second.value.delays| else 0)
        && ok == Delivered(if second.Some? then second.value else first)
      ensures |first.log| + (if second.Some? then |second.value.log| else 0) <= 2 * (cfg.maxRetries + 1)
      ensures old(batch) != [] ==>
        Posts(payload(old(batch)), first) && (second.Some? ==> Posts(payload(old(batch)), second.value))
      ensures old(batch) != [] && payload(old(batch)).None? ==> second.None? && !ok
      ensures TellsApart(cfg, first) && (second.Some? ==> TellsApart(cfg, second.value))
    {
      ok, first, second := true, NO_ATTEMPT, None;
      if batch == [] {
        return;
      }
      var job, errs;
      job, ok, errs, first, second := Deliver(ret);
      Settle(job, ok, errs);
    }

    // ---- run ----

    /** What the worker still owes: counted records, then its batch, then the queue. */
    ghost function Owed(): seq<Record>
      reads this
    {
      Records(s.history.flushed) + batch + queue
    }

    /** The receive case of either select. The record joins the batch; nothing is shipped while
        the batch is short of batchSize, and a batch that reaches it is shipped at once, alone. */
    method Take(ret: Return)
      requires Valid() && ret != Exit && s.worker == Back(ret) && queue != []
      modifies this
      ensures Valid() && s.worker == Back(ret) && done == old(done) && (old(stop) ==> stop)
      ensures |old(batch)| + 1 < cfg.batchSize ==>
        && batch == old(batch) + [old(queue)[0]] && queue == old(queue)[1..]
        && s.history.flushed == old(s.history.flushed)
      ensures |old(batch)| + 1 >= cfg.batchSize ==>
        && batch == [] && old(queue)[1..] <= queue && |old(batch)| + 1 == cfg.batchSize
        && OneMore(old(s.history.flushed), s.history.flushed, old(batch) + [old(queue)[0]])
      ensures old(enqueuesDone) ==> enqueuesDone && queue == old(queue)[1..] && Owed() == old(Owed())
    {
      ShortOfFull();
      MoveOne(Records(s.history.flushed), batch, queue);
      s := Stepped(s, Worker(Receive));
      batch, queue := batch + [queue[0]], queue[1..];
      if |batch| >= cfg.batchSize {
        var ok, first, second := FlushKeepingOrder(ret);
      }
    }

    /** Between flushes the batch is short of batchSize. */
    lemma ShortOfFull()
      requires Valid() && !InFlush(s.worker)
      ensures |batch| < cfg.batchSize
    {
      ReachableInv(s);
    }

    /** Flush, with what it means for the order of records. */
    method FlushKeepingOrder(ret: Return) returns (ok: bool, first: Attempts, second: Option<Attempts>)
      requires Valid() && s.worker == StartFlush(batch, ret)
      modifies this
      ensures Valid() && s.worker == Back(ret) && batch == [] && done == old(done) && (old(stop) ==> stop)
      ensures old(queue) <= queue
      ensures old(batch) == [] ==> s.history.flushed == old(s.history.flushed)
      ensures old(batch) != [] ==> OneMore(old(s.history.flushed), s.history.flushed, old(batch))
      ensures old(enqueuesDone) ==> enqueuesDone && queue == old(queue) && Owed() == old(Owed())
    {
      ghost var f, b, q, why := s.history.flushed, batch, queue, s.history.cause;
      ok, first, second := Flush(ret);
      if b != [] {
        assert (f + [Shipment(b, ok, why)])[..|f|] == f;
        assert Records(f) + b + [] + q == Records(f) + b + q;
      }
    }

    /** The drain loop and the deferred close(done). Every record accepted before
        enqueuesDone was closed is shipped, in order, before `done` closes. */
    method Drain()
      requires Valid() && s.worker == Draining && !done
      modifies this
      ensures Valid() && done && queue == [] && batch == []
      ensures Records(s.history.flushed) == old(Owed()) && old(s.history.flushed) <= s.history.flushed
      ensures stats.enqueued == stats.sent + stats.failed == |s.history.accepted|
      ensures Records(s.history.flushed) == s.history.accepted
    {
      assert enqueuesDone by { ReachableInv(s); }
      while queue != []
        invariant Valid() && s.worker == Draining && enqueuesDone && !done && Owed() == old(Owed())
        invariant old(s.history.flushed) <= s.history.flushed
        decreases |queue|
      {
        Take(Return.Drain);
      }
      LastFlush();
    }

    /** The default case of the drain loop, then close(done). */
    method LastFlush()
      requires Valid() && s.worker == Draining && !done && enqueuesDone && queue == []
      modifies this
      ensures Valid() && done && queue == [] && batch == []
      ensures Records(s.history.flushed) == old(Owed()) && old(s.history.flushed) <= s.history.flushed
      ensures stats.enqueued == stats.sent + stats.failed == |s.history.accepted|
      ensures Records(s.history.flushed) == s.history.accepted
    {
      FlushRest();
      SignalDone();
    }

    method FlushRest()
      requires Valid() && s.worker == Draining && enqueuesDone && queue == []
      modifies this
      ensures Valid() && s.worker == Exiting && Records(s.history.flushed) == old(Owed())
      ensures old(s.history.flushed) <= s.history.flushed
    {
      s := Stepped(s, Worker(DrainEmpty));
      var ok, first, second := FlushKeepingOrder(Exit);
      assert Owed() == Records(s.history.flushed) + [] + queue;
    }

    /** close(done). */
    method SignalDone()
      requires Valid() && s.worker == Exiting
      modifies this
      ensures Valid() && done && queue == [] && batch == [] && s.history == old(s.history)
      ensures stats.enqueued == stats.sent + stats.failed == |s.history.accepted|
      ensures Records(s.history.flushed) == s.history.accepted
    {
      done := true;
      s := Stepped(s, Worker(CloseDone));
      NothingLostAtShutdown(s);
    }

    /** The main loop under a finite schedule of select choices, with what the worker saw at each.
        A choice that is not ready is passed over; a received record joins the batch, which is
        shipped when it has batchSize records; a tick ships what there is. Taking `stop` waits
        for enqueuesDone and drains. */
    method Run(schedule: seq<Choice>) returns (p: Progress, seen: seq<Seen>)
      requires Valid() && s.worker == Select && !done
      modifies this
      ensures Valid() && (p == Finished <==> done)
      ensures OnSchedule(schedule, seen) && (p != Running <==> Stopped(seen))
      ensures p == Running ==> |seen| == |schedule|
      ensures Chained(old(queue), old(stop), seen)
      ensures var w := Worked(cfg.batchSize, Work(BatchesOf(old(s.history.flushed)), old(batch)), seen);
              && w.batches <= BatchesOf(s.history.flushed)
              && (p != Finished ==> w == Work(BatchesOf(s.history.flushed), batch))
      ensures p == Running ==> s.worker == Select && Followed(old(queue), old(stop), seen, queue, stop)
      ensures p == Finished ==> queue == [] && batch == [] && stats.enqueued == stats.sent + stats.failed
      ensures p == Finished ==> Records(s.history.flushed) == s.history.accepted
      ensures p == Parked ==> s.worker == AwaitEnqueuesDone && stop
    {
      seen := Loop(schedule);
      p := Running;
      if Stopped(seen) {
        p := Stop();
      }
    }

    /** The loop up to where `stop` is taken, or the schedule is used up. */
    method Loop(schedule: seq<Choice>) returns (seen: seq<Seen>)
      requires Valid() && s.worker == Select && !done
      modifies this
      ensures Valid() && s.worker == Select && !done
      ensures InStep(cfg.batchSize, schedule, seen, Start(old(queue), old(stop), old(Done())), Start(queue, stop, Done()))
      ensures |seen| < |schedule| ==> Stopped(seen)
      ensures Stopped(seen) ==> stop
    {
      ghost var from := Start(queue, stop, Done());
      seen := [];
      var stopped := false;
      while |seen| < |schedule| && !stopped
        invariant Valid() && s.worker == Select && !done
        invariant InStep(cfg.batchSize, schedule, seen, from, Start(queue, stop, Done()))
        invariant stopped == Stopped(seen) && (stopped ==> stop)
        decreases |schedule| - |seen|
      {
        seen, stopped := NextTurn(schedule, seen, from);
      }
    }

    /** The shipped batches and the one being filled. */
    ghost function Done(): Work
      reads this
    {
      Work(BatchesOf(s.history.flushed), batch)
    }

    method NextTurn(schedule: seq<Choice>, seen: seq<Seen>, ghost from: Start)
      returns (more: seq<Seen>, stopped: bool)
      requires Valid() && s.worker == Select && !done
      requires InStep(cfg.batchSize, schedule, seen, from, Start(queue, stop, Done()))
      requires |seen| < |schedule| && !Stopped(seen)
      modifies this
      ensures Valid() && s.worker == Select && !done && |more| == |seen| + 1
      ensures InStep(cfg.batchSize, schedule, more, from, Start(queue, stop, Done()))
      ensures stopped == Stopped(more) && (stopped ==> stop)
    {
      ghost var w := Done();
      ghost var at := Start(queue, stop, w);
      Yield();
      var x := Seen(schedule[|seen|], queue, stop);
      stopped := TakesStop(x);
      if !stopped {
        TakeTurn(x);
      }
      more := seen + [x];
      StepOn(cfg.batchSize, schedule, seen, from, at, x, Start(queue, stop, Done()));
    }

    /** One turn of the loop that does not take `stop`. */
    method TakeTurn(x: Seen)
      requires Valid() && s.worker == Select && !done && x.queue == queue && x.stop == stop && !TakesStop(x)
      modifies this
      ensures Valid() && s.worker == Select && !done && Left(x) <= queue && (x.stop ==> stop)
      ensures Work(BatchesOf(s.history.flushed), batch)
           == Turn(cfg.batchSize, Work(BatchesOf(old(s.history.flushed)), old(batch)), x)
    {
      if x.choice == ChooseQueue && queue != [] {
        TakeOne(x);
      } else if x.choice == ChooseTick {
        FlushOnTick(x);
      }
    }

    method TakeOne(x: Seen)
      requires Valid() && s.worker == Select && !done && x.choice == ChooseQueue && x.queue == queue != []
      modifies this
      ensures Valid() && s.worker == Select && !done && Left(x) <= queue && (old(stop) ==> stop)
      ensures Work(BatchesOf(s.history.flushed), batch)
           == Turn(cfg.batchSize, Work(BatchesOf(old(s.history.flushed)), old(batch)), x)
    {
      ghost var f, records := s.history.flushed, batch + [queue[0]];
      Take(Main);
      if |records| >= cfg.batchSize { BatchesOneMore(f, s.history.flushed, records); }
    }

    method FlushOnTick(x: Seen)
      requires Valid() && s.worker == Select && !done && x.choice == ChooseTick && x.queue == queue
      modifies this
      ensures Valid() && s.worker == Select && !done && Left(x) <= queue && (old(stop) ==> stop)
      ensures Work(BatchesOf(s.history.flushed), batch)
           == Turn(cfg.batchSize, Work(BatchesOf(old(s.history.flushed)), old(batch)), x)
    {
      ghost var f, records := s.history.flushed, batch;
      s := Stepped(s, Worker(Tick));
      var ok, first, second := FlushKeepingOrder(Main);
      if records != [] { BatchesOneMore(f, s.history.flushed, records); }
    }

    /** The stop case: <-m.enqueuesDone, then the drain loop. */
    method Stop() returns (p: Progress)
      requires Valid() && s.worker == Select && stop && !done
      modifies this
      ensures Valid() && p != Running && (p == Finished <==> done)
      ensures p == Finished ==> queue == [] && batch == [] && stats.enqueued == stats.sent + stats.failed
      ensures p == Finished ==> Records(s.history.flushed) == s.history.accepted
      ensures p == Parked ==> s.worker == AwaitEnqueuesDone && stop
      ensures BatchesOf(old(s.history.flushed)) <= BatchesOf(s.history.flushed)
      ensures p == Parked ==> s.history.flushed == old(s.history.flushed) && batch == old(batch)
    {
      s := Stepped(s, Worker(TakeStop));
      Yield();
      if !enqueuesDone {
        return Parked;
      }
      PassAndDrain();
      p := Finished;
    }

    /** <-m.enqueuesDone does not block any more. */
    method PassAndDrain()
      requires Valid() && s.worker == AwaitEnqueuesDone && enqueuesDone && !done
      modifies this
      ensures Valid() && done && queue == [] && batch == []
      ensures stats.enqueued == stats.sent + stats.failed && Records(s.history.flushed) == s.history.accepted
      ensures BatchesOf(old(s.history.flushed)) <= BatchesOf(s.history.flushed)
    {
      s := Stepped(s, Worker(PassEnqueuesDone));
      ghost var f := s.history.flushed;
      Drain();
      BatchesPrefix(f, s.history.flushed);
    }
  }
}
