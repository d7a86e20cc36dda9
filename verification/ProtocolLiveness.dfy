/** Close never deadlocks, and in every fair infinite run the worker closes `done`. */
module SinkLiveness {
  import opened Options
  import opened SinkProtocol
  import opened SinkInvariant
  import opened SinkShutdown

  // ---- who has to move ----

  datatype Actor = AProducer(i: nat) | ACloser | AWorker

  /** The goroutine that takes the step. Starting a new call, a tick, and what the caller's
      context does are nobody's duty. */
  function Owner(l: Label): Option<Actor> {
    match l
    case Producer(i, p) => if p.Enter? then None else Some(AProducer(i))
    case Closer => Some(ACloser)
    case Worker(w) => if w == Tick then None else Some(AWorker)
    case _ => None
  }

  ghost predicate CanMove(s: State, a: Actor) {
    exists l :: Owner(l) == Some(a) && Enabled(s, l)
  }

  // ---- runs and fairness ----

  ghost predicate StepAt(r: nat -> State, l: nat -> Label, i: nat) {
    Next(r(i), l(i), r(i + 1))
  }

  ghost predicate IsRun(r: nat -> State, l: nat -> Label) {
    Initial(r(0)) && forall i: nat :: StepAt(r, l, i)
  }

  /** No goroutine is able to move forever without moving. */
  ghost predicate Fair(r: nat -> State, l: nat -> Label) {
    forall a: Actor, i: nat :: MovesOrBlocked(r, l, a, i)
  }

  ghost predicate MovesOrBlocked(r: nat -> State, l: nat -> Label, a: Actor, i: nat) {
    exists j: nat :: i <= j && (Owner(l(j)) == Some(a) || !CanMove(r(j), a))
  }

  lemma {:induction false} RunReaches(r: nat -> State, l: nat -> Label, i: nat)
    requires IsRun(r, l)
    ensures Inv(r(i))
  {
    if i == 0 {
      InitialInv(r(0));
    } else {
      RunReaches(r, l, i - 1);
      assert StepAt(r, l, i - 1);
      NextKeepsInv(r(i - 1), l(i - 1));
    }
  }

  lemma {:induction false} RunIsReachable(r: nat -> State, l: nat -> Label, i: nat)
    requires IsRun(r, l)
    ensures Reachable(r(i))
  {
    if i == 0 {
      InitialReachable(r(0));
    } else {
      RunIsReachable(r, l, i - 1);
      assert StepAt(r, l, i - 1);
      ReachableNext(r(i - 1), l(i - 1));
    }
  }

  lemma GateIsCloses(s: State, i: nat, p: ProducerStep)
    requires ProducerEnabled(s, i, p)
    ensures ProducerApply(s, i, p).gate == s.gate
  {
  }

  lemma CloseIsKept(s: State, l: Label)
    requires Enabled(s, l) && s.gate.closeCtxSet
    ensures Apply(s, l).gate.closeCtxSet
  {
    match l
    case Producer(i, p) => GateIsCloses(s, i, p);
    case _ =>
  }

  lemma {:induction false} StaysClosed(r: nat -> State, l: nat -> Label, i: nat, k: nat)
    requires IsRun(r, l) && i <= k && r(i).gate.closeCtxSet
    ensures r(k).gate.closeCtxSet
    decreases k - i
  {
    if i < k {
      assert StepAt(r, l, i);
      CloseIsKept(r(i), l(i));
      StaysClosed(r, l, i + 1, k);
    }
  }

  // ---- the ranking ----

  function StepsLeft(pc: ProducerPc): nat {
    match pc
    case Idle => 0 case Leaving(_) => 1 case Dropping(_) => 2 case Sent => 2
    case Oversize => 3 case Ready(_) => 3 case Admitted(_) => 4 case Entered(_) => 5
  }

  /** Steps from `attempt` to the end of one ship call, when none succeeds early. */
  function ShipLeft(pc: WorkerPc, r: int): int {
    match pc
    case Marshal(_) => 3 * r + 4
    case Sending(_, a, _) => 3 * (r - a) + 3
    case Retrying(_, a, _) => 3 * (r - a) + 2
    case Waiting(_, a, _) => 3 * (r - a) + 1
    case _ => 2
  }

  /** One whole flush, with its second shipment. */
  function FlushCost(r: int): int { 6 * r + 12 }

  function FlushLeft(pc: WorkerPc, r: int): int {
    match pc
    case PickCtx(_) => FlushCost(r)
    case ReadCloseCtx(_, nth) => if nth == 1 then FlushCost(r) - 1 else 3 * r + 5
    case Counting(_, _, _) => 1
    case _ => ShipLeft(pc, r) + if HasJob(pc) && pc.job.nth == 1 then 3 * r + 4 else 0
  }

  function Home(pc: WorkerPc): int {
    match pc
    case AwaitEnqueuesDone => 3
    case Exited => 0
    case _ => match RetOf(pc) case Main => 4 case Drain => 2 case Exit => 1
  }

  function QueueCost(n: nat, r: nat): nat {
    if n == 0 then 0 else QueueCost(n - 1, r) + FlushCost(r) + 2
  }

  /** What the worker still has to do when nothing is added to the queue any more. */
  function WorkLeft(s: State): int {
    var r: nat := if s.cfg.maxRetries >= 0 then s.cfg.maxRetries else 0;
    Home(s.worker) + QueueCost(|s.queue|, r)
    + (if InFlush(s.worker) then FlushLeft(s.worker, r) else if s.batch == [] then 0 else FlushCost(r) + 1)
  }

  datatype Rank = Rank(phases: int, steps: int)

  predicate Less(a: Rank, b: Rank) {
    0 <= a.phases && 0 <= a.steps && (a.phases < b.phases || (a.phases == b.phases && a.steps < b.steps))
  }

  function RankOf(s: State): Rank {
    var c := Phase(s.gate.closer);
    Rank(if c >= 7 then 0 else 7 - c,
         if c == 5 then SumBy(StepsLeft, s.producers) else if c >= 7 then WorkLeft(s) else 0)
  }

  /** A goroutine whose next step brings shutdown nearer. */
  predicate Helpful(s: State, a: Actor) {
    var c := Phase(s.gate.closer);
    match a
    case ACloser => (1 <= c <= 6 && c != 5) || (c == 5 && s.readers == 0)
    case AProducer(i) => c == 5 && i < |s.producers| && s.producers[i] != Idle
    case AWorker => c >= 7 && !s.done
  }

  lemma SomebodyIsHelpful(s: State) returns (a: Actor)
    requires Inv(s) && s.gate.closeCtxSet && !s.done
    ensures Helpful(s, a)
  {
    a := if Phase(s.gate.closer) >= 7 then AWorker else ACloser;
    if Phase(s.gate.closer) == 5 && s.readers > 0 {
      SumZero(Inside, s.producers);
      var i :| 0 <= i < |s.producers| && Inside(s.producers[i]) != 0;
      a := AProducer(i);
    }
  }

  function ProducerMove(s: State, i: nat): ProducerStep
    requires i < |s.producers|
  {
    match s.producers[i]
    case Idle => Leave
    case Entered(_) => LoadClosed
    case Admitted(_) => CheckSize
    case Ready(_) => if |s.queue| < s.cfg.queueSize then Send else if s.cfg.blockOnQueueFull then SeeStop else SeeFull
    case Oversize => CountOversize
    case Dropping(_) => CountDrop
    case Sent => CountEnqueue
    case Leaving(_) => Leave
  }

  function WorkerMove(s: State): WorkerStep {
    match s.worker
    case Select => TakeStop
    case AwaitEnqueuesDone => PassEnqueuesDone
    case Draining => if s.queue == [] then DrainEmpty else Receive
    case Exiting => CloseDone
    case PickCtx(_) => LoadClosedFlag
    case ReadCloseCtx(_, _) => LoadCloseCtx
    case Marshal(_) => BuildPayload(true)
    case Sending(_, _, _) => Post(Accepted)
    case Retrying(_, _, _) => CountRetry
    case Waiting(_, _, _) => Wait(false)
    case Shipped(_, _, _) => Decide
    case _ => Count
  }

  lemma HelpfulCanMove(s: State, a: Actor)
    requires Inv(s) && Helpful(s, a)
    ensures CanMove(s, a)
  {
    match a
    case ACloser => assert Owner(Closer) == Some(a) && Enabled(s, Closer);
    case AProducer(i) => 
      var l := Producer(i, ProducerMove(s, i));
      assert Owner(l) == Some(a) && Enabled(s, l);
    case AWorker =>
      var l := Worker(WorkerMove(s));
      assert Owner(l) == Some(a) && Enabled(s, l);
  }

  /** Deadlock freedom: from the moment Close has started until `done` closes, some
      goroutine is able to take a step of its own. */
  lemma ShutdownNeverStuck(s: State)
    requires Reachable(s) && s.gate.closeCtxSet && !s.done
    ensures exists a :: CanMove(s, a)
  {
    ReachableInv(s);
    var a := SomebodyIsHelpful(s);
    HelpfulCanMove(s, a);
  }

  // ---- no step takes the rank up, a helpful one takes it down ----

  lemma ProducerRank(s: State, i: nat, p: ProducerStep)
    requires Inv(s) && ProducerEnabled(s, i, p) && Phase(s.gate.closer) >= 1
    ensures Less(RankOf(ProducerApply(s, i, p)), RankOf(s))
         || (RankOf(ProducerApply(s, i, p)) == RankOf(s) && Phase(s.gate.closer) != 5)
  {
    if Phase(s.gate.closer) == 5 {
      ProducerMovesOn(s, i, p);
    } else {
      ProducerLeavesWork(s, i, p);
    }
  }

  lemma ProducerMovesOn(s: State, i: nat, p: ProducerStep)
    requires Published(s) && ProducerEnabled(s, i, p) && Phase(s.gate.closer) == 5
    ensures Less(RankOf(ProducerApply(s, i, p)), RankOf(s))
  {
    GateIsCloses(s, i, p);
    SumUpdate(StepsLeft, s.producers, i, ProducerApply(s, i, p).producers[i]);
  }

  lemma ProducerLeavesWork(s: State, i: nat, p: ProducerStep)
    requires Locked(s) && ProducerEnabled(s, i, p) && Phase(s.gate.closer) != 5
    ensures RankOf(ProducerApply(s, i, p)) == RankOf(s)
  {
    GateIsCloses(s, i, p);
    var s' := ProducerApply(s, i, p);
    assert s'.worker == s.worker && s'.batch == s.batch && s'.cfg == s.cfg;
    assert Phase(s.gate.closer) >= 7 ==> s'.queue == s.queue;
  }

  lemma ReceiveRank(s: State)
    requires Bounded(s) && WorkerEnabled(s, Receive)
    ensures 0 <= WorkLeft(WorkerApply(s, Receive)) < WorkLeft(s)
  {
    var s' := WorkerApply(s, Receive);
    assert |s'.queue| == |s.queue| - 1 && s'.batch != [];
    assert Home(s'.worker) == Home(s.worker);
  }

  lemma LoopRank(s: State, w: WorkerStep)
    requires Bounded(s) && WorkerEnabled(s, w) && !InFlush(s.worker) && w != Receive
    ensures 0 <= WorkLeft(WorkerApply(s, w))
    ensures if w == Tick then WorkLeft(WorkerApply(s, w)) <= WorkLeft(s)
            else WorkLeft(WorkerApply(s, w)) < WorkLeft(s)
  {
    var s' := WorkerApply(s, w);
    assert s'.queue == s.queue && s'.batch == s.batch;
  }

  lemma FlushRank(s: State, w: WorkerStep)
    requires Bounded(s) && ShipsSafely(s) && WorkerEnabled(s, w) && InFlush(s.worker)
    ensures 0 <= WorkLeft(WorkerApply(s, w)) < WorkLeft(s)
  {
    var pc, pc' := s.worker, WorkerApply(s, w).worker;
    if w == Count {
      assert Home(pc') <= Home(pc);
    } else {
      WithinFlush(s, w);
    }
  }

  lemma WithinFlush(s: State, w: WorkerStep)
    requires Bounded(s) && ShipsSafely(s) && WorkerEnabled(s, w) && InFlush(s.worker) && w != Count
    ensures var s' := WorkerApply(s, w);
      && InFlush(s'.worker) && RetOf(s'.worker) == RetOf(s.worker) && s'.queue == s.queue && s'.cfg == s.cfg
      && 0 <= FlushLeft(s'.worker, s.cfg.maxRetries) < FlushLeft(s.worker, s.cfg.maxRetries)
  {
  }

  /** Every step of a goroutine on the worker's side of shutdown brings the end nearer. */
  lemma WorkerRank(s: State, w: WorkerStep)
    requires Inv(s) && WorkerEnabled(s, w)
    ensures 0 <= WorkLeft(WorkerApply(s, w))
    ensures if w == Tick then WorkLeft(WorkerApply(s, w)) <= WorkLeft(s)
            else WorkLeft(WorkerApply(s, w)) < WorkLeft(s)
  {
    if w == Receive { ReceiveRank(s); } else if InFlush(s.worker) { FlushRank(s, w); } else { LoopRank(s, w); }
  }

  lemma WorkNonNegative(s: State)
    requires Bounded(s) && ShipsSafely(s)
    ensures 0 <= WorkLeft(s)
  {
  }

  lemma WorkerProgress(s: State, w: WorkerStep)
    requires Inv(s) && WorkerEnabled(s, w)
    ensures Less(RankOf(WorkerApply(s, w)), RankOf(s))
         || (RankOf(WorkerApply(s, w)) == RankOf(s) && (Phase(s.gate.closer) >= 7 ==> w == Tick))
  {
    var s' := WorkerApply(s, w);
    assert s'.gate == s.gate && s'.producers == s.producers;
    if Phase(s.gate.closer) >= 7 { WorkerRank(s, w); }
  }

  /** A step leaves a helpful goroutine helpful, finishes shutdown, or lowers the rank; the
      helpful goroutine's own step does not merely leave things as they are. */
  lemma StepProgress(s: State, l: Label, a: Actor)
    requires Inv(s) && Helpful(s, a) && Enabled(s, l)
    ensures var s' := Apply(s, l);
            s'.done || Less(RankOf(s'), RankOf(s))
            || (RankOf(s') == RankOf(s) && Helpful(s', a) && Owner(l) != Some(a))
  {
    match l
    case Producer(i, p) =>
      ProducerRank(s, i, p);
      if Phase(s.gate.closer) != 5 { OthersMoveOn(s, i, p, a); }
    case Worker(w) => WorkerProgress(s, w);
    case Closer => CloserProgress(s);
    case _ =>
  }

  lemma CloserProgress(s: State)
    requires Inv(s) && CloserEnabled(s) && Phase(s.gate.closer) >= 1
    ensures Less(RankOf(CloserApply(s)), RankOf(s))
         || (RankOf(CloserApply(s)) == RankOf(s) && Phase(s.gate.closer) >= 7 && CloserApply(s).done == s.done)
  {
    WorkNonNegative(s);
    var s' := CloserApply(s);
    assert s'.queue == s.queue && s'.batch == s.batch && s'.worker == s.worker && s'.cfg == s.cfg;
    assert Phase(s'.gate.closer) == Phase(s.gate.closer) + 1;
  }

  lemma OthersMoveOn(s: State, i: nat, p: ProducerStep, a: Actor)
    requires Inv(s) && Helpful(s, a) && ProducerEnabled(s, i, p) && Phase(s.gate.closer) != 5
    ensures Helpful(ProducerApply(s, i, p), a) && !a.AProducer?
  {
    GateIsCloses(s, i, p);
    assert ProducerApply(s, i, p).done == s.done;
  }

  /** StepProgress along a run. */
  lemma RunProgress(r: nat -> State, l: nat -> Label, i: nat, a: Actor)
    requires IsRun(r, l) && Helpful(r(i), a)
    ensures CanMove(r(i), a)
    ensures r(i + 1).done || Less(RankOf(r(i + 1)), RankOf(r(i)))
            || (RankOf(r(i + 1)) == RankOf(r(i)) && Helpful(r(i + 1), a) && Owner(l(i)) != Some(a))
  {
    RunReaches(r, l, i);
    assert StepAt(r, l, i);
    StepProgress(r(i), l(i), a);
    HelpfulCanMove(r(i), a);
  }

  lemma {:induction false} Descend(r: nat -> State, l: nat -> Label, i: nat, j: nat, a: Actor) returns (k: nat)
    requires IsRun(r, l) && Helpful(r(i), a) && i <= j
    requires Owner(l(j)) == Some(a) || !CanMove(r(j), a)
    ensures i < k && (r(k).done || Less(RankOf(r(k)), RankOf(r(i))))
    decreases j - i
  {
    RunProgress(r, l, i, a);
    if r(i + 1).done || Less(RankOf(r(i + 1)), RankOf(r(i))) {
      k := i + 1;
    } else {
      k := Descend(r, l, i + 1, j, a);
    }
  }

  lemma NearerToDone(r: nat -> State, l: nat -> Label, i: nat) returns (k: nat)
    requires IsRun(r, l) && Fair(r, l) && r(i).gate.closeCtxSet && !r(i).done
    ensures i < k && r(k).gate.closeCtxSet && (r(k).done || Less(RankOf(r(k)), RankOf(r(i))))
  {
    RunReaches(r, l, i);
    var a := SomebodyIsHelpful(r(i));
    assert MovesOrBlocked(r, l, a, i);
    var m: nat :| i <= m && (Owner(l(m)) == Some(a) || !CanMove(r(m), a));
    k := Descend(r, l, i, m, a);
    StaysClosed(r, l, i, k);
  }

  /** `done` is closed and every record ever accepted has been counted, in order. */
  predicate ShutDown(s: State) {
    && s.done && s.stats.enqueued == s.stats.sent + s.stats.failed
    && Records(s.history.flushed) == s.history.accepted
  }

  lemma {:induction false} DoneFrom(r: nat -> State, l: nat -> Label, i: nat, rank: Rank) returns (j: nat)
    requires IsRun(r, l) && Fair(r, l) && r(i).gate.closeCtxSet
    requires rank == RankOf(r(i)) && rank.phases >= 0 && rank.steps >= 0
    ensures i <= j && r(j).done
    decreases rank.phases, rank.steps
  {
    j := i;
    if !r(i).done {
      j := NearerToDone(r, l, i);
      if !r(j).done {
        j := DoneFrom(r, l, j, RankOf(r(j)));
      }
    }
  }

  /** In every fair run, once Close has been called the sink shuts down, whatever the
      transport answers and however many goroutines keep logging. */
  lemma CloseCompletes(r: nat -> State, l: nat -> Label, i: nat)
    requires IsRun(r, l) && Fair(r, l) && r(i).gate.closeCtxSet
    ensures exists j: nat :: i <= j && ShutDown(r(j))
  {
    RunReaches(r, l, i);
    WorkNonNegative(r(i));
    var j := DoneFrom(r, l, i, RankOf(r(i)));
    RunIsReachable(r, l, j);
    NothingLostAtShutdown(r(j));
    assert ShutDown(r(j));
  }
}
