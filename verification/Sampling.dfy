/** 1-in-N sampling of successful requests, and which events the nethttp middleware logs for
    a request. */
module Sampling {
  import opened Texts

  const WIDTH: nat := 0x1_0000_0000_0000_0000   // the counter is a uint64

  // ---- sampling.Deterministic ----

  datatype Decision = Decision(eventType: string, statusCode: int, hasError: bool, slow: bool)

  predicate IsImportant(d: Decision) {
    d.hasError || d.slow || d.statusCode >= 400 || d.eventType in {"error", "failed", "retry"}
  }

  predicate IsSuccessCandidate(d: Decision) {
    !d.hasError && !d.slow && d.statusCode < 400 && Contains(Lower(Trim(d.eventType)), "complete")
  }

  /** Whether a decision is one of those that are counted. */
  predicate Counted(d: Decision) { !IsImportant(d) && IsSuccessCandidate(d) }

  class Deterministic {
    const every: nat
    var counter: nat

    constructor (n: nat)
      requires n > 1
      ensures every == n && counter == 0
    {
      every, counter := n, 0;
    }

    method ShouldKeep(d: Decision) returns (keep: bool)
      requires every > 1
      modifies this`counter
      ensures counter == if Counted(d) then (old(counter) + 1) % WIDTH else old(counter)
      ensures keep <==> Counted(d) ==> counter % every == 0
    {
      if IsImportant(d) {
        return true;
      }
      if !IsSuccessCandidate(d) {
        return true;
      }
      counter := (counter + 1) % WIDTH;
      return counter % every == 0;
    }
  }

  // ---- how many of n counted decisions are kept ----

  /** The counter after n counted decisions. */
  function CounterAfter(n: nat): nat { n % WIDTH }

  /** Is the n-th counted decision kept? */
  predicate KeptAt(n: nat, every: nat)
    requires every > 1
  {
    CounterAfter(n) % every == 0
  }

  /** How many of n counted decisions are kept. */
  function KeptOf(n: nat, every: nat): nat
    requires every > 1
  {
    if n == 0 then 0 else KeptOf(n - 1, every) + if KeptAt(n, every) then 1 else 0
  }

  /** One in `every`, counted from the first, for as long as the counter has not wrapped; and
      for ever exactly when `every` divides 2^64. */
  lemma {:induction false} OneInEvery(n: nat, every: nat)
    requires every > 1
    requires n < WIDTH || WIDTH % every == 0
    ensures KeptOf(n, every) == n / every
  {
    if n > 0 {
      OneInEvery(n - 1, every);
      WrapKeepsPhase(n, every);
      NextQuotient(n, every);
    } else {
      assert 0 / every == 0;
    }
  }

  lemma NextQuotient(n: nat, every: nat)
    requires n > 0 && every > 1
    ensures n / every == (n - 1) / every + if n % every == 0 then 1 else 0
  {
    var q, m := (n - 1) / every, (n - 1) % every;
    assert n - 1 == every * q + m;
    if m == every - 1 {
      assert n == every * (q + 1) by { assert every * (q + 1) == every * q + every; }
      Quotient(n, every, q + 1, 0);
    } else {
      Quotient(n, every, q, m + 1);
    }
  }

  lemma Quotient(n: nat, every: nat, q: nat, m: nat)
    requires m < every && n == every * q + m
    ensures n / every == q && n % every == m
  {
    var d := n / every - q;
    assert every * (n / every) + n % every == n;
    assert every * d == m - n % every by { assert every * (n / every) == every * d + every * q; }
    assert every * d == -(every * -d);
    if d > 0 { AtLeastOnce(every, d); } else if d < 0 { AtLeastOnce(every, -d); }
  }

  lemma {:induction false} AtLeastOnce(every: nat, times: nat)
    requires times > 0
    ensures every * times >= every
  {
    if times > 1 {
      AtLeastOnce(every, times - 1);
      assert every * times == every * (times - 1) + every;
    }
  }

  lemma WrapKeepsPhase(n: nat, every: nat)
    requires every > 1
    requires n < WIDTH || WIDTH % every == 0
    ensures CounterAfter(n) % every == n % every
  {
    if n >= WIDTH {
      ModOfMultiple(n, WIDTH, every);
    }
  }

  lemma ModOfMultiple(n: nat, width: nat, every: nat)
    requires every > 1 && width > 0 && width % every == 0
    ensures n % width % every == n % every
  {
    var turns, rest := n / width, n % width;
    var share, q := width / every, rest / every;
    Regroup(every, share, turns, q);
    assert n == width * turns + rest;
    assert width == every * share;
    assert rest == every * q + rest % every;
    Quotient(n, every, share * turns + q, rest % every);
  }

  lemma Regroup(a: nat, b: nat, c: nat, d: nat)
    ensures (a * b) * c + a * d == a * (b * c + d)
  {
    Associate(a, b, c);
    assert a * (b * c + d) == a * (b * c) + a * d;
  }

  lemma Associate(a: nat, b: nat, c: nat)
    ensures (a * b) * c == a * (b * c)
  {
  }

  /** When `every` does not divide 2^64 the wrap keeps one record too many. */
  lemma WrapKeepsOneTooMany(every: nat)
    requires every > 1 && WIDTH % every != 0
    ensures KeptOf(WIDTH, every) == WIDTH / every + 1
  {
    OneInEvery(WIDTH - 1, every);
    NextQuotient(WIDTH, every);
    assert CounterAfter(WIDTH) == 0;
  }

  /** What is counted, said of the event's name itself: a complete event, in any case, that is
      neither failed nor slow. The events that are always important have no such name. */
  lemma CountedIs(d: Decision)
    ensures Counted(d) <==> !d.hasError && !d.slow && d.statusCode < 400 && HasAlike(d.eventType, "complete")
  {
    assert NoWhite("complete");
    ContainsIs(d.eventType, "complete");
    if d.eventType in {"error", "failed", "retry"} { assert |d.eventType| < |"complete"|; }
  }

  /** The rate is kept over every history of up to `bound` decisions if and only if the
      counter cannot wrap in it or the wrap goes unnoticed. */
  lemma RateKept(bound: nat, every: nat)
    requires every > 1
    ensures (forall n: nat | n <= bound :: KeptOf(n, every) == n / every)
       <==> bound < WIDTH || WIDTH % every == 0
  {
    if bound < WIDTH || WIDTH % every == 0 {
      forall n: nat | n <= bound ensures KeptOf(n, every) == n / every { OneInEvery(n, every); }
    } else {
      WrapKeepsOneTooMany(every);
    }
  }

  // ---- what a decision is made on ----

  /** httplog.DecisionMeta: the request and response parts that sampling does not read are
      kept, so that a partial one can be told from a full one. */
  datatype Meta = Meta(event: string, request: string, status: int, response: string,
                       failed: bool, errorKind: string, errorMessage: string, slow: bool)

  function DecisionOf(m: Meta): Decision {
    Decision(m.event, m.status, m.failed || m.errorKind != "" || m.errorMessage != "", m.slow)
  }

  /** Does the sampler, absent when `every` is at most one, keep this, its counter being
      `counter`? And what is its counter then? */
  function Verdict(every: nat, counter: nat, m: Meta): (bool, nat) {
    if every > 1 && Counted(DecisionOf(m))
    then (((counter + 1) % WIDTH) % every == 0, (counter + 1) % WIDTH)
    else (true, counter)
  }

  /** The metadata the early check makes up, and what the full one holds. */
  function Early(status: int): Meta { Meta("complete", "", status, "", false, "", "", false) }

  function Full(event: string, request: string, status: int, response: string, text: string, slow: bool): Meta {
    Meta(event, request, status, response, false,
         if status >= 500 then "http_error" else "", if status >= 500 then text else "", slow)
  }

  lemma CompleteIsCounted(m: Meta)
    requires m.event == "complete"
    ensures Counted(DecisionOf(m)) <==> !m.failed && m.errorKind == "" && m.errorMessage == "" && !m.slow && m.status < 400
  {
    var e := "complete";
    assert |e| == 8 && e[0] == 'c' && e[7] == 'e';
    assert Trim(e) == e;
    assert Lower(e) == e;
    assert At(e, 0, e);
  }

  /** The early check, made on partial metadata, decides like the full one whatever the counter
      if and only if the request failed or was not slow; the middleware asks it only then. */
  lemma EarlyIsFull(status: int, request: string, response: string, text: string, slow: bool)
    ensures (forall every: nat, counter: nat ::
               Verdict(every, counter, Early(status))
               == Verdict(every, counter, Full("complete", request, status, response, text, slow)))
       <==> status >= 400 || !slow
  {
    var early, full := Early(status), Full("complete", request, status, response, text, slow);
    CompleteIsCounted(early);
    CompleteIsCounted(full);
    if status < 400 && slow {
      assert !Verdict(2, 0, early).0 && Verdict(2, 0, full).0;
    }
  }

  // ---- adapters/nethttp: the events of one request ----

  /** Hook fields say whether a hook is set. */
  datatype Options = Options(logStart: bool, logComplete: bool, logError: bool,
                             hookStart: bool, hookComplete: bool, hookError: bool)

  /** A request with what happens to it: its response, whether it was slow, and what the hooks
      say about its events, a recovered panic counting as yes. */
  datatype Request = Request(request: string, status: int, response: string, text: string, slow: bool,
                             start: bool, complete: bool, error: bool)

  datatype Event = Start | Complete | Error

  /** A success that is subject to sampling. */
  predicate Fast(r: Request) { r.status < 400 && !r.slow }

  /** What the middleware is to log when it is done, `kept` being the sampler's word if this
      is a fast success. */
  function Terminal(o: Options, r: Request, kept: bool): seq<Event> {
    if r.status >= 500 && o.logError && (o.hookError ==> r.error) then [Error]
    else if o.logComplete && (o.hookComplete ==> r.complete) && (Fast(r) ==> kept) then [Complete]
    else []
  }

  function Opening(o: Options, r: Request): seq<Event> {
    if o.logStart && (o.hookStart ==> r.start) then [Start] else []
  }

  /** httplog.SuccessSampler.ShouldLog, on a sampler that may be nil. */
  method Ask(sampler: Deterministic?, m: Meta) returns (keep: bool)
    requires sampler != null ==> sampler.every > 1 && sampler.counter < WIDTH
    modifies if sampler == null then {} else {sampler}
    ensures sampler == null ==> keep
    ensures sampler != null ==> (keep, sampler.counter) == Verdict(sampler.every, old(sampler.counter), m)
  {
    if sampler == null {
      return true;
    }
    keep := sampler.ShouldKeep(DecisionOf(m));
  }

  /** httplog.ShouldLog: the sampler first, then the hook. */
  method ShouldLog(sampler: Deterministic?, hook: bool, answer: bool, m: Meta) returns (log: bool)
    requires sampler != null ==> sampler.every > 1 && sampler.counter < WIDTH
    modifies if sampler == null then {} else {sampler}
    ensures sampler == null ==> (log <==> hook ==> answer)
    ensures sampler != null ==>
              sampler.counter == Verdict(sampler.every, old(sampler.counter), m).1
              && (log <==> Verdict(sampler.every, old(sampler.counter), m).0 && (hook ==> answer))
  {
    var keep := Ask(sampler, m);
    return keep && (!hook || answer);
  }

  lemma OthersAreKept(m: Meta)
    requires m.event == "start" || m.status >= 400
    ensures !Counted(DecisionOf(m))
  {
    var e := "start";
    assert |e| == 5 && e[0] == 's' && e[4] == 't';
    assert Trim(e) == e;
    assert Lower(e) == e;
    assert !Contains(e, "complete");
  }

  class HttpMiddleware {
    const opts: Options
    const sampler: Deterministic?

    ghost predicate Valid()
      reads this, sampler
    {
      sampler != null ==> sampler.every > 1 && sampler.counter < WIDTH
    }

    /** `every` is SuccessSampleEvery; at most one means no sampler. */
    constructor (o: Options, every: nat)
      ensures After([]) && opts == o && (sampler == null <==> every <= 1)
      ensures sampler != null ==> fresh(sampler) && sampler.every == every && sampler.counter == 0
    {
      opts := o;
      if every <= 1 {
        sampler := null;
      } else {
        sampler := new Deterministic(every);
      }
    }

    /** One request. Only a fast success moves the counter, and by one, whatever the hooks say;
        every other terminal event is logged without asking. */
    method Serve(r: Request) returns (log: seq<Event>)
      requires Valid()
      modifies if sampler == null then {} else {sampler}
      ensures Valid()
      ensures sampler == null ==> log == Opening(opts, r) + Terminal(opts, r, true)
      ensures sampler != null ==>
                sampler.counter == (if Fast(r) && opts.logComplete
                                    then (old(sampler.counter) + 1) % WIDTH else old(sampler.counter))
                && log == Opening(opts, r) + Terminal(opts, r, sampler.counter % sampler.every == 0)
      ensures Terminals(log) <= 1 && (AllOn(opts) && !Fast(r) ==> Terminals(log) == 1)
      ensures LogsEvents(opts, r, log, sampler == null || sampler.counter % sampler.every == 0)
    {
      log := Handle(r);
      EventsLogged(opts, r, log, sampler == null || sampler.counter % sampler.every == 0);
      OneTerminal(opts, r, log, sampler == null || sampler.counter % sampler.every == 0);
    }

    /** The handler itself. */
    method Handle(r: Request) returns (log: seq<Event>)
      requires Valid()
      modifies if sampler == null then {} else {sampler}
      ensures Valid()
      ensures sampler == null ==> log == Opening(opts, r) + Terminal(opts, r, true)
      ensures sampler != null ==>
                sampler.counter == (if Fast(r) && opts.logComplete
                                    then (old(sampler.counter) + 1) % WIDTH else old(sampler.counter))
                && log == Opening(opts, r) + Terminal(opts, r, sampler.counter % sampler.every == 0)
    {
      log := [];
      if !opts.logStart && !opts.logComplete && !opts.logError {
        return;
      }
      if opts.logStart {
        var start := Meta("start", r.request, 0, "", false, "", "", false);
        OthersAreKept(start);
        var ok := ShouldLog(sampler, opts.hookStart, r.start, start);
        if ok { log := log + [Start]; }
      }
      log := Finish(r, log);
    }

    /** From the handler's return on. */
    method Finish(r: Request, opening: seq<Event>) returns (log: seq<Event>)
      requires Valid()
      modifies if sampler == null then {} else {sampler}
      ensures Valid()
      ensures sampler == null ==> log == opening + Terminal(opts, r, true)
      ensures sampler != null ==>
                sampler.counter == (if Fast(r) && opts.logComplete
                                    then (old(sampler.counter) + 1) % WIDTH else old(sampler.counter))
                && log == opening + Terminal(opts, r, sampler.counter % sampler.every == 0)
    {
      log := opening;
      if r.status < 400 && opts.logComplete && !opts.hookComplete && !r.slow {
        CompleteIsCounted(Early(r.status));
        var keep := Ask(sampler, Early(r.status));
        if !keep { return; }
      }
      if r.status >= 500 && opts.logError {
        var failing := Full("error", r.request, r.status, r.response, r.text, r.slow);
        OthersAreKept(failing);
        var ok := ShouldLog(sampler, opts.hookError, r.error, failing);
        if ok { return log + [Error]; }
      }
      if opts.logComplete {
        var ok := true;
        if opts.hookComplete {
          var full := Full("complete", r.request, r.status, r.response, r.text, r.slow);
          CompleteIsCounted(full);
          ok := ShouldLog(sampler, true, r.complete, full);
        }
        if ok { log := log + [Complete]; }
      }
    }

    ghost function Every(): nat { if sampler == null then 0 else sampler.every }

    /** The counter counts the fast successes of the history so far. */
    ghost predicate After(rs: seq<Request>)
      reads this, sampler
    {
      Valid() && (sampler != null ==> sampler.counter == CounterAfter(Asked(opts, rs)))
    }

    method ServeNext(rs: seq<Request>, i: nat) returns (log: seq<Event>)
      requires i < |rs| && After(rs[..i])
      modifies if sampler == null then {} else {sampler}
      ensures After(rs[..i + 1]) && log == Expected(opts, rs, i, Every())
    {
      AskedStep(opts, rs, i);
      log := Serve(rs[i]);
    }

    /** A history of requests, from a new middleware on. Requests that overlap share nothing
        but the counter, which each adds to atomically at most once: they stand here in the
        order of those additions. */
    method ServeAll(rs: seq<Request>) returns (logs: seq<seq<Event>>)
      requires After([])
      modifies if sampler == null then {} else {sampler}
      ensures After(rs) && IsLogOf(opts, rs, Every(), logs)
      ensures EachOnce(opts, rs, logs)
      ensures sampler != null && opts.logComplete && !opts.hookComplete
              && (FastCount(rs) < WIDTH || WIDTH % sampler.every == 0) ==>
                LoggedFast(rs, logs, |rs|) == FastCount(rs) / sampler.every
    {
      logs := ServeEach(rs);
      HistoryOnce(opts, rs, Every(), logs);
      if sampler != null && opts.logComplete && !opts.hookComplete
         && (FastCount(rs) < WIDTH || WIDTH % sampler.every == 0) {
        assert rs[..|rs|] == rs;
        FastSuccessesAreThinned(opts, rs, sampler.every, logs, |rs|);
      }
    }

    method ServeEach(rs: seq<Request>) returns (logs: seq<seq<Event>>)
      requires After([])
      modifies if sampler == null then {} else {sampler}
      ensures After(rs) && IsLogOf(opts, rs, Every(), logs)
    {
      logs := [];
      while |logs| < |rs|
        invariant IsLogSoFar(opts, rs, Every(), logs) && After(rs[..|logs|])
        decreases |rs| - |logs|
      {
        var log := ServeNext(rs, |logs|);
        LogGrows(opts, rs, Every(), logs, log);
        logs := logs + [log];
      }
      assert rs[..|rs|] == rs;
    }
  }

  function FastCount(rs: seq<Request>): nat {
    if rs == [] then 0 else FastCount(rs[..|rs| - 1]) + if Fast(rs[|rs| - 1]) then 1 else 0
  }

  /** How many of these requests are put to the sampler. */
  function Asked(o: Options, rs: seq<Request>): nat { if o.logComplete then FastCount(rs) else 0 }

  /** Is request i kept, by its place among those asked about? */
  predicate Chosen(o: Options, rs: seq<Request>, i: nat, every: nat)
    requires i < |rs| && every > 1
  {
    KeptAt(Asked(o, rs[..i + 1]), every)
  }

  /** What request i of a history logs; no sampler when `every` is at most one. */
  function Expected(o: Options, rs: seq<Request>, i: nat, every: nat): seq<Event>
    requires i < |rs|
  {
    Opening(o, rs[i]) + Terminal(o, rs[i], every <= 1 || Chosen(o, rs, i, every))
  }

  lemma AskedStep(o: Options, rs: seq<Request>, i: nat)
    requires i < |rs|
    ensures var asked := if Fast(rs[i]) && o.logComplete then 1 else 0;
      && Asked(o, rs[..i + 1]) == Asked(o, rs[..i]) + asked
      && CounterAfter(Asked(o, rs[..i + 1])) == (CounterAfter(Asked(o, rs[..i])) + asked) % WIDTH
  {
    FastStep(rs, i);
  }

  // ---- whole histories ----

  /** How many of these events end a request. */
  function Terminals(log: seq<Event>): nat {
    if log == [] then 0 else (if log[0] == Start then 0 else 1) + Terminals(log[1..])
  }

  lemma CountTerminals(o: Options, r: Request, last: seq<Event>)
    requires |last| <= 1 && Start !in last
    ensures Terminals(Opening(o, r) + last) == |last|
    ensures last != [] ==> var log := Opening(o, r) + last; log[|log| - 1] == last[0]
  {
    CountLast(last);
    if Opening(o, r) == [] {
      assert Opening(o, r) + last == last;
    } else {
      assert ([Start] + last)[1..] == last;
    }
  }

  lemma CountLast(last: seq<Event>)
    requires |last| <= 1 && Start !in last
    ensures Terminals(last) == |last|
  {
    if last != [] { assert last[1..] == [] && last[0] != Start; }
  }

  predicate AllOn(o: Options) { !o.hookComplete && !o.hookError && o.logComplete && o.logError }

  /** Which events a log holds, each for its own reasons. */
  predicate LogsEvents(o: Options, r: Request, log: seq<Event>, kept: bool) {
    && (Start in log <==> o.logStart && (o.hookStart ==> r.start))
    && (Start in log ==> log[0] == Start)
    && (Error in log <==> r.status >= 500 && o.logError && (o.hookError ==> r.error))
    && (Complete in log <==>
          && o.logComplete && (o.hookComplete ==> r.complete) && Error !in log
          && (r.status < 400 && !r.slow ==> kept))
  }

  lemma EventsLogged(o: Options, r: Request, log: seq<Event>, kept: bool)
    requires log == Opening(o, r) + Terminal(o, r, kept)
    ensures LogsEvents(o, r, log, kept)
  {
  }

  /** The terminal events of one request's log. */
  lemma OneTerminal(o: Options, r: Request, log: seq<Event>, kept: bool)
    requires log == Opening(o, r) + Terminal(o, r, kept)
    ensures Terminals(log) <= 1
    ensures AllOn(o) && !Fast(r) ==>
              Terminals(log) == 1 && log[|log| - 1] == if r.status >= 500 then Error else Complete
  {
    CountTerminals(o, r, Terminal(o, r, kept));
  }

  /** The logs of the first requests of a history. */
  predicate IsLogSoFar(o: Options, rs: seq<Request>, every: nat, logs: seq<seq<Event>>) {
    |logs| <= |rs| && forall i | 0 <= i < |logs| :: logs[i] == Expected(o, rs, i, every)
  }

  /** The logs of a history. */
  predicate IsLogOf(o: Options, rs: seq<Request>, every: nat, logs: seq<seq<Event>>) {
    |logs| == |rs| && IsLogSoFar(o, rs, every, logs)
  }

  lemma LogGrows(o: Options, rs: seq<Request>, every: nat, logs: seq<seq<Event>>, log: seq<Event>)
    requires IsLogSoFar(o, rs, every, logs) && |logs| < |rs| && log == Expected(o, rs, |logs|, every)
    ensures IsLogSoFar(o, rs, every, logs + [log])
  {
    forall i | 0 <= i <= |logs| ensures (logs + [log])[i] == Expected(o, rs, i, every) {
      assert (logs + [log])[i] == if i < |logs| then logs[i] else log;
    }
  }

  /** In every history at most one terminal event for any request, options and hooks; with the
      hooks unset and complete and error events on, exactly one for each request that failed
      or was slow. */
  lemma TerminalOnce(o: Options, rs: seq<Request>, every: nat, logs: seq<seq<Event>>, i: nat)
    requires IsLogOf(o, rs, every, logs) && i < |rs|
    ensures Terminals(logs[i]) <= 1
    ensures AllOn(o) && !Fast(rs[i]) ==>
              Terminals(logs[i]) == 1 && logs[i][|logs[i]| - 1] == if rs[i].status >= 500 then Error else Complete
  {
    OneTerminal(o, rs[i], logs[i], every <= 1 || Chosen(o, rs, i, every));
  }

  /** At most one terminal event in each log, exactly one for failed and slow requests when all
      of them are to be logged. */
  predicate EachOnce(o: Options, rs: seq<Request>, logs: seq<seq<Event>>) {
    && |logs| == |rs|
    && forall i | 0 <= i < |rs| ::
         Terminals(logs[i]) <= 1 && (AllOn(o) && !Fast(rs[i]) ==> Terminals(logs[i]) == 1)
  }

  lemma HistoryOnce(o: Options, rs: seq<Request>, every: nat, logs: seq<seq<Event>>)
    requires IsLogOf(o, rs, every, logs)
    ensures EachOnce(o, rs, logs)
  {
    forall i | 0 <= i < |rs|
      ensures Terminals(logs[i]) <= 1 && (AllOn(o) && !Fast(rs[i]) ==> Terminals(logs[i]) == 1)
    {
      TerminalOnce(o, rs, every, logs, i);
    }
  }

  /** How many of the first n requests are fast successes with a complete event in their log. */
  function LoggedFast(rs: seq<Request>, logs: seq<seq<Event>>, n: nat): nat
    requires n <= |rs| == |logs|
  {
    if n == 0 then 0
    else LoggedFast(rs, logs, n - 1) + if Fast(rs[n - 1]) && Complete in logs[n - 1] then 1 else 0
  }

  /** At every point of every mixed history, of m fast successes so far exactly m / every are
      logged, rounded down; until the counter wraps, and beyond if `every` divides 2^64. */
  lemma FastSuccessesAreThinned(o: Options, rs: seq<Request>, every: nat, logs: seq<seq<Event>>, n: nat)
    requires IsLogOf(o, rs, every, logs) && n <= |rs| && every > 1 && o.logComplete && !o.hookComplete
    requires FastCount(rs[..n]) < WIDTH || WIDTH % every == 0
    ensures LoggedFast(rs, logs, n) == FastCount(rs[..n]) / every
  {
    forall i | 0 <= i < |rs| ensures ShowsKept(rs, logs, every, i) { LoggedAt(o, rs, every, logs, i); }
    LoggedIsKept(rs, every, logs, n);
    OneInEvery(FastCount(rs[..n]), every);
  }

  predicate ShowsKept(rs: seq<Request>, logs: seq<seq<Event>>, every: nat, i: nat)
    requires i < |rs| == |logs| && every > 1
  {
    Fast(rs[i]) ==> (Complete in logs[i] <==> KeptAt(FastCount(rs[..i + 1]), every))
  }

  lemma {:induction false} LoggedIsKept(rs: seq<Request>, every: nat, logs: seq<seq<Event>>, n: nat)
    requires every > 1 && n <= |rs| == |logs| && forall i | 0 <= i < |rs| :: ShowsKept(rs, logs, every, i)
    ensures LoggedFast(rs, logs, n) == KeptOf(FastCount(rs[..n]), every)
  {
    if n > 0 {
      LoggedIsKept(rs, every, logs, n - 1);
      FastStep(rs, n - 1);
      assert ShowsKept(rs, logs, every, n - 1);
    }
  }

  /** A fast success shows in its log exactly when it is one that is kept. */
  lemma LoggedAt(o: Options, rs: seq<Request>, every: nat, logs: seq<seq<Event>>, i: nat)
    requires IsLogOf(o, rs, every, logs) && i < |rs| && every > 1 && o.logComplete && !o.hookComplete
    ensures ShowsKept(rs, logs, every, i)
  {
    assert logs[i] == Expected(o, rs, i, every);
    if Fast(rs[i]) { LoggedWhenChosen(o, rs[i], Chosen(o, rs, i, every)); }
  }

  lemma FastStep(rs: seq<Request>, i: nat)
    requires i < |rs|
    ensures FastCount(rs[..i + 1]) == FastCount(rs[..i]) + if Fast(rs[i]) then 1 else 0
  {
    assert rs[..i + 1][..i] == rs[..i];
  }

  lemma LoggedWhenChosen(o: Options, r: Request, kept: bool)
    requires Fast(r) && o.logComplete && !o.hookComplete
    ensures Complete in Opening(o, r) + Terminal(o, r, kept) <==> kept
  {
    if kept { assert Complete in Terminal(o, r, kept); }
  }
}
