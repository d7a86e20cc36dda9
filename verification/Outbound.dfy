/** The client-side transport: the same decisions as the server middleware, but for how
    failures are told. */
module Outbound {
  import opened Sampling

  /** A round trip: a failed one has an error and no response. */
  datatype Trip = Trip(failed: bool, r: Request)

  /** What is logged when the trip is over: an error only for a failed trip, whatever the
      status of an answer. */
  function Ending(o: Options, t: Trip, kept: bool): seq<Event> {
    if t.failed then if o.logError && (o.hookError ==> t.r.error) then [Error] else []
    else if o.logComplete && (o.hookComplete ==> t.r.complete) && (Fast(t.r) ==> kept) then [Complete]
    else []
  }

  class Transport {
    const opts: Options
    const sampler: Deterministic?

    ghost predicate Valid()
      reads this, sampler
    {
      sampler != null ==> sampler.every > 1 && sampler.counter < WIDTH
    }

    constructor (o: Options, every: nat)
      ensures Valid() && opts == o && (sampler == null <==> every <= 1)
      ensures sampler != null ==> fresh(sampler) && sampler.every == every && sampler.counter == 0
    {
      opts := o;
      if every <= 1 {
        sampler := null;
      } else {
        sampler := new Deterministic(every);
      }
    }

    /** Only a fast success counts, once, and only a fast success can be left out by the
        sampler. */
    method RoundTrip(t: Trip) returns (log: seq<Event>)
      requires Valid()
      modifies if sampler == null then {} else {sampler}
      ensures Valid()
      ensures sampler == null ==> log == Opening(opts, t.r) + Ending(opts, t, true)
      ensures sampler != null ==>
                sampler.counter == (if !t.failed && Fast(t.r) && opts.logComplete
                                    then (old(sampler.counter) + 1) % WIDTH else old(sampler.counter))
                && log == Opening(opts, t.r) + Ending(opts, t, sampler.counter % sampler.every == 0)
      ensures Terminals(log) <= 1
      ensures AllOn(opts) && (t.failed || !Fast(t.r)) ==>
                Terminals(log) == 1 && log[|log| - 1] == if t.failed then Error else Complete
      ensures LogsTrip(opts, t, log, sampler == null || sampler.counter % sampler.every == 0)
    {
      log := Travel(t);
      ghost var kept := sampler == null || sampler.counter % sampler.every == 0;
      TripLogged(opts, t, log, kept);
      EndsOnce(opts, t, log, kept);
    }

    /** The round trip itself. */
    method Travel(t: Trip) returns (log: seq<Event>)
      requires Valid()
      modifies if sampler == null then {} else {sampler}
      ensures Valid()
      ensures sampler == null ==> log == Opening(opts, t.r) + Ending(opts, t, true)
      ensures sampler != null ==>
                sampler.counter == (if !t.failed && Fast(t.r) && opts.logComplete
                                    then (old(sampler.counter) + 1) % WIDTH else old(sampler.counter))
                && log == Opening(opts, t.r) + Ending(opts, t, sampler.counter % sampler.every == 0)
    {
      log := [];
      if opts.logStart {
        var start := Meta("start", t.r.request, 0, "", false, "", "", false);
        OthersAreKept(start);
        var ok := ShouldLog(sampler, opts.hookStart, t.r.start, start);
        if ok { log := log + [Start]; }
      }
      if !opts.logStart && !opts.logComplete && !opts.logError {
        return;
      }
      if t.failed {
        log := Fail(t, log);
      } else {
        log := Answer(t, log);
      }
    }

    /** The transport returned an error. */
    method Fail(t: Trip, opening: seq<Event>) returns (log: seq<Event>)
      requires Valid() && t.failed
      modifies if sampler == null then {} else {sampler}
      ensures Valid() && (sampler != null ==> sampler.counter == old(sampler.counter))
      ensures forall kept :: log == opening + Ending(opts, t, kept)
    {
      log := opening;
      if opts.logError {
        var ok := ShouldLog(sampler, opts.hookError, t.r.error,
                            Meta("error", t.r.request, 0, "", true, "", "", t.r.slow));
        if !ok { return; }
        log := log + [Error];
      }
    }

    /** The transport returned a response. */
    method Answer(t: Trip, opening: seq<Event>) returns (log: seq<Event>)
      requires Valid() && !t.failed
      modifies if sampler == null then {} else {sampler}
      ensures Valid()
      ensures sampler == null ==> log == opening + Ending(opts, t, true)
      ensures sampler != null ==>
                sampler.counter == (if Fast(t.r) && opts.logComplete
                                    then (old(sampler.counter) + 1) % WIDTH else old(sampler.counter))
                && log == opening + Ending(opts, t, sampler.counter % sampler.every == 0)
    {
      log := opening;
      if t.r.status < 400 && opts.logComplete && !opts.hookComplete && !t.r.slow {
        CompleteIsCounted(Early(t.r.status));
        var keep := Ask(sampler, Early(t.r.status));
        if !keep { return; }
      }
      if opts.logComplete {
        if opts.hookComplete {
          var full := Meta("complete", t.r.request, t.r.status, t.r.response, false, "", "", t.r.slow);
          CompleteIsCounted(full);
          var ok := ShouldLog(sampler, true, t.r.complete, full);
          if !ok { return; }
        }
        log := log + [Complete];
      }
    }
  }

  /** Which events the log of a trip holds, each for its own reasons. */
  predicate LogsTrip(o: Options, t: Trip, log: seq<Event>, kept: bool) {
    && (Start in log <==> o.logStart && (o.hookStart ==> t.r.start))
    && (Start in log ==> log[0] == Start)
    && (Error in log <==> t.failed && o.logError && (o.hookError ==> t.r.error))
    && (Complete in log <==>
          && !t.failed && o.logComplete && (o.hookComplete ==> t.r.complete)
          && (t.r.status < 400 && !t.r.slow ==> kept))
  }

  lemma TripLogged(o: Options, t: Trip, log: seq<Event>, kept: bool)
    requires log == Opening(o, t.r) + Ending(o, t, kept)
    ensures LogsTrip(o, t, log, kept)
  {
  }

  /** The log of any trip: at most one terminal event; with the hooks unset and both kinds on,
      exactly one for every trip that failed or was no fast success, an error exactly for the
      failed ones. A server logs an answered request alike, unless it logs an error event. */
  lemma EndsOnce(o: Options, t: Trip, log: seq<Event>, kept: bool)
    requires log == Opening(o, t.r) + Ending(o, t, kept)
    ensures Terminals(log) <= 1
    ensures AllOn(o) && (t.failed || !Fast(t.r)) ==>
              Terminals(log) == 1 && log[|log| - 1] == if t.failed then Error else Complete
    ensures !t.failed ==>
              (log == Opening(o, t.r) + Terminal(o, t.r, kept)
               <==> !(t.r.status >= 500 && o.logError && (o.hookError ==> t.r.error)))
  {
    CountTerminals(o, t.r, Ending(o, t, kept));
    if !t.failed {
      SameBehind(Opening(o, t.r), Ending(o, t, kept), Terminal(o, t.r, kept));
      AnswersAlike(o, t, kept);
    }
  }

  lemma SameBehind(front: seq<Event>, a: seq<Event>, b: seq<Event>)
    ensures front + a == front + b <==> a == b
  {
    assert (front + a)[|front|..] == a && (front + b)[|front|..] == b;
  }

  lemma AnswersAlike(o: Options, t: Trip, kept: bool)
    requires !t.failed
    ensures Ending(o, t, kept) == Terminal(o, t.r, kept)
       <==> !(t.r.status >= 500 && o.logError && (o.hookError ==> t.r.error))
  {
    if t.r.status >= 500 && o.logError && (o.hookError ==> t.r.error) {
      assert Terminal(o, t.r, kept)[0] == Error;
    }
  }
}
