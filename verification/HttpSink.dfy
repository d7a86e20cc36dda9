/** httpsink whole: the protocol's worker with the encoder's payloads. */
module HttpSink {
  import opened Options
  import P = SinkProtocol
  import S = SinkMiddleware
  import A = Attrs
  import Q = GoQuote
  import E = Payload

  /** The encoder's part of the configuration, with the static fields in one of their orders. */
  datatype Format = Format(asArray: bool, maxBatchBytes: int, fixed: A.Static)

  /** The contents of queued records, by their identity. */
  type Contents = int -> A.Rec

  function Records(content: Contents, batch: seq<P.Record>): seq<A.Rec> {
    seq(|batch|, i requires 0 <= i < |batch| => content(batch[i].id))
  }

  function Orders(f: Format, batch: seq<P.Record>): seq<A.Static> { seq(|batch|, _ => f.fixed) }

  function Body(f: Format, content: Contents, batch: seq<P.Record>): string {
    E.Body(f.asArray, E.RecordNodes(Records(content, batch), Orders(f, batch)))
  }

  /** The payload of a batch that can be marshalled and has at most MaxBatchBytes bytes. */
  function PayloadOf(f: Format, content: Contents, batch: seq<P.Record>): (p: Option<string>)
    ensures p.Some? ==> p.value == Body(f, content, batch)
    ensures p.Some? && f.maxBatchBytes > 0 ==> Q.Bytes(p.value) <= f.maxBatchBytes
  {
    if E.BatchMarshals(Records(content, batch), Orders(f, batch))
       && (f.maxBatchBytes > 0 ==> Q.Bytes(Body(f, content, batch)) <= f.maxBatchBytes)
    then Some(Body(f, content, batch)) else None
  }

  /** The encoder's loops compute it. */
  method Build(f: Format, content: Contents, batch: seq<P.Record>) returns (p: Option<string>)
    ensures p == PayloadOf(f, content, batch)
  {
    p := E.BuildPayload(f.asArray, Records(content, batch), Orders(f, batch), f.maxBatchBytes);
  }

  method Open(cfg: P.Config, f: Format, content: Contents, ghost n: nat) returns (m: S.Middleware)
    requires cfg.Valid()
    ensures fresh(m) && m.Valid() && m.cfg == cfg && P.Initial(m.s) && |m.s.producers| == n
    ensures forall batch :: m.payload(batch) == PayloadOf(f, content, batch)
  {
    m := new S.Middleware(cfg, batch => PayloadOf(f, content, batch), n);
  }

  /** Every one of these posts carried the encoded batch, within MaxBatchBytes. */
  predicate WithinLimit(f: Format, content: Contents, batch: seq<P.Record>, log: seq<S.Exchange>) {
    forall k | 0 <= k < |log| ::
      log[k].text == Body(f, content, batch) && (f.maxBatchBytes > 0 ==> Q.Bytes(log[k].text) <= f.maxBatchBytes)
  }

  lemma PostsWithin(f: Format, content: Contents, batch: seq<P.Record>, a: S.Attempts)
    requires S.Posts(PayloadOf(f, content, batch), a)
    ensures WithinLimit(f, content, batch, a.log)
  {
  }

  /** A flush posts exactly the encoded batch, never above MaxBatchBytes, in the first shipment
      and in the second; a batch without a payload is not posted and counts as failed. */
  method Flush(m: S.Middleware, f: Format, content: Contents, ret: P.Return)
    returns (ok: bool, first: S.Attempts, second: Option<S.Attempts>)
    requires m.Valid() && m.s.worker == P.PickCtx(ret) && m.batch != []
    requires m.payload(m.batch) == PayloadOf(f, content, m.batch)
    modifies m
    ensures m.Valid() && m.batch == []
    ensures WithinLimit(f, content, old(m.batch), first.log)
    ensures second.Some? ==> WithinLimit(f, content, old(m.batch), second.value.log)
    ensures PayloadOf(f, content, old(m.batch)).None? ==> !ok && first.log == [] && second.None?
    ensures m.s.history.flushed == old(m.s.history.flushed) + [P.Shipment(old(m.batch), ok, old(m.s.history.cause))]
  {
    ghost var batch := m.batch;
    ok, first, second := m.Flush(ret);
    PostsWithin(f, content, batch, first);
    if second.Some? { PostsWithin(f, content, batch, second.value); }
  }
}
