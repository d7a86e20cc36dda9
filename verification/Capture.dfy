/** Body capture in the HTTP adapters: a bounded copy of a response as it is written, and a
    request body that is read ahead and then replayed. */
module Capture {
  newtype byte = b: int | 0 <= b < 256

  // ---- redact.TruncateBytes ----

  function Truncated(input: seq<byte>, max: int): (seq<byte>, bool) {
    if max <= 0 then ([], |input| > 0)
    else if |input| <= max then (input, false)
    else (input[..max], true)
  }

  // ---- adapters/nethttp response writer ----

  function Joined(writes: seq<seq<byte>>): seq<byte> {
    if writes == [] then [] else Joined(writes[..|writes| - 1]) + writes[|writes| - 1]
  }

  function Prefix(s: seq<byte>, n: nat): seq<byte> { if |s| <= n then s else s[..n] }

  /** Some empty write came when the buffer was already exactly full or fuller. */
  predicate EmptyWriteWhenFull(writes: seq<seq<byte>>, max: nat) {
    exists k :: 0 <= k < |writes| && writes[k] == [] && |Joined(writes[..k])| >= max
  }

  /** What capture has made of these writes: their first bytes, and whether it saw overflow or
      an empty write while full. */
  predicate Captured(writes: seq<seq<byte>>, body: seq<byte>, truncated: bool, max: nat) {
    && body == Prefix(Joined(writes), max)
    && (truncated <==> |Joined(writes)| > max || EmptyWriteWhenFull(writes, max))
  }

  /** What one more chunk does to the buffer and the flag. */
  predicate Chunked(body: seq<byte>, truncated: bool, p: seq<byte>, max: nat, body': seq<byte>, truncated': bool) {
    if truncated then body' == body && truncated'
    else body' == Prefix(body + p, max) && (truncated' <==> |body| == max || |body + p| > max)
  }

  class ResponseWriter {
    var status: int
    var sizeBytes: int
    var body: seq<byte>
    var bodyTruncated: bool
    var wroteHeader: bool
    const captureBody: bool
    const maxBodyBytes: int
    ghost var writes: seq<seq<byte>>
    ghost var headers: seq<int>     // WriteHeader calls before anything was written

    ghost predicate Valid()
      reads this
    {
      && status == (if headers == [] then 200 else headers[0])
      && (headers != [] || writes != [] <==> wroteHeader)
      && (if captureBody && maxBodyBytes > 0
          then Captured(writes, body, bodyTruncated, maxBodyBytes)
          else body == [] && !bodyTruncated)
    }

    constructor (capture: bool, max: int)
      ensures Valid() && writes == [] && headers == [] && captureBody == capture && maxBodyBytes == max
    {
      status, sizeBytes, body, bodyTruncated, wroteHeader := 200, 0, [], false, false;
      captureBody, maxBodyBytes := capture, max;
      writes, headers := [], [];
    }

    /** The first status wins; once anything is written the status stays. */
    method WriteHeader(statusCode: int)
      requires Valid()
      modifies this
      ensures Valid() && writes == old(writes)
      ensures headers == if old(wroteHeader) then old(headers) else [statusCode]
    {
      if wroteHeader {
        return;
      }
      wroteHeader := true;
      status := statusCode;
      headers := [statusCode];
    }

    /** `n` is what the wrapped writer reports to have written. */
    method Write(p: seq<byte>, n: int)
      requires Valid()
      modifies this
      ensures Valid() && writes == old(writes) + [p] && headers == old(headers)
      ensures sizeBytes == old(sizeBytes) + n
    {
      wroteHeader := true;
      if captureBody {
        CaptureChunk(p);
        if maxBodyBytes > 0 {
          StaysCaptured(writes, p, maxBodyBytes, old(body), old(bodyTruncated), body, bodyTruncated);
        }
      }
      writes := writes + [p];
      sizeBytes := sizeBytes + n;
    }

    /** capture: the buffer takes what still fits, and is marked when something does not, or
        when it is called on a full buffer at all. */
    method CaptureChunk(p: seq<byte>)
      modifies this`body, this`bodyTruncated
      ensures maxBodyBytes <= 0 ==> body == old(body) && bodyTruncated == old(bodyTruncated)
      ensures maxBodyBytes > 0 && |old(body)| <= maxBodyBytes ==>
        Chunked(old(body), old(bodyTruncated), p, maxBodyBytes, body, bodyTruncated)
    {
      if maxBodyBytes <= 0 || bodyTruncated {
        return;
      }
      var remaining := maxBodyBytes - |body|;
      if remaining <= 0 {
        bodyTruncated := true;
        return;
      }
      if |p| > remaining {
        body := body + p[..remaining];
        bodyTruncated := true;
        return;
      }
      body := body + p;
    }
  }

  lemma StaysCaptured(writes: seq<seq<byte>>, p: seq<byte>, max: nat,
                      body: seq<byte>, truncated: bool, body': seq<byte>, truncated': bool)
    requires max > 0 && Captured(writes, body, truncated, max) && Chunked(body, truncated, p, max, body', truncated')
    ensures Captured(writes + [p], body', truncated', max)
  {
    var all := Joined(writes);
    NextWrite(writes, p, max);
    PrefixGrows(all, p, max);
    if EmptyWriteWhenFull(writes, max) { FullThen(writes, max); }
    if |all| < max {
      assert body == all && !truncated;
    } else if |all| == max {
      assert body == all && (p != [] ==> |all + p| > max);
    } else {
      assert truncated && truncated' && |all + p| > max;
    }
  }

  lemma NextWrite(writes: seq<seq<byte>>, p: seq<byte>, max: nat)
    ensures Joined(writes + [p]) == Joined(writes) + p
    ensures EmptyWriteWhenFull(writes + [p], max)
       <==> EmptyWriteWhenFull(writes, max) || (p == [] && |Joined(writes)| >= max)
  {
    var w := writes + [p];
    assert w[..|writes|] == writes;
    assert forall k | 0 <= k < |writes| :: w[k] == writes[k] && w[..k] == writes[..k];
    if EmptyWriteWhenFull(writes, max) {
      var k :| 0 <= k < |writes| && writes[k] == [] && |Joined(writes[..k])| >= max;
      assert w[k] == [] && |Joined(w[..k])| >= max;
    }
    if p == [] && |Joined(writes)| >= max {
      assert w[|writes|] == [] && |Joined(w[..|writes|])| >= max;
    }
  }

  /** A buffer that is full stays as it is; one that is not takes what fits. */
  lemma PrefixGrows(s: seq<byte>, p: seq<byte>, max: nat)
    ensures |s| <= max ==> Prefix(s, max) == s
    ensures |s| >= max ==> Prefix(s + p, max) == Prefix(s, max)
  {
    if |s| >= max { assert (s + p)[..max] == s[..max]; }
  }

  lemma FullThen(writes: seq<seq<byte>>, max: nat)
    requires EmptyWriteWhenFull(writes, max)
    ensures |Joined(writes)| >= max
  {
    var k :| 0 <= k < |writes| && writes[k] == [] && |Joined(writes[..k])| >= max;
    JoinedMonotone(writes, k);
  }

  lemma {:induction false} JoinedMonotone(writes: seq<seq<byte>>, k: nat)
    requires k <= |writes|
    ensures |Joined(writes[..k])| <= |Joined(writes)|
  {
    if k == |writes| {
      assert writes[..k] == writes;
    } else {
      var front := writes[..|writes| - 1];
      JoinedMonotone(front, k);
      assert front[..k] == writes[..k];
    }
  }

  /** What is logged for a text response: the buffer through TruncateBytes, and either flag. */
  function Logged(w: ResponseWriter): (seq<byte>, bool)
    reads w
  {
    var value := Truncated(w.body, w.maxBodyBytes);
    (value.0, value.1 || w.bodyTruncated)
  }

  /** That is TruncateBytes of everything written exactly when no empty write hit a buffer
      that the response fills to the byte. */
  lemma CaptureIsTruncation(w: ResponseWriter)
    requires w.Valid() && w.captureBody && w.maxBodyBytes > 0
    ensures Logged(w) == Truncated(Joined(w.writes), w.maxBodyBytes)
       <==> !(|Joined(w.writes)| == w.maxBodyBytes && EmptyWriteWhenFull(w.writes, w.maxBodyBytes))
  {
    if EmptyWriteWhenFull(w.writes, w.maxBodyBytes) { FullThen(w.writes, w.maxBodyBytes); }
  }

  /** Such a response: one write that fills the buffer to the byte and an empty one after it
      are logged as truncated, though nothing was cut. */
  method FilledThenEmpty(b: seq<byte>) returns (w: ResponseWriter)
    requires b != []
    ensures fresh(w) && w.Valid() && w.writes == [b, []] && w.maxBodyBytes == |b|
    ensures Logged(w) == (b, true) && Truncated(Joined(w.writes), w.maxBodyBytes) == (b, false)
  {
    w := new ResponseWriter(true, |b|);
    w.Write(b, |b|);
    w.Write([], 0);
    assert w.writes[..1] == [b] && w.writes[..2][..1] == [b] && [b][..0] == [];
    assert Joined([b]) == b && Joined(w.writes) == b;
    assert w.writes[1] == [];
  }

  // ---- request bodies: read ahead, then replay ----

  /** How a body ends once its bytes are used up. */
  datatype Ending = Eof | Failure

  /** A request body: any read may be short, but makes progress while bytes are left. An eager
      one tells its ending with its last bytes, another only when it is read once more. */
  class Source {
    var rest: seq<byte>
    const ending: Ending
    const eager: bool

    constructor (content: seq<byte>, e: Ending, withLast: bool)
      ensures rest == content && ending == e && eager == withLast
    {
      rest, ending, eager := content, e, withLast;
    }

    method Read(n: nat) returns (p: seq<byte>, ended: bool)
      modifies this
      ensures p + rest == old(rest) && |p| <= n
      ensures n > 0 && old(rest) != [] ==> p != []
      ensures ended <==> rest == [] && (eager || old(rest) == [])
    {
      var k: nat :| k <= n && k <= |rest| && (n > 0 && rest != [] ==> k > 0);
      p := rest[..k];
      ended := k == |rest| && (eager || rest == []);
      rest := rest[k..];
    }
  }

  /** io.ReadAll over io.LimitReader, with reads of at most 512 bytes. It fails when the body
      does within the limit, and for an eager body also right at the limit. */
  method ReadPrefix(src: Source, limit: nat) returns (buf: seq<byte>, failed: bool)
    modifies src
    ensures buf == Prefix(old(src.rest), limit) && buf + src.rest == old(src.rest)
    ensures failed <==> src.ending == Failure
                        && (|old(src.rest)| < limit || (src.eager && 0 < limit == |old(src.rest)|))
  {
    buf := [];
    var ended := false;
    while |buf| < limit && !ended
      invariant buf + src.rest == old(src.rest) && |buf| <= limit
      invariant ended ==> src.rest == [] && limit > 0 && (src.eager || |buf| < limit)
      invariant src.rest == [] && src.eager && buf != [] ==> ended
      decreases |src.rest|, !ended
    {
      var left := limit - |buf|;
      var p;
      p, ended := src.Read(if left < 512 then left else 512);
      assert buf + (p + src.rest) == (buf + p) + src.rest;
      buf := buf + p;
    }
    failed := ended && src.ending == Failure;
    assert old(src.rest)[..|buf|] == buf;
  }

  /** replayBody: a MultiReader over the bytes read ahead and the body behind them. */
  class ReplayBody {
    var buffered: seq<byte>
    const src: Source

    constructor (buf: seq<byte>, s: Source)
      ensures buffered == buf && src == s
    {
      buffered, src := buf, s;
    }

    ghost function Remaining(): seq<byte>
      reads this, src
    {
      buffered + src.rest
    }

    method Read(n: nat) returns (p: seq<byte>)
      modifies this, src
      ensures p + Remaining() == old(Remaining()) && |p| <= n
      ensures n > 0 && old(Remaining()) != [] ==> p != []
    {
      if buffered != [] {
        var k := if n <= |buffered| then n else |buffered|;
        p := buffered[..k];
        buffered := buffered[k..];
        assert p + buffered == old(buffered);
        assert p + (buffered + src.rest) == (p + buffered) + src.rest;
      } else {
        var ended;
        p, ended := src.Read(n);
      }
    }
  }

  /** captureRequestBody replaces the body by one that still yields the original bytes, and
      captures their first maxBytes + 1. */
  method CaptureRequestBody(src: Source, maxBytes: nat) returns (replay: ReplayBody, buf: seq<byte>, failed: bool)
    modifies src
    ensures fresh(replay) && replay.src == src && replay.Remaining() == old(src.rest)
    ensures buf == Prefix(old(src.rest), maxBytes + 1)
    ensures failed <==> src.ending == Failure
                        && (|old(src.rest)| <= maxBytes || (src.eager && |old(src.rest)| == maxBytes + 1))
  {
    buf, failed := ReadPrefix(src, maxBytes + 1);
    replay := new ReplayBody(buf, src);
  }

  /** Whatever sizes the handler reads in, it sees the original bytes: what it has read and
      what is left are the body, and enough reads see all of it. */
  method HandlerReads(replay: ReplayBody, sizes: seq<nat>) returns (seen: seq<byte>)
    modifies replay, replay.src
    ensures seen + replay.Remaining() == old(replay.Remaining())
    ensures (forall i | 0 <= i < |sizes| :: sizes[i] > 0) ==>
              replay.Remaining() == [] || |seen| >= |sizes|
  {
    seen := [];
    var i := 0;
    while i < |sizes|
      invariant 0 <= i <= |sizes| && seen + replay.Remaining() == old(replay.Remaining())
      invariant (forall k | 0 <= k < |sizes| :: sizes[k] > 0) ==> replay.Remaining() == [] || |seen| >= i
    {
      var p := replay.Read(sizes[i]);
      assert seen + (p + replay.Remaining()) == (seen + p) + replay.Remaining();
      seen := seen + p;
      i := i + 1;
    }
  }

  /** Reading one byte more than the limit is exactly what text capture needs: for every body
      the prefix truncates like the whole, value and flag, if and only if the read limit is
      above maxBytes. */
  lemma ReadAheadSuffices(maxBytes: nat, limit: nat)
    requires maxBytes > 0
    ensures (forall body: seq<byte> :: Truncated(Prefix(body, limit), maxBytes) == Truncated(body, maxBytes))
       <==> limit > maxBytes
  {
    if limit > maxBytes {
      forall body: seq<byte> ensures Truncated(Prefix(body, limit), maxBytes) == Truncated(body, maxBytes) {
        if |body| > limit { assert body[..limit][..maxBytes] == body[..maxBytes]; }
      }
    } else {
      var body: seq<byte> := seq(maxBytes + 1, _ => 0);
      assert Truncated(body, maxBytes).1 && !Truncated(Prefix(body, limit), maxBytes).1;
    }
  }
}
