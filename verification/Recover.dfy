/** What a receiver makes of a payload: the records' fields at every depth. */
module Recover {
  import opened Options
  import opened GoQuote
  import opened JsonText
  import opened JsonTokens
  import opened Attrs
  import opened Payload
  import opened Snapshot

  /** A value as read, a number as its value. Texts and times are both strings; a string that is not in Go's quoting,
      which only json.Marshal can have written, stays as it is. */
  datatype Plain =
    | PText(t: Text)
    | PRaw(body: string)
    | PNum(q: Quantity)
    | PTok(tok: string)
    | PArr(items: seq<Plain>)
    | PObj(fields: seq<PField>)

  datatype PField = PField(key: Plain, val: Plain)

  // ---- reading a tree ----

  function DecodeText(body: string): Plain {
    match Unquote(body) case Some(t) => PText(t) case None => PRaw(body)
  }

  function DecodeWord(tok: string): Plain {
    match ReadWord(tok) case Some(q) => PNum(q) case None => PTok(tok)
  }

  function Decode(n: Node): Plain
    decreases n, 0
  {
    match n
    case NStr(body) => DecodeText(body)
    case NTok(tok) => DecodeWord(tok)
    case NArr(items) => PArr(DecodeItems(items))
    case NObj(fields) => PObj(DecodeFields(fields))
  }

  function DecodeItems(items: seq<Node>): seq<Plain>
    decreases items, 1
  {
    if items == [] then [] else [Decode(items[0])] + DecodeItems(items[1..])
  }

  function DecodeFields(fs: seq<NField>): seq<PField>
    decreases fs, 1
  {
    if fs == [] then [] else [PField(DecodeText(fs[0].key), Decode(fs[0].val))] + DecodeFields(fs[1..])
  }

  /** One payload text. */
  function ReadPlain(t: string): Option<Plain> {
    match ReadValue(t) case Some((n, "")) => Some(Decode(n)) case _ => None
  }

  // ---- what there is to read ----

  function PlainVal(v: EVal): Plain
    decreases v, 0
  {
    match v
    case Obj(fs) => PObj(PlainFields(fs))
    case Leaf(Str(t)) => PText(t)
    case Leaf(Time(t)) => PText(t)
    case Leaf(Num(n)) => PNum(Meaning(n))
    case Leaf(Any(a)) => if a.json.Some? then Decode(a.json.value) else PTok("null")
    case Leaf(_) => PTok("null")
  }

  function PlainFields(fs: seq<EField>): seq<PField>
    decreases fs, 1
  {
    if fs == [] then [] else [PField(PText(fs[0].key), PlainVal(fs[0].val))] + PlainFields(fs[1..])
  }

  function PlainRecord(rec: Rec, fixed: Static): Plain { PObj(PlainFields(RecordFields(rec, fixed))) }

  // ---- reading undoes encoding ----

  /** At every depth each key, each text and each number of the encoded fields comes back, in
      order, with the repeated keys. */
  lemma {:induction false} DecodeInverts(fs: seq<EField>)
    requires WfEFields(fs)
    ensures DecodeFields(NodesOf(fs)) == PlainFields(fs)
    decreases fs, 1
  {
    if fs != [] {
      UnquoteQuote(fs[0].key);
      DecodeInvertsVal(fs[0].val);
      DecodeInverts(fs[1..]);
    }
  }

  lemma {:induction false} DecodeInvertsVal(v: EVal)
    requires WfEVal(v)
    ensures Decode(NodeOf(v)) == PlainVal(v)
    decreases v, 0
  {
    match v
    case Obj(fs) => DecodeInverts(fs);
    case Leaf(Str(t)) => UnquoteQuote(t);
    case Leaf(Time(t)) => UnquoteQuote(t);
    case Leaf(Num(n)) => WordReads(n);
    case Leaf(_) => NullIsNoNumber();
  }

  lemma NullIsNoNumber()
    ensures DecodeWord("null") == PTok("null")
  {
    assert "null"[0] == 'n';
  }

  /** From a newline-delimited payload the receiver gets every record of the batch, in order
      and complete; from a JSON array likewise. */
  lemma BatchRecovered(batch: seq<Rec>, orders: seq<Static>)
    requires |orders| == |batch|
    requires forall i | 0 <= i < |batch| :: WfEFields(RecordFields(batch[i], orders[i]))
    ensures var lines := SplitLines(Body(false, RecordNodes(batch, orders)));
            && |lines| == |batch|
            && forall k | 0 <= k < |batch| :: ReadPlain(lines[k]) == Some(PlainRecord(batch[k], orders[k]))
    ensures var read := ReadPlain(Body(true, RecordNodes(batch, orders)));
            && read.Some? && read.value.PArr? && |read.value.items| == |batch|
            && forall k | 0 <= k < |batch| :: read.value.items[k] == PlainRecord(batch[k], orders[k])
  {
    BatchRoundTrip(batch, orders);
    BatchWf(batch, orders);
    DecodeItemsAt(RecordNodes(batch, orders));
    forall k | 0 <= k < |batch| ensures Decode(RecordNode(batch[k], orders[k])) == PlainRecord(batch[k], orders[k]) {
      DecodeInverts(RecordFields(batch[k], orders[k]));
    }
  }

  lemma {:induction false} DecodeItemsAt(items: seq<Node>)
    ensures |DecodeItems(items)| == |items|
    ensures forall i | 0 <= i < |items| :: DecodeItems(items)[i] == Decode(items[i])
  {
    if items != [] { DecodeItemsAt(items[1..]); }
  }

  /** What a receiver reads of a leaf that was frozen: an error's text, whatever its JSON would
      be; the JSON of any other boxed value; a fixed text where there is none; and any other
      leaf as it was. */
  lemma QueuedLeafReads(v: Value)
    requires !v.Group? && !v.Valuer? && (v.Any? && v.any.err.Some? ==> WfText(v.any.err.value))
    ensures var read := Decode(LeafNode(SnapLeaf(v)));
      && (v.Any? && v.any.boxed && v.any.err.Some? ==> read == PText(v.any.err.value))
      && (v.Any? && v.any.boxed && v.any.err.None? && v.any.json.Some? ==> read == Decode(v.any.json.value))
      && (v.Any? && v.any.boxed && v.any.err.None? && v.any.json.None? ==> read == PText(Ascii("[UNAVAILABLE]")))
      && (!v.Any? || !v.any.boxed ==> read == Decode(LeafNode(v)))
  {
    if v.Any? && v.any.boxed {
      if v.any.err.Some? {
        UnquoteQuote(v.any.err.value);
      } else if v.any.json.None? {
        UnquoteQuote(Ascii(UNAVAILABLE));
      }
    }
  }

  /** Records that are encoded alike are alike to every reader. */
  lemma EncodedApart(a: Rec, b: Rec, fixed: Static, fixed': Static)
    requires WfEFields(RecordFields(a, fixed)) && WfEFields(RecordFields(b, fixed'))
    requires Print(RecordNode(a, fixed)) == Print(RecordNode(b, fixed'))
    ensures PlainRecord(a, fixed) == PlainRecord(b, fixed')
  {
    ReadRecord(a, fixed);
    ReadRecord(b, fixed');
  }

  lemma ReadRecord(rec: Rec, fixed: Static)
    requires WfEFields(RecordFields(rec, fixed))
    ensures ReadPlain(Print(RecordNode(rec, fixed))) == Some(PlainRecord(rec, fixed))
  {
    NodesWf(RecordFields(rec, fixed));
    DecodeInverts(RecordFields(rec, fixed));
    ReadPrinted(RecordNode(rec, fixed), "");
    assert Print(RecordNode(rec, fixed)) + "" == Print(RecordNode(rec, fixed));
  }
}
