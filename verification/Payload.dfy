/** Whole payloads: newline-delimited JSON, a JSON array, and the two-line entries of a bulk
    request; and what a reader gets back from each. */
module Payload {
  import opened Options
  import opened GoQuote
  import opened JsonText
  import opened Attrs
  import opened JsonTokens
  import Encode

  // ---- emitted trees are well formed ----

  predicate WfLeaf(v: Value) {
    match v
    case Str(t) => WfText(t)
    case Num(n) => WfNumber(n)
    case Time(t) => WfText(t)
    case Any(a) => a.json.Some? ==> WfNode(a.json.value)
    case _ => true
  }

  predicate WfEVal(v: EVal) {
    match v case Leaf(l) => WfLeaf(l) case Obj(fs) => WfEFields(fs)
  }

  /** Texts decode as UTF-8 says, numbers have strconv's shapes, and json.Marshal wrote compact
      JSON. */
  predicate WfEFields(fs: seq<EField>) {
    forall i | 0 <= i < |fs| :: WfText(fs[i].key) && WfEVal(fs[i].val)
  }

  lemma {:induction false} PlainPrefix(p: string, rest: string)
    requires forall i | 0 <= i < |p| :: p[i] >= ' ' && p[i] != '"' && p[i] != '\\'
    ensures SafeBody(p + rest) == SafeBody(rest)
  {
    if p == [] {
      assert p + rest == rest;
    } else {
      assert (p + rest)[1..] == p[1..] + rest;
      PlainPrefix(p[1..], rest);
    }
  }

  lemma EscapePrefix(letter: char, p: string, rest: string)
    requires letter >= ' ' && forall i | 0 <= i < |p| :: p[i] >= ' ' && p[i] != '"' && p[i] != '\\'
    ensures SafeBody(['\\', letter] + p + rest) == SafeBody(rest)
  {
    assert (['\\', letter] + p + rest)[2..] == p + rest;
    PlainPrefix(p, rest);
  }

  lemma QuoteSymSafe(s: Sym, rest: string)
    requires WfSym(s) && SafeBody(rest) && (s.Rune? && s.shown ==> s.c >= ' ')
    ensures SafeBody(QuoteSym(s) + rest)
  {
    var q := QuoteSym(s);
    if q[0] == '\\' {
      assert q == ['\\', q[1]] + q[2..];
      EscapePrefix(q[1], q[2..], rest);
    } else {
      PlainPrefix(q, rest);
    }
  }

  lemma {:induction false} QuoteBodySafe(t: Text)
    requires WfText(t)
    ensures SafeBody(QuoteBody(t))
  {
    if t != [] {
      QuoteBodySafe(t[1..]);
      QuoteSymSafe(t[0], QuoteBody(t[1..]));
    }
  }

  lemma {:induction false} NodesWf(fs: seq<EField>)
    requires WfEFields(fs)
    ensures WfFields(NodesOf(fs)) && |NodesOf(fs)| == |fs|
    decreases fs, 1
  {
    if fs != [] {
      QuoteBodySafe(fs[0].key);
      NodeWf(fs[0].val);
      NodesWf(fs[1..]);
    }
  }

  lemma {:induction false} NodeWf(v: EVal)
    requires WfEVal(v)
    ensures WfNode(NodeOf(v))
    decreases v, 0
  {
    match v
    case Obj(fs) => NodesWf(fs);
    case Leaf(Str(t)) => QuoteBodySafe(t);
    case Leaf(Time(t)) => QuoteBodySafe(t);
    case Leaf(Num(n)) => WordIsToken(n);
    case _ =>
  }

  // ---- no raw newline ----

  predicate OneLine(t: string) { forall i | 0 <= i < |t| :: t[i] >= ' ' }

  lemma {:induction false} BodyOneLine(b: string)
    requires SafeBody(b)
    ensures OneLine(b)
  {
    if b != [] {
      var k := if b[0] == '\\' then 2 else 1;
      BodyOneLine(b[k..]);
      assert forall i | k <= i < |b| :: b[i] == b[k..][i - k];
    }
  }

  /** No encoded value contains a raw newline or any other control character. */
  lemma {:induction false} PrintedOneLine(n: Node)
    requires WfNode(n)
    ensures OneLine(Print(n))
    decreases n, 0
  {
    match n
    case NStr(body) => BodyOneLine(body);
    case NTok(tok) =>
    case NArr(items) => ItemsOneLine(items, true);
    case NObj(fields) => FieldsOneLine(fields, true);
  }

  lemma {:induction false} ItemsOneLine(items: seq<Node>, first: bool)
    requires forall i | 0 <= i < |items| :: WfNode(items[i])
    ensures OneLine(PrintItems(items, first))
    decreases items, 1
  {
    if items != [] {
      PrintedOneLine(items[0]);
      ItemsOneLine(items[1..], false);
    }
  }

  lemma {:induction false} FieldsOneLine(fs: seq<NField>, first: bool)
    requires WfFields(fs)
    ensures OneLine(PrintFields(fs, first))
    decreases fs, 1
  {
    if fs != [] {
      BodyOneLine(fs[0].key);
      PrintedOneLine(fs[0].val);
      FieldsOneLine(fs[1..], false);
    }
  }

  // ---- lines ----

  function Lines(ls: seq<string>): string {
    if ls == [] then [] else ls[0] + "\n" + Lines(ls[1..])
  }

  function UntilNewline(t: string): (n: nat)
    ensures n <= |t|
  {
    if t == [] || t[0] == '\n' then 0 else 1 + UntilNewline(t[1..])
  }

  /** The lines of a text whose last line is terminated too. */
  function SplitLines(t: string): seq<string>
    decreases |t|
  {
    if t == [] then []
    else
      var n := UntilNewline(t);
      if n == |t| then [t] else [t[..n]] + SplitLines(t[n + 1..])
  }

  lemma {:induction false} UntilNewlineOf(l: string, rest: string)
    requires OneLine(l)
    ensures UntilNewline(l + "\n" + rest) == |l|
  {
    if l != [] {
      assert (l + "\n" + rest)[1..] == l[1..] + "\n" + rest;
      UntilNewlineOf(l[1..], rest);
    }
  }

  /** Framing is unambiguous: splitting at newlines gives back exactly the lines. */
  lemma {:induction false} SplitLinesOf(ls: seq<string>)
    requires forall i | 0 <= i < |ls| :: OneLine(ls[i])
    ensures SplitLines(Lines(ls)) == ls
  {
    if ls != [] {
      var t, rest := Lines(ls), Lines(ls[1..]);
      UntilNewlineOf(ls[0], rest);
      assert t[..|ls[0]|] == ls[0] && t[|ls[0]| + 1..] == rest;
      SplitLinesOf(ls[1..]);
      assert ls == [ls[0]] + ls[1..];
    }
  }

  // ---- marshalBatch ----

  /** Each record is printed with the static fields in an order of its own. */
  function RecordNodes(batch: seq<Rec>, orders: seq<Static>): seq<Node>
    requires |orders| == |batch|
  {
    if batch == [] then [] else [RecordNode(batch[0], orders[0])] + RecordNodes(batch[1..], orders[1..])
  }

  predicate BatchMarshals(batch: seq<Rec>, orders: seq<Static>)
    requires |orders| == |batch|
  {
    forall i | 0 <= i < |batch| :: RecMarshals(batch[i], orders[i])
  }

  function PrintAll(nodes: seq<Node>): seq<string> {
    if nodes == [] then [] else [Print(nodes[0])] + PrintAll(nodes[1..])
  }

  function Body(asArray: bool, nodes: seq<Node>): string {
    if asArray then Print(NArr(nodes)) else Lines(PrintAll(nodes))
  }

  /** What the rest of the loop appends when some records are already in the buffer. */
  function Rest(asArray: bool, nodes: seq<Node>, first: bool): string {
    if asArray then PrintItems(nodes, first) else Lines(PrintAll(nodes))
  }

  lemma NextNode(asArray: bool, nodes: seq<Node>, i: nat, buf: string)
    requires i < |nodes|
    ensures buf + Rest(asArray, nodes[i..], i == 0)
         == buf + (if asArray && i > 0 then "," else "") + Print(nodes[i]) + (if asArray then "" else "\n")
            + Rest(asArray, nodes[i + 1..], false)
  {
    assert nodes[i..][0] == nodes[i] && nodes[i..][1..] == nodes[i + 1..];
    if !asArray {
      assert PrintAll(nodes[i..])[1..] == PrintAll(nodes[i + 1..]);
    }
  }

  lemma {:induction false} RecordNodeAt(batch: seq<Rec>, orders: seq<Static>)
    requires |orders| == |batch|
    ensures |RecordNodes(batch, orders)| == |batch|
    ensures forall i | 0 <= i < |batch| :: RecordNodes(batch, orders)[i] == RecordNode(batch[i], orders[i])
  {
    if batch != [] { RecordNodeAt(batch[1..], orders[1..]); }
  }

  predicate RecMarshals(rec: Rec, order: Static) { Marshals(RecordFields(rec, order)) }

  /** One turn of the loop of marshalBatch. */
  method AppendEntry(buf: string, asArray: bool, batch: seq<Rec>, orders: seq<Static>, i: nat, ghost nodes: seq<Node>)
    returns (out: string, ok: bool)
    requires i < |batch| == |orders| == |nodes| && nodes[i] == RecordNode(batch[i], orders[i])
    ensures ok == RecMarshals(batch[i], orders[i])
    ensures ok ==> out + Rest(asArray, nodes[i + 1..], false) == buf + Rest(asArray, nodes[i..], i == 0)
  {
    out := buf;
    if asArray && i > 0 {
      out := out + ",";
    }
    assert out == buf + (if asArray && i > 0 then "," else "");
    out, ok := Encode.AppendRecord(out, batch[i], orders[i]);
    if ok {
      if !asArray {
        out := out + "\n";
      }
      NextNode(asArray, nodes, i, buf);
    }
  }

  /** marshalBatch: the records as terminated lines or as one array, or nothing at all when
      one of them cannot be marshalled. */
  method MarshalBatch(asArray: bool, batch: seq<Rec>, orders: seq<Static>) returns (buf: string, ok: bool)
    requires |orders| == |batch|
    ensures ok == BatchMarshals(batch, orders)
    ensures ok ==> buf == Body(asArray, RecordNodes(batch, orders))
  {
    ghost var nodes := RecordNodes(batch, orders);
    RecordNodeAt(batch, orders);
    buf := if asArray then "[" else "";
    ok := true;
    ghost var whole := buf + Rest(asArray, nodes, true);
    assert nodes[0..] == nodes;
    var i := 0;
    while i < |batch|
      invariant 0 <= i <= |batch| && ok
      invariant forall k | 0 <= k < i :: RecMarshals(batch[k], orders[k])
      invariant buf + Rest(asArray, nodes[i..], i == 0) == whole
    {
      buf, ok := AppendEntry(buf, asArray, batch, orders, i, nodes);
      if !ok {
        return;
      }
      i := i + 1;
    }
    assert buf == whole;
    if asArray {
      buf := buf + "]";
    }
  }

  /** The head of ship: the payload goes on to be sent exactly when every record can be
      marshalled and the bytes are within MaxBatchBytes. */
  method BuildPayload(asArray: bool, batch: seq<Rec>, orders: seq<Static>, maxBytes: int) returns (p: Option<string>)
    requires |orders| == |batch|
    ensures p.Some? <==>
              BatchMarshals(batch, orders)
              && (maxBytes > 0 ==> Bytes(Body(asArray, RecordNodes(batch, orders))) <= maxBytes)
    ensures p.Some? ==> p.value == Body(asArray, RecordNodes(batch, orders))
  {
    var buf, ok := MarshalBatch(asArray, batch, orders);
    if !ok || (maxBytes > 0 && Bytes(buf) > maxBytes) {
      return None;
    }
    p := Some(buf);
  }

  // ---- what a receiver reads ----

  lemma {:induction false} PrintAllLines(nodes: seq<Node>)
    requires forall i | 0 <= i < |nodes| :: WfNode(nodes[i])
    ensures |PrintAll(nodes)| == |nodes|
    ensures forall i | 0 <= i < |nodes| :: PrintAll(nodes)[i] == Print(nodes[i]) && OneLine(PrintAll(nodes)[i])
  {
    if nodes != [] {
      PrintedOneLine(nodes[0]);
      PrintAllLines(nodes[1..]);
    }
  }

  /** A newline-delimited payload splits into as many lines as there are records, and line k
      reads back as record k's tree with nothing left over. */
  lemma NdjsonRoundTrip(nodes: seq<Node>)
    requires forall i | 0 <= i < |nodes| :: WfNode(nodes[i])
    ensures var lines := SplitLines(Body(false, nodes));
            && |lines| == |nodes|
            && forall k | 0 <= k < |nodes| :: OneLine(lines[k]) && ReadValue(lines[k]) == Some((nodes[k], ""))
  {
    PrintAllLines(nodes);
    SplitLinesOf(PrintAll(nodes));
    forall k | 0 <= k < |nodes| ensures ReadValue(PrintAll(nodes)[k]) == Some((nodes[k], "")) {
      ReadPrinted(nodes[k], "");
      assert Print(nodes[k]) + "" == Print(nodes[k]);
    }
  }

  /** A JSON-array payload reads back as the array of the records' trees. */
  lemma ArrayRoundTrip(nodes: seq<Node>)
    requires forall i | 0 <= i < |nodes| :: WfNode(nodes[i])
    ensures ReadValue(Body(true, nodes)) == Some((NArr(nodes), ""))
  {
    ReadPrinted(NArr(nodes), "");
    assert Body(true, nodes) + "" == Body(true, nodes);
  }

  /** The trees of a batch of records are well formed. */
  lemma BatchWf(batch: seq<Rec>, orders: seq<Static>)
    requires |orders| == |batch|
    requires forall i | 0 <= i < |batch| :: WfEFields(RecordFields(batch[i], orders[i]))
    ensures |RecordNodes(batch, orders)| == |batch|
    ensures forall i | 0 <= i < |batch| ::
              RecordNodes(batch, orders)[i] == RecordNode(batch[i], orders[i]) && WfNode(RecordNode(batch[i], orders[i]))
  {
    RecordNodeAt(batch, orders);
    forall i | 0 <= i < |batch| ensures WfNode(RecordNode(batch[i], orders[i])) {
      NodesWf(RecordFields(batch[i], orders[i]));
    }
  }

  /** So what marshalBatch returns can be read: line k of a newline-delimited payload is one
      line and reads as record k, and the array reads as the array of the records. */
  lemma BatchRoundTrip(batch: seq<Rec>, orders: seq<Static>)
    requires |orders| == |batch|
    requires forall i | 0 <= i < |batch| :: WfEFields(RecordFields(batch[i], orders[i]))
    ensures var lines := SplitLines(Body(false, RecordNodes(batch, orders)));
            && |lines| == |batch|
            && forall k | 0 <= k < |batch| ::
                 OneLine(lines[k]) && ReadValue(lines[k]) == Some((RecordNode(batch[k], orders[k]), ""))
    ensures ReadValue(Body(true, RecordNodes(batch, orders))) == Some((NArr(RecordNodes(batch, orders)), ""))
  {
    BatchWf(batch, orders);
    NdjsonRoundTrip(RecordNodes(batch, orders));
    ArrayRoundTrip(RecordNodes(batch, orders));
  }

  // ---- JSON validity of the whole record ----

  /** Every string of the tree is a section 7 string and every bare word a literal name or a
      section 6 number. */
  predicate JsonNode(n: Node)
    decreases n, 0
  {
    match n
    case NStr(body) => JsonRead(body).Some?
    case NTok(tok) => JsonToken(tok)
    case NArr(items) => forall i | 0 <= i < |items| :: JsonNode(items[i])
    case NObj(fields) => JsonFields(fields)
  }

  predicate JsonFields(fs: seq<NField>)
    decreases fs, 1
  {
    forall i | 0 <= i < |fs| :: JsonRead(fs[i].key).Some? && JsonNode(fs[i].val)
  }

  /** Every key and text the encoder itself quotes is one JSON quotes alike, every float it
      writes is finite, and what json.Marshal wrote is JSON. */
  predicate SafeVal(v: EVal)
    decreases v, 0
  {
    match v
    case Leaf(Str(t)) => AllJsonSafe(t)
    case Leaf(Time(t)) => AllJsonSafe(t)
    case Leaf(Num(n)) => !n.NotANumber? && !n.Infinite?
    case Leaf(Any(a)) => a.json.Some? ==> JsonNode(a.json.value)
    case Leaf(_) => true
    case Obj(fs) => SafeFields(fs)
  }

  predicate SafeFields(fs: seq<EField>)
    decreases fs, 1
  {
    forall i | 0 <= i < |fs| :: AllJsonSafe(fs[i].key) && SafeVal(fs[i].val)
  }

  /** The tree of a record is JSON exactly when no text in it holds a symbol that Go escapes in
      a way JSON does not know, and no float in it is infinite or not a number. */
  lemma {:induction false} FieldsAreJson(fs: seq<EField>)
    requires WfEFields(fs)
    ensures JsonFields(NodesOf(fs)) <==> SafeFields(fs)
    decreases fs, 1
  {
    if fs != [] {
      var nodes := NodesOf(fs);
      QuotedIsJson(fs[0].key);
      ValIsJson(fs[0].val);
      FieldsAreJson(fs[1..]);
      assert JsonFields(nodes) <==> JsonRead(nodes[0].key).Some? && JsonNode(nodes[0].val) && JsonFields(nodes[1..]);
      assert SafeFields(fs) <==> AllJsonSafe(fs[0].key) && SafeVal(fs[0].val) && SafeFields(fs[1..]);
    }
  }

  lemma {:induction false} ValIsJson(v: EVal)
    requires WfEVal(v)
    ensures JsonNode(NodeOf(v)) <==> SafeVal(v)
    decreases v, 0
  {
    match v
    case Obj(fs) => FieldsAreJson(fs);
    case Leaf(Str(t)) => QuotedIsJson(t);
    case Leaf(Time(t)) => QuotedIsJson(t);
    case Leaf(Num(n)) => WordIsJson(n);
    case _ =>
  }

  /** A text that a JSON parser accepts, without white space between its tokens. */
  predicate IsJsonText(t: string) {
    match ReadValue(t) case None => false case Some((n, rest)) => rest == "" && JsonNode(n)
  }

  /** The text of an encoded record is JSON if and only if its fields are safe. */
  lemma RecordIsJson(rec: Rec, fixed: Static)
    requires WfEFields(RecordFields(rec, fixed))
    ensures IsJsonText(Print(RecordNode(rec, fixed))) <==> SafeFields(RecordFields(rec, fixed))
  {
    NodesWf(RecordFields(rec, fixed));
    FieldsAreJson(RecordFields(rec, fixed));
    ReadPrinted(RecordNode(rec, fixed), "");
    assert Print(RecordNode(rec, fixed)) + "" == Print(RecordNode(rec, fixed));
  }

  // ---- the bulk body ----

  /** Action line, document line, for each document. */
  function BulkLines(action: string, docs: seq<Node>): seq<string> {
    if docs == [] then [] else [action, Print(docs[0])] + BulkLines(action, docs[1..])
  }

  /** The documents of a batch, when each of them can be marshalled. */
  function AllMarshalled(docs: seq<Option<Node>>): (r: Option<seq<Node>>)
    ensures r.Some? ==> |r.value| == |docs|
  {
    if docs == [] then Some([])
    else match (docs[0], AllMarshalled(docs[1..]))
      case (Some(d), Some(ds)) => Some([d] + ds)
      case _ => None
  }

  lemma {:induction false} MarshalledAt(docs: seq<Option<Node>>)
    ensures AllMarshalled(docs).Some? <==> forall i | 0 <= i < |docs| :: docs[i].Some?
    ensures AllMarshalled(docs).Some? ==>
              forall i | 0 <= i < |docs| :: docs[i] == Some(AllMarshalled(docs).value[i])
  {
    if docs != [] { MarshalledAt(docs[1..]); }
  }

  /** The head of elastic's ship: each record's action and document, None where json.Marshal
      fails, written as two lines; then the test against MaxBatchBytes. */
  method BuildBulk(action: Option<Node>, docs: seq<Option<Node>>, maxBytes: int) returns (p: Option<string>)
    ensures p.Some? <==>
              && AllMarshalled(docs).Some? && (docs == [] || action.Some?)
              && (docs != [] && maxBytes > 0 ==>
                    Bytes(Lines(BulkLines(Print(action.value), AllMarshalled(docs).value))) <= maxBytes)
    ensures p.Some? ==>
              p.value == if docs == [] then "" else Lines(BulkLines(Print(action.value), AllMarshalled(docs).value))
  {
    MarshalledAt(docs);
    if docs == [] {
      return Some("");
    }
    if action.None? {
      return None;
    }
    var body, ok := BulkBody(action.value, docs);
    if !ok || (maxBytes > 0 && Bytes(body) > maxBytes) {
      return None;
    }
    p := Some(body);
  }

  /** Its loop. */
  method BulkBody(action: Node, docs: seq<Option<Node>>) returns (body: string, ok: bool)
    ensures ok == AllMarshalled(docs).Some?
    ensures ok ==> body == Lines(BulkLines(Print(action), AllMarshalled(docs).value))
  {
    body, ok := "", true;
    ghost var all := if AllMarshalled(docs).Some? then AllMarshalled(docs).value else [];
    MarshalledAt(docs);
    var i := 0;
    while i < |docs|
      invariant 0 <= i <= |docs| && forall k | 0 <= k < i :: docs[k].Some?
      invariant AllMarshalled(docs).Some? ==>
                  body + Lines(BulkLines(Print(action), all[i..])) == Lines(BulkLines(Print(action), all))
    {
      if docs[i].None? {
        return body, false;
      }
      if AllMarshalled(docs).Some? { NextEntry(Print(action), all, i, body); }
      body := body + Print(action);
      body := body + "\n";
      body := body + Print(docs[i].value);
      body := body + "\n";
      i := i + 1;
    }
  }

  lemma NextEntry(action: string, docs: seq<Node>, i: nat, body: string)
    requires i < |docs|
    ensures body + Lines(BulkLines(action, docs[i..]))
         == body + action + "\n" + Print(docs[i]) + "\n" + Lines(BulkLines(action, docs[i + 1..]))
  {
    var rest := BulkLines(action, docs[i + 1..]);
    assert docs[i..][1..] == docs[i + 1..];
    assert BulkLines(action, docs[i..])[1..] == [Print(docs[i])] + rest;
    assert ([Print(docs[i])] + rest)[1..] == rest;
  }

  /** A bulk body has exactly two lines per document, the action before each document. */
  lemma {:induction false} BulkAlternates(action: Node, docs: seq<Node>)
    requires WfNode(action) && forall i | 0 <= i < |docs| :: WfNode(docs[i])
    ensures var ls := BulkLines(Print(action), docs);
            && SplitLines(Lines(ls)) == ls && |ls| == 2 * |docs|
            && forall k | 0 <= k < |docs| :: ls[2 * k] == Print(action) && ls[2 * k + 1] == Print(docs[k])
  {
    BulkLinesAt(action, docs);
    SplitLinesOf(BulkLines(Print(action), docs));
  }

  lemma {:induction false} BulkLinesAt(action: Node, docs: seq<Node>)
    requires WfNode(action) && forall i | 0 <= i < |docs| :: WfNode(docs[i])
    ensures var ls := BulkLines(Print(action), docs);
            && |ls| == 2 * |docs| && (forall i | 0 <= i < |ls| :: OneLine(ls[i]))
            && forall k | 0 <= k < |docs| :: ls[2 * k] == Print(action) && ls[2 * k + 1] == Print(docs[k])
  {
    if docs != [] {
      PrintedOneLine(action);
      PrintedOneLine(docs[0]);
      BulkLinesAt(action, docs[1..]);
      var ls, rest := BulkLines(Print(action), docs), BulkLines(Print(action), docs[1..]);
      assert forall i | 2 <= i < |ls| :: ls[i] == rest[i - 2];
      forall k | 0 < k < |docs| ensures ls[2 * k] == Print(action) && ls[2 * k + 1] == Print(docs[k]) {
        assert rest[2 * (k - 1)] == Print(action) && rest[2 * (k - 1) + 1] == Print(docs[1..][k - 1]);
      }
    }
  }
}
