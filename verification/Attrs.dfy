/** slog attribute trees, and the fields a record is made of once it is resolved. */
module Attrs {
  import opened Options
  import opened GoQuote
  import opened JsonText
  import opened JsonTokens

  /** A value of kind Any: what json.Marshal makes of it (None when it fails), whether its
      dynamic type is a map, slice, pointer or interface, and its Error() text if it has one. */
  datatype AnyVal = AnyVal(json: Option<Node>, boxed: bool, err: Option<Text>)

  datatype Value =
    | Str(t: Text)
    | Num(n: Number)               // int64, uint64, float64, bool or duration
    | Time(t: Text)                // in RFC 3339 with nanoseconds
    | Group(attrs: seq<Attr>)
    | Any(any: AnyVal)
    | Valuer(inner: Value)         // a LogValuer and the value it answers with

  datatype Attr = Attr(key: Text, value: Value)

  /** Value.Resolve: follow LogValuers to a value that is none. */
  function Resolve(v: Value): (r: Value)
    ensures !r.Valuer? && (r == v || r < v)
  {
    match v case Valuer(inner) => Resolve(inner) case _ => v
  }

  /** A record as the encoders see it: formatted time and level, message, attributes. */
  datatype Rec = Rec(time: Text, level: Text, message: Text, attrs: seq<Attr>)

  // ---- fields ----

  datatype EField = EField(key: Text, val: EVal)

  /** A resolved leaf, or an object of fields in emission order, repeated keys included. */
  datatype EVal = Leaf(v: Value) | Obj(fields: seq<EField>)

  /** The fields appendAttr emits: a group without a key is inlined, anything else without a
      key is skipped. */
  function Emit(a: Attr): seq<EField>
    decreases a, 0
  {
    var v := Resolve(a.value);
    if a.key == [] then (if v.Group? then EmitAll(v.attrs) else [])
    else [EField(a.key, if v.Group? then Obj(EmitAll(v.attrs)) else Leaf(v))]
  }

  function EmitAll(attrs: seq<Attr>): seq<EField>
    decreases attrs, 1
  {
    if attrs == [] then [] else Emit(attrs[0]) + EmitAll(attrs[1..])
  }

  function Ascii(s: string): Text {
    seq(|s|, i requires 0 <= i < |s| => Rune(s[i], true))
  }

  function TextField(key: string, t: Text): EField { EField(Ascii(key), Leaf(Str(t))) }

  /** The static fields in the order one iteration over the map yields them. */
  type Static = seq<(Text, AnyVal)>

  function StaticFields(fixed: Static): seq<EField> {
    if fixed == [] then [] else [EField(fixed[0].0, Leaf(Any(fixed[0].1)))] + StaticFields(fixed[1..])
  }

  const TIMESTAMP: string := "@timestamp"
  const MESSAGE: string := "message"
  const LEVEL: string := "log.level"

  function BaseFields(rec: Rec): seq<EField> {
    [TextField(TIMESTAMP, rec.time), TextField(MESSAGE, rec.message), TextField(LEVEL, rec.level)]
  }

  function RecordFields(rec: Rec, fixed: Static): seq<EField> {
    BaseFields(rec) + StaticFields(fixed) + EmitAll(rec.attrs)
  }

  // ---- fields as JSON text trees ----

  function LeafNode(v: Value): Node {
    match v
    case Str(t) => NStr(QuoteBody(t))
    case Num(n) => NTok(Word(n))
    case Time(t) => NStr(QuoteBody(t))
    case Any(a) => if a.json.Some? then a.json.value else NTok("null")
    case _ => NTok("null")
  }

  function NodeOf(v: EVal): Node {
    match v case Leaf(l) => LeafNode(l) case Obj(fs) => NObj(NodesOf(fs))
  }

  function NodesOf(fs: seq<EField>): seq<NField> {
    if fs == [] then [] else [NField(QuoteBody(fs[0].key), NodeOf(fs[0].val))] + NodesOf(fs[1..])
  }

  /** No leaf fails in json.Marshal. */
  predicate Marshals(fs: seq<EField>) {
    forall i | 0 <= i < |fs| :: MarshalsVal(fs[i].val)
  }

  predicate MarshalsVal(v: EVal) {
    match v case Leaf(l) => (l.Any? ==> l.any.json.Some?) case Obj(fs) => Marshals(fs)
  }

  lemma MarshalsAppend(a: seq<EField>, b: seq<EField>)
    ensures Marshals(a + b) <==> Marshals(a) && Marshals(b)
  {
    assert forall i | 0 <= i < |a| :: (a + b)[i] == a[i];
    assert forall i | 0 <= i < |b| :: b[i] == (a + b)[|a| + i];
  }

  function RecordNode(rec: Rec, fixed: Static): Node { NObj(NodesOf(RecordFields(rec, fixed))) }

  lemma {:induction false} NodesAppend(a: seq<EField>, b: seq<EField>)
    ensures NodesOf(a + b) == NodesOf(a) + NodesOf(b)
  {
    if a == [] {
      assert a + b == b;
    } else {
      assert (a + b)[1..] == a[1..] + b;
      NodesAppend(a[1..], b);
    }
  }

  lemma {:induction false} PrintAppend(a: seq<NField>, b: seq<NField>, first: bool)
    ensures PrintFields(a + b, first) == PrintFields(a, first) + PrintFields(b, first && a == [])
  {
    if a == [] {
      assert a + b == b;
    } else {
      assert (a + b)[1..] == a[1..] + b;
      PrintAppend(a[1..], b, false);
    }
  }

  /** Fields at every level, counted together. */
  function FieldCount(fs: seq<EField>): nat
    decreases fs, 1
  {
    if fs == [] then 0 else 1 + ValCount(fs[0].val) + FieldCount(fs[1..])
  }

  function ValCount(v: EVal): nat
    decreases v, 0
  {
    match v case Leaf(_) => 0 case Obj(fs) => FieldCount(fs)
  }

  lemma {:induction false} CountAppend(a: seq<EField>, b: seq<EField>)
    ensures FieldCount(a + b) == FieldCount(a) + FieldCount(b)
  {
    if a == [] {
      assert a + b == b;
    } else {
      assert (a + b)[1..] == a[1..] + b;
      CountAppend(a[1..], b);
    }
  }
}
