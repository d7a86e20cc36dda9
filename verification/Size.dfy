/** slogsnapshot's size estimate, and when it covers what httpsink really writes. */
module Size {
  import opened Options
  import opened GoQuote
  import opened JsonText
  import opened JsonTokens
  import opened Attrs
  import opened Snapshot
  import opened Payload

  // ---- the estimate ----

  /** What attrSize allows for a resolved value that is no group. */
  function Allowance(v: Value): nat {
    match v
    case Str(t) => TextBytes(t) * 6
    case Any(a) => if a.json.Some? then Bytes(Print(a.json.value)) else 32
    case _ => 32
  }

  function AttrSize(a: Attr): nat
    decreases a, 0
  {
    var v := Resolve(a.value);
    TextBytes(a.key) * 6 + 8 + (if v.Group? then AttrsSize(v.attrs) else Allowance(v))
  }

  function AttrsSize(attrs: seq<Attr>): nat
    decreases attrs, 1
  {
    if attrs == [] then 0 else AttrSize(attrs[0]) + AttrsSize(attrs[1..])
  }

  function Estimate(rec: Rec): nat { TextBytes(rec.message) * 6 + 96 + AttrsSize(rec.attrs) }

  /** attrSize as code: the size grows along the members of a group. */
  method MeasureAttr(a: Attr) returns (size: nat)
    ensures size == AttrSize(a)
    decreases a
  {
    var value := Resolve(a.value);
    size := TextBytes(a.key) * 6 + 8;
    match value
    case Str(t) => size := size + TextBytes(t) * 6;
    case Group(attrs) =>
      var i := 0;
      while i < |attrs|
        invariant 0 <= i <= |attrs| && size + AttrsSize(attrs[i..]) == AttrSize(a)
      {
        assert attrs[i..][0] == attrs[i] && attrs[i..][1..] == attrs[i + 1..];
        var nested := MeasureAttr(attrs[i]);
        size := size + nested;
        i := i + 1;
      }
    case Any(any) =>
      size := size + if any.json.Some? then Bytes(Print(any.json.value)) else 32;
    case Num(_) => size := size + 32;
    case Time(_) => size := size + 32;
  }

  /** The first pass of Record: measure, and look for mutable values. */
  method Inspect(rec: Rec) returns (size: nat, mutable: bool)
    ensures size == Estimate(rec) && mutable == NeedsAny(rec.attrs)
  {
    size := TextBytes(rec.message) * 6 + 96;
    mutable := false;
    var i := 0;
    while i < |rec.attrs|
      invariant 0 <= i <= |rec.attrs|
      invariant size + AttrsSize(rec.attrs[i..]) == Estimate(rec)
      invariant (mutable || NeedsAny(rec.attrs[i..])) == NeedsAny(rec.attrs)
    {
      assert rec.attrs[i..][0] == rec.attrs[i] && rec.attrs[i..][1..] == rec.attrs[i + 1..];
      var one := MeasureAttr(rec.attrs[i]);
      size := size + one;
      mutable := mutable || Needs(Resolve(rec.attrs[i].value));
      i := i + 1;
    }
  }

  lemma SnapNext(attrs: seq<Attr>, i: nat)
    requires i < |attrs|
    ensures SnapGroup(attrs[i..]) == Kept(Snap(attrs[i])) + SnapGroup(attrs[i + 1..])
  {
    assert attrs[i..][0] == attrs[i] && attrs[i..][1..] == attrs[i + 1..];
  }

  lemma KeepOne(out: seq<Attr>, frozen: Attr, rest: seq<Attr>)
    ensures out + (Kept(frozen) + rest) == (if EmptyGroup(frozen) then out else out + [frozen]) + rest
  {
    assert out + ([frozen] + rest) == (out + [frozen]) + rest;
  }

  /** The second pass, only for records with mutable values. */
  method SnapshotAttrs(attrs: seq<Attr>) returns (out: seq<Attr>)
    ensures out == SnapGroup(attrs)
  {
    out := [];
    var i := 0;
    while i < |attrs|
      invariant 0 <= i <= |attrs| && out + SnapGroup(attrs[i..]) == SnapGroup(attrs)
    {
      SnapNext(attrs, i);
      var frozen := SnapshotAttr(attrs[i]);
      KeepOne(out, frozen, SnapGroup(attrs[i + 1..]));
      if !EmptyGroup(frozen) {
        out := out + [frozen];
      }
      i := i + 1;
    }
  }

  method Record(rec: Rec) returns (out: Rec, size: nat)
    ensures out == rec.(attrs := Frozen(rec.attrs)) && size == Estimate(rec)
  {
    var mutable;
    size, mutable := Inspect(rec);
    out := rec;
    if mutable {
      var attrs := SnapshotAttrs(rec.attrs);
      out := rec.(attrs := attrs);
    }
  }

  // ---- what is written ----

  function FieldBytes(f: EField): nat { Bytes(PrintField(NField(QuoteBody(f.key), NodeOf(f.val)))) }

  /** The bytes of fields that each follow a comma. */
  function FieldsBytes(fs: seq<EField>): nat {
    if fs == [] then 0 else 1 + FieldBytes(fs[0]) + FieldsBytes(fs[1..])
  }

  lemma {:induction false} PrintedBytes(fs: seq<EField>, first: bool)
    ensures Bytes(PrintFields(NodesOf(fs), first)) == FieldsBytes(fs) - (if first && fs != [] then 1 else 0)
  {
    if fs != [] {
      var f := NField(QuoteBody(fs[0].key), NodeOf(fs[0].val));
      var sep := if first then "" else ",";
      assert NodesOf(fs)[0] == f && NodesOf(fs)[1..] == NodesOf(fs[1..]);
      BytesAppend(sep + PrintField(f), PrintFields(NodesOf(fs[1..]), false));
      BytesAppend(sep, PrintField(f));
      PrintedBytes(fs[1..], false);
      assert Bytes(",") == 1;
    }
  }

  lemma FieldBytesOf(f: EField)
    ensures FieldBytes(f) == 3 + Bytes(QuoteBody(f.key)) + Bytes(Print(NodeOf(f.val)))
  {
    var k, v := QuoteBody(f.key), Print(NodeOf(f.val));
    BytesAppend("\"" + k + "\":", v);
    BytesAppend("\"" + k, "\":");
    BytesAppend("\"", k);
    assert Bytes("\":") == 2 by { AsciiBytes("\":"); }
  }

  lemma {:induction false} FieldsBytesAppend(a: seq<EField>, b: seq<EField>)
    ensures FieldsBytes(a + b) == FieldsBytes(a) + FieldsBytes(b)
  {
    if a == [] {
      assert a + b == b;
    } else {
      assert (a + b)[1..] == a[1..] + b;
      FieldsBytesAppend(a[1..], b);
    }
  }

  lemma WrappedBytes(open: string, body: string, close: string)
    requires |open| == |close| == 1 && open[0] as int < 0x80 && close[0] as int < 0x80
    ensures Bytes(open + body + close) == Bytes(body) + 2
  {
    BytesAppend(open + body, close);
    BytesAppend(open, body);
  }

  lemma ObjectBytes(fs: seq<EField>)
    ensures Bytes(Print(NodeOf(Obj(fs)))) == FieldsBytes(fs) + 2 - (if fs == [] then 0 else 1)
  {
    WrappedBytes("{", PrintFields(NodesOf(fs), true), "}");
    PrintedBytes(fs, true);
  }

  // ---- one leaf ----

  function LeafBytes(v: Value): nat { Bytes(Print(LeafNode(v))) }

  /** The text written for this leaf fits its allowance and the slack every key leaves. */
  predicate LeafFits(v: Value, written: Value) { LeafBytes(written) <= Allowance(v) + 6 }

  /** The shortest key that quoting stretches the most. */
  const TIGHT_KEY: Text := [Rune(1 as char, false)]

  lemma TightKeyBytes(v: Value, written: Value)
    requires !v.Valuer? && !v.Group?
    ensures WfText(TIGHT_KEY) && TIGHT_KEY != []
    ensures 1 + FieldBytes(EField(TIGHT_KEY, Leaf(written))) == 8 + LeafBytes(written)
    ensures AttrSize(Attr(TIGHT_KEY, v)) == 14 + Allowance(v)
  {
    FieldBytesOf(EField(TIGHT_KEY, Leaf(written)));
    assert TIGHT_KEY[1..] == [];
    assert QuoteBody(TIGHT_KEY) == QuoteSym(TIGHT_KEY[0]);
    assert |QuoteSym(TIGHT_KEY[0])| == 4;
    AsciiBytes(QuoteSym(TIGHT_KEY[0]));
    assert TextBytes(TIGHT_KEY) == 1;
  }

  lemma FittingLeaf(key: Text, v: Value, written: Value)
    requires !v.Valuer? && !v.Group? && LeafFits(v, written) && WfText(key) && key != []
    ensures 1 + FieldBytes(EField(key, Leaf(written))) <= AttrSize(Attr(key, v))
  {
    FieldBytesOf(EField(key, Leaf(written)));
    QuoteExpansion(key);
    assert SymBytes(key[0]) >= 1;
  }

  /** The exact condition for the estimate to cover a leaf under every key there is: what is
      written is at most six bytes above the allowance. An empty key would leave no room at
      all, but nothing is written under it. */
  lemma LeafFitsEveryKey(v: Value, written: Value)
    requires !v.Valuer? && !v.Group?
    ensures LeafFits(v, written)
       <==> forall key: Text | WfText(key) && key != [] ::
              1 + FieldBytes(EField(key, Leaf(written))) <= AttrSize(Attr(key, v))
  {
    TightKeyBytes(v, written);
    if LeafFits(v, written) {
      forall key: Text | WfText(key) && key != []
        ensures 1 + FieldBytes(EField(key, Leaf(written))) <= AttrSize(Attr(key, v))
      {
        FittingLeaf(key, v, written);
      }
    }
  }

  lemma StringFits(t: Text)
    requires WfText(t)
    ensures LeafFits(Str(t), Str(t))
  {
    QuoteExpansion(t);
    WrappedBytes("\"", QuoteBody(t), "\"");
  }

  lemma NumberFits(n: Number)
    requires WfNumber(n)
    ensures LeafFits(Num(n), Num(n))
  {
    WordIsToken(n);
    AsciiBytes(Word(n));
  }

  /** Strings, numbers, times of up to 36 bytes of quoted text, and values json.Marshal accepts
      that are no boxed errors. */
  predicate Ordinary(v: Value) {
    match v
    case Str(t) => WfText(t)
    case Num(n) => WfNumber(n)
    case Time(t) => Bytes(QuoteBody(t)) <= 36
    case Any(a) => a.json.Some? && (a.boxed ==> a.err.None?)
    case _ => false
  }

  /** They fit their allowance, as they are and as they are queued. */
  lemma OrdinaryLeafFits(v: Value)
    requires Ordinary(v)
    ensures LeafFits(v, v) && LeafFits(v, SnapLeaf(v))
  {
    match v
    case Str(t) => StringFits(t);
    case Num(n) => NumberFits(n);
    case Time(t) => WrappedBytes("\"", QuoteBody(t), "\"");
    case _ =>
  }

  /** A boxed error is queued as its text but measured as its JSON, and fits exactly when the
      quoted text is at most four bytes longer than that: for an error without exported fields,
      whose JSON is {}, when it has at most six bytes. */
  lemma ErrorFitsOnlyWhenShort(json: Node, text: Text)
    ensures var v := Any(AnyVal(Some(json), true, Some(text)));
            LeafFits(v, SnapLeaf(v)) <==> Bytes(QuoteBody(text)) <= Bytes(Print(json)) + 4
    ensures Bytes(Print(NObj([]))) == 2
  {
    WrappedBytes("\"", QuoteBody(text), "\"");
    ObjectBytes([]);
  }

  // ---- not too conservative ----

  /** The bytes of keys, texts and marshalled values of a tree, and how many attributes it has. */
  function Raw(attrs: seq<Attr>): nat
    decreases attrs, 1
  {
    if attrs == [] then 0 else RawOne(attrs[0]) + Raw(attrs[1..])
  }

  function RawOne(a: Attr): nat
    decreases a, 0
  {
    var v := Resolve(a.value);
    TextBytes(a.key)
    + match v
      case Group(attrs) => Raw(attrs)
      case Str(t) => TextBytes(t)
      case Any(any) => if any.json.Some? then Bytes(Print(any.json.value)) else 0
      case _ => 0
  }

  function Members(attrs: seq<Attr>): nat
    decreases attrs, 1
  {
    if attrs == [] then 0 else MembersOne(attrs[0]) + Members(attrs[1..])
  }

  function MembersOne(a: Attr): nat
    decreases a, 0
  {
    var v := Resolve(a.value);
    1 + if v.Group? then Members(v.attrs) else 0
  }

  /** The estimate is at most six times the bytes there are, and forty for each attribute; and
      never below those bytes and eight for each. */
  lemma {:induction false} EstimateIsModest(attrs: seq<Attr>)
    ensures Raw(attrs) + 8 * Members(attrs) <= AttrsSize(attrs) <= 6 * Raw(attrs) + 40 * Members(attrs)
    decreases attrs, 1
  {
    if attrs != [] {
      AttrIsModest(attrs[0]);
      EstimateIsModest(attrs[1..]);
    }
  }

  lemma {:induction false} AttrIsModest(a: Attr)
    ensures RawOne(a) + 8 * MembersOne(a) <= AttrSize(a) <= 6 * RawOne(a) + 40 * MembersOne(a)
    decreases a, 0
  {
    var v := Resolve(a.value);
    if v.Group? { EstimateIsModest(v.attrs); }
  }

  // ---- whole trees ----

  /** What the queued record holds for this attribute: itself on the fast path, its snapshot
      on the slow one. */
  function Queued(a: Attr, slow: bool): seq<Attr> { if slow then Kept(Snap(a)) else [a] }

  function QueuedAll(attrs: seq<Attr>, slow: bool): seq<Attr> { if slow then SnapGroup(attrs) else attrs }

  predicate Fits(a: Attr, slow: bool)
    decreases a, 0
  {
    var v := Resolve(a.value);
    WfText(a.key) &&
    if v.Group? then FitsAll(v.attrs, slow)
    else a.key != [] ==> LeafFits(v, if slow then SnapLeaf(v) else v)
  }

  predicate FitsAll(attrs: seq<Attr>, slow: bool)
    decreases attrs, 1
  {
    attrs == [] || (Fits(attrs[0], slow) && FitsAll(attrs[1..], slow))
  }

  lemma LeafBound(a: Attr, slow: bool)
    requires Fits(a, slow) && !Resolve(a.value).Group?
    ensures FieldsBytes(EmitAll(Queued(a, slow))) <= AttrSize(a)
  {
    var v := Resolve(a.value);
    var written := if slow then SnapLeaf(v) else v;
    if a.key == [] {
      assert EmitAll(Queued(a, slow)) == [];
    } else {
      var f := EField(a.key, Leaf(written));
      assert EmitAll(Queued(a, slow)) == [f];
      assert FieldsBytes([f]) == 1 + FieldBytes(f);
      FittingLeaf(a.key, v, written);
      assert AttrSize(Attr(a.key, v)) == AttrSize(a);
    }
  }

  lemma {:induction false} AttrBound(a: Attr, slow: bool)
    requires Fits(a, slow)
    ensures FieldsBytes(EmitAll(Queued(a, slow))) <= AttrSize(a)
    decreases a, 0
  {
    var v := Resolve(a.value);
    if !v.Group? {
      LeafBound(a, slow);
    } else {
      AttrsBound(v.attrs, slow);
      GroupBound(a, v, slow);
    }
  }

  lemma GroupBound(a: Attr, v: Value, slow: bool)
    requires v == Resolve(a.value) && v.Group? && WfText(a.key)
    requires FieldsBytes(EmitAll(QueuedAll(v.attrs, slow))) <= AttrsSize(v.attrs)
    ensures FieldsBytes(EmitAll(Queued(a, slow))) <= AttrSize(a)
  {
    var inner := EmitAll(QueuedAll(v.attrs, slow));
    if Queued(a, slow) != [] {
      assert EmitAll(Queued(a, slow)) == if a.key == [] then inner else [EField(a.key, Obj(inner))];
      if a.key != [] {
        var f := EField(a.key, Obj(inner));
        assert FieldsBytes([f]) == 1 + FieldBytes(f);
        FieldBytesOf(f);
        ObjectBytes(inner);
        QuoteExpansion(a.key);
      }
    }
  }

  lemma {:induction false} AttrsBound(attrs: seq<Attr>, slow: bool)
    requires FitsAll(attrs, slow)
    ensures FieldsBytes(EmitAll(QueuedAll(attrs, slow))) <= AttrsSize(attrs)
    decreases attrs, 1
  {
    if attrs != [] {
      AttrBound(attrs[0], slow);
      AttrsBound(attrs[1..], slow);
      QueuedNext(attrs, slow);
      FieldsBytesAppend(EmitAll(Queued(attrs[0], slow)), EmitAll(QueuedAll(attrs[1..], slow)));
    }
  }

  lemma QueuedNext(attrs: seq<Attr>, slow: bool)
    requires attrs != []
    ensures EmitAll(QueuedAll(attrs, slow)) == EmitAll(Queued(attrs[0], slow)) + EmitAll(QueuedAll(attrs[1..], slow))
  {
    assert QueuedAll(attrs, slow) == Queued(attrs[0], slow) + QueuedAll(attrs[1..], slow);
    EmitAppend(Queued(attrs[0], slow), QueuedAll(attrs[1..], slow));
  }

  // ---- whole records ----

  lemma {:induction false} AsciiBody(s: string)
    requires forall i | 0 <= i < |s| :: ' ' <= s[i] <= '~' && s[i] != '"' && s[i] != '\\'
    ensures WfText(Ascii(s)) && QuoteBody(Ascii(s)) == s && Bytes(s) == |s|
  {
    AsciiBytes(s);
    if s != [] {
      assert Ascii(s)[1..] == Ascii(s[1..]);
      AsciiBody(s[1..]);
    }
  }

  lemma BaseFieldBytes(key: string, t: Text)
    requires forall i | 0 <= i < |key| :: ' ' <= key[i] <= '~' && key[i] != '"' && key[i] != '\\'
    ensures FieldBytes(TextField(key, t)) == |key| + 5 + Bytes(QuoteBody(t))
  {
    AsciiBody(key);
    FieldBytesOf(TextField(key, t));
    WrappedBytes("\"", QuoteBody(t), "\"");
  }

  /** The bytes of one line of a newline-delimited payload, newline included. */
  function LineBytes(rec: Rec, fixed: Static): nat { Bytes(Print(RecordNode(rec, fixed))) + 1 }

  lemma OneField(f: EField)
    ensures FieldsBytes([f]) == 1 + FieldBytes(f)
  {
    assert [f][1..] == [];
  }

  lemma BaseBytes(rec: Rec)
    ensures FieldsBytes(BaseFields(rec)) == 44 + Bytes(QuoteBody(rec.time)) + Bytes(QuoteBody(rec.message))
                                             + Bytes(QuoteBody(rec.level))
  {
    TimestampBytes(rec.time);
    MessageBytes(rec.message);
    LevelBytes(rec.level);
    ThreeFields(TextField(TIMESTAMP, rec.time), TextField(MESSAGE, rec.message), TextField(LEVEL, rec.level));
  }

  lemma TimestampBytes(t: Text)
    ensures FieldBytes(TextField(TIMESTAMP, t)) == 15 + Bytes(QuoteBody(t))
  {
    BaseFieldBytes(TIMESTAMP, t);
  }

  lemma MessageBytes(t: Text)
    ensures FieldBytes(TextField(MESSAGE, t)) == 12 + Bytes(QuoteBody(t))
  {
    BaseFieldBytes(MESSAGE, t);
  }

  lemma LevelBytes(t: Text)
    ensures FieldBytes(TextField(LEVEL, t)) == 14 + Bytes(QuoteBody(t))
  {
    BaseFieldBytes(LEVEL, t);
  }

  lemma ThreeFields(f: EField, g: EField, h: EField)
    ensures FieldsBytes([f, g, h]) == 3 + FieldBytes(f) + FieldBytes(g) + FieldBytes(h)
  {
    OneField(f);
    OneField(g);
    OneField(h);
    FieldsBytesAppend([f], [g] + [h]);
    FieldsBytesAppend([g], [h]);
    assert [f, g, h] == [f] + ([g] + [h]);
  }

  lemma LineBytesOf(rec: Rec)
    ensures LineBytes(rec, []) == 46 + Bytes(QuoteBody(rec.time)) + Bytes(QuoteBody(rec.message))
                                  + Bytes(QuoteBody(rec.level)) + FieldsBytes(EmitAll(rec.attrs))
  {
    BaseBytes(rec);
    LineBytesFrom(rec, BaseFields(rec), EmitAll(rec.attrs));
  }

  lemma LineBytesFrom(rec: Rec, base: seq<EField>, rest: seq<EField>)
    requires base == BaseFields(rec) && rest == EmitAll(rec.attrs)
    ensures LineBytes(rec, []) == 2 + FieldsBytes(base) + FieldsBytes(rest)
  {
    assert RecordFields(rec, []) == base + rest;
    FieldsBytesAppend(base, rest);
    ObjectBytes(base + rest);
  }

  /** A record as Record queues it. */
  function QueuedRec(rec: Rec): Rec { rec.(attrs := Frozen(rec.attrs)) }

  predicate RecFits(rec: Rec) { WfText(rec.message) && FitsAll(rec.attrs, NeedsAny(rec.attrs)) }

  lemma EstimateCovers(rec: Rec)
    requires RecFits(rec) && Bytes(QuoteBody(rec.time)) + Bytes(QuoteBody(rec.level)) <= 50
    ensures LineBytes(QueuedRec(rec), []) <= Estimate(rec)
  {
    LineBytesOf(QueuedRec(rec));
    AttrsBound(rec.attrs, NeedsAny(rec.attrs));
    QuoteExpansion(rec.message);
  }

  /** The estimate covers every record with this time and level, whatever its message and
      its fitting attributes, exactly when the two texts together take at most fifty bytes:
      thirty for a time with a four-digit year, twenty for the level. */
  lemma EstimateIsConservative(time: Text, level: Text)
    ensures Bytes(QuoteBody(time)) + Bytes(QuoteBody(level)) <= 50
       <==> forall rec: Rec | rec.time == time && rec.level == level && RecFits(rec) ::
              LineBytes(QueuedRec(rec), []) <= Estimate(rec)
  {
    if Bytes(QuoteBody(time)) + Bytes(QuoteBody(level)) <= 50 {
      forall rec: Rec | rec.time == time && rec.level == level && RecFits(rec)
        ensures LineBytes(QueuedRec(rec), []) <= Estimate(rec)
      {
        EstimateCovers(rec);
      }
    } else {
      var bare := Rec(time, level, [], []);
      LineBytesOf(QueuedRec(bare));
      assert RecFits(bare);
      assert LineBytes(QueuedRec(bare), []) > Estimate(bare);
    }
  }

  // ---- ordinary records ----

  /** Every key is text, every leaf that is written an ordinary one. */
  predicate OrdinaryAttr(a: Attr)
    decreases a, 0
  {
    var v := Resolve(a.value);
    WfText(a.key) && if v.Group? then OrdinaryAttrs(v.attrs) else a.key != [] ==> Ordinary(v)
  }

  predicate OrdinaryAttrs(attrs: seq<Attr>)
    decreases attrs, 1
  {
    attrs == [] || (OrdinaryAttr(attrs[0]) && OrdinaryAttrs(attrs[1..]))
  }

  lemma {:induction false} OrdinaryFits(attrs: seq<Attr>, slow: bool)
    requires OrdinaryAttrs(attrs)
    ensures FitsAll(attrs, slow)
    decreases attrs, 1
  {
    if attrs != [] {
      OrdinaryAttrFits(attrs[0], slow);
      OrdinaryFits(attrs[1..], slow);
    }
  }

  lemma {:induction false} OrdinaryAttrFits(a: Attr, slow: bool)
    requires OrdinaryAttr(a)
    ensures Fits(a, slow)
    decreases a, 0
  {
    var v := Resolve(a.value);
    if v.Group? { OrdinaryFits(v.attrs, slow); } else if a.key != [] { OrdinaryLeafFits(v); }
  }

  /** A time in UTC in RFC 3339 with nanoseconds, the year as the digits it has and the fraction
      without its trailing zeros. */
  datatype Moment = Moment(year: string, month: string, day: string, hour: string, minute: string, second: string,
                           frac: string)

  predicate WfMoment(m: Moment) {
    && AllDigits(m.year) && AllDigits(m.month) && AllDigits(m.day)
    && AllDigits(m.hour) && AllDigits(m.minute) && AllDigits(m.second) && AllDigits(m.frac)
    && |m.month| == |m.day| == |m.hour| == |m.minute| == |m.second| == 2 && |m.frac| <= 9
  }

  function DateText(m: Moment): string { m.year + "-" + m.month + "-" + m.day + "T" }

  function ClockText(m: Moment): string {
    m.hour + ":" + m.minute + ":" + m.second + (if m.frac == [] then [] else "." + m.frac) + "Z"
  }

  /** Printable ASCII without quotes and backslashes: quoting leaves it as it is. */
  predicate Clean(s: string) { forall i | 0 <= i < |s| :: ' ' <= s[i] <= '~' && s[i] != '"' && s[i] != '\\' }

  lemma CleanBytes(s: string)
    requires Clean(s)
    ensures Bytes(QuoteBody(Ascii(s))) == |s|
  {
    AsciiBody(s);
  }

  lemma MomentIsClean(m: Moment)
    requires WfMoment(m)
    ensures Clean(DateText(m) + ClockText(m)) && |DateText(m) + ClockText(m)| <= |m.year| + 26
  {
    assert Clean(DateText(m)) && Clean(ClockText(m));
  }

  /** The estimate covers every record of ordinary values with a year of four digits and a level
      name of up to twenty characters, whatever its keys, its nesting and its message. */
  lemma OrdinaryRecordCovered(rec: Rec, m: Moment, level: string)
    requires WfText(rec.message) && OrdinaryAttrs(rec.attrs)
    requires WfMoment(m) && |m.year| == 4 && rec.time == Ascii(DateText(m) + ClockText(m))
    requires Clean(level) && |level| <= 20 && rec.level == Ascii(level)
    ensures LineBytes(QueuedRec(rec), []) <= Estimate(rec)
  {
    OrdinaryFits(rec.attrs, NeedsAny(rec.attrs));
    MomentIsClean(m);
    CleanBytes(DateText(m) + ClockText(m));
    CleanBytes(level);
    EstimateCovers(rec);
  }
}
