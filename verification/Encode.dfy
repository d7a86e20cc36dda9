/** httpsink/encode.go as code: each function appends to a buffer and flips the caller's
    `first` flag, and together they print the record's field tree. */
module Encode {
  import opened Options
  import opened GoQuote
  import opened JsonText
  import opened JsonTokens
  import opened Attrs

  /** What appending these fields to an object that is open leaves in the buffer. */
  function Appended(dst: string, fs: seq<EField>, first: bool): string {
    dst + PrintFields(NodesOf(fs), first)
  }

  lemma AppendedTwice(dst: string, a: seq<EField>, b: seq<EField>, first: bool)
    ensures Appended(Appended(dst, a, first), b, first && a == []) == Appended(dst, a + b, first)
  {
    NodesAppend(a, b);
    PrintAppend(NodesOf(a), NodesOf(b), first);
    assert NodesOf(a) == [] <==> a == [];
    Assoc(dst, PrintFields(NodesOf(a), first), PrintFields(NodesOf(b), first && a == []));
  }

  lemma Assoc(a: string, b: string, c: string)
    ensures (a + b) + c == a + (b + c)
  {
  }

  method AppendFieldName(dst: string, first: bool, key: Text) returns (out: string)
    ensures out == dst + (if first then "" else ",") + "\"" + QuoteBody(key) + "\":"
  {
    out := dst;
    if !first {
      out := out + ",";
    }
    QuoteColon(out, QuoteBody(key));
    out := out + Quote(key);
    out := out + ":";
  }

  lemma QuoteColon(front: string, body: string)
    ensures front + ("\"" + body + "\"") + ":" == front + "\"" + body + "\":"
  {
    assert "\":" == "\"" + ":";
  }

  lemma OneField(dst: string, first: bool, key: Text, v: EVal)
    ensures Appended(dst, [EField(key, v)], first)
         == dst + (if first then "" else ",") + "\"" + QuoteBody(key) + "\":" + Print(NodeOf(v))
  {
    var f := NField(QuoteBody(key), NodeOf(v));
    assert NodesOf([EField(key, v)]) == [f];
    OneFieldText(f, first);
    Joined(dst, if first then "" else ",", f.key, Print(f.val));
  }

  lemma OneFieldText(f: NField, first: bool)
    ensures PrintFields([f], first) == (if first then "" else ",") + PrintField(f)
  {
    assert [f][1..] == [];
  }

  lemma Joined(dst: string, comma: string, key: string, val: string)
    ensures dst + (comma + ("\"" + key + "\":" + val)) == dst + comma + "\"" + key + "\":" + val
  {
  }

  method AppendStringField(dst: string, first: bool, key: string, value: Text) returns (out: string)
    ensures out == Appended(dst, [TextField(key, value)], first)
  {
    var named := AppendFieldName(dst, first, Ascii(key));
    out := named + Quote(value);
    OneField(dst, first, Ascii(key), Leaf(Str(value)));
  }

  /** false when json.Marshal fails; the buffer is then abandoned. */
  method AppendAnyField(dst: string, first: bool, key: Text, value: AnyVal) returns (out: string, ok: bool)
    ensures ok == value.json.Some?
    ensures ok ==> out == Appended(dst, [EField(key, Leaf(Any(value)))], first)
  {
    out := AppendFieldName(dst, first, key);
    ok := value.json.Some?;
    if ok {
      out := out + Print(value.json.value);
      OneField(dst, first, key, Leaf(Any(value)));
    }
  }

  /** In a loop that is to append `fs` to `dst`: what `rest` is still to append to `out`. */
  predicate Pending(out: string, rest: seq<EField>, now: bool, dst: string, fs: seq<EField>, first: bool) {
    && Marshals(fs) == Marshals(rest) && Appended(out, rest, now) == Appended(dst, fs, first)
    && (now && rest == []) == (first && fs == [])
  }

  lemma Appending(out: string, here: seq<EField>, later: seq<EField>, now: bool,
                  dst: string, fs: seq<EField>, first: bool)
    requires Pending(out, here + later, now, dst, fs, first)
    ensures if Marshals(here) then Pending(Appended(out, here, now), later, now && here == [], dst, fs, first)
            else !Marshals(fs)
  {
    AppendedTwice(out, here, later, now);
    MarshalsAppend(here, later);
  }

  lemma NextAttr(attrs: seq<Attr>, i: nat)
    requires i < |attrs|
    ensures EmitAll(attrs[i..]) == Emit(attrs[i]) + EmitAll(attrs[i + 1..])
  {
    assert attrs[i..][0] == attrs[i] && attrs[i..][1..] == attrs[i + 1..];
  }

  method AppendAttr(dst: string, first: bool, attr: Attr) returns (out: string, first': bool, ok: bool)
    ensures ok == Marshals(Emit(attr))
    ensures ok ==> out == Appended(dst, Emit(attr), first) && first' == (first && Emit(attr) == [])
    decreases attr, 0
  {
    var value := Resolve(attr.value);
    if attr.key == [] {
      if !value.Group? {
        return dst, first, true;
      }
      out, first', ok := AppendAttrs(dst, first, value.attrs);
      return;
    }
    var named := AppendFieldName(dst, first, attr.key);
    out, ok := AppendValue(named, value);
    first' := false;
    ghost var v := if value.Group? then Obj(EmitAll(value.attrs)) else Leaf(value);
    OneField(dst, first, attr.key, v);
  }

  /** The loop over a group's members, which both a named and an inlined group run. */
  method AppendAttrs(dst: string, first: bool, attrs: seq<Attr>) returns (out: string, first': bool, ok: bool)
    ensures ok == Marshals(EmitAll(attrs))
    ensures ok ==> out == Appended(dst, EmitAll(attrs), first) && first' == (first && EmitAll(attrs) == [])
    decreases attrs, 1
  {
    out, first', ok := dst, first, true;
    var i := 0;
    while i < |attrs|
      invariant 0 <= i <= |attrs| && ok
      invariant Pending(out, EmitAll(attrs[i..]), first', dst, EmitAll(attrs), first)
    {
      NextAttr(attrs, i);
      Appending(out, Emit(attrs[i]), EmitAll(attrs[i + 1..]), first', dst, EmitAll(attrs), first);
      out, first', ok := AppendAttr(out, first', attrs[i]);
      if !ok {
        return;
      }
      i := i + 1;
    }
  }

  method AppendValue(dst: string, value: Value) returns (out: string, ok: bool)
    requires !value.Valuer?
    ensures var v := if value.Group? then Obj(EmitAll(value.attrs)) else Leaf(value);
            ok == MarshalsVal(v) && (ok ==> out == dst + Print(NodeOf(v)))
    decreases value, 2
  {
    ok := true;
    match value
    case Str(t) => out := dst + Quote(t);
    case Num(n) => out := dst + Word(n);
    case Time(t) => out := dst + Quote(t);
    case Group(attrs) =>
      var first;
      out, first, ok := AppendAttrs(dst + "{", true, attrs);
      out := out + "}";
    case Any(a) =>
      ok := a.json.Some?;
      out := if ok then dst + Print(a.json.value) else dst;
  }

  method AppendBase(dst: string, rec: Rec) returns (out: string)
    ensures out == Appended(dst, BaseFields(rec), true)
  {
    ghost var time, message, level :=
      TextField(TIMESTAMP, rec.time), TextField(MESSAGE, rec.message), TextField(LEVEL, rec.level);
    out := AppendStringField(dst, true, TIMESTAMP, rec.time);
    out := AppendStringField(out, false, MESSAGE, rec.message);
    AppendedTwice(dst, [time], [message], true);
    out := AppendStringField(out, false, LEVEL, rec.level);
    AppendedTwice(dst, [time] + [message], [level], true);
    assert [time] + [message] + [level] == BaseFields(rec);
  }

  lemma Braced(dst: string, fs: seq<EField>)
    ensures Appended(dst + "{", fs, true) + "}" == dst + Print(NObj(NodesOf(fs)))
  {
  }

  /** appendRecord prints the record's fields as one JSON object, or fails as a whole when a
      value cannot be marshalled. */
  method AppendRecord(dst: string, rec: Rec, fixed: Static) returns (out: string, ok: bool)
    ensures ok == Marshals(RecordFields(rec, fixed))
    ensures ok ==> out == dst + Print(RecordNode(rec, fixed))
  {
    ghost var base, stem := BaseFields(rec), BaseFields(rec) + StaticFields(fixed);
    MarshalsAppend(base, StaticFields(fixed));
    MarshalsAppend(stem, EmitAll(rec.attrs));
    AppendedTwice(dst + "{", base, StaticFields(fixed), true);
    AppendedTwice(dst + "{", stem, EmitAll(rec.attrs), true);
    Braced(dst, RecordFields(rec, fixed));
    out := AppendBase(dst + "{", rec);
    out, ok := AppendStatic(out, fixed);
    if ok {
      var first;
      out, first, ok := AppendAttrs(out, false, rec.attrs);
      out := out + "}";
    }
  }

  lemma NextStatic(fixed: Static, i: nat)
    requires i < |fixed|
    ensures var here := [EField(fixed[i].0, Leaf(Any(fixed[i].1)))];
            && StaticFields(fixed[i..]) == here + StaticFields(fixed[i + 1..])
            && Marshals(here) == fixed[i].1.json.Some?
  {
    var here := [EField(fixed[i].0, Leaf(Any(fixed[i].1)))];
    assert here[0].val == Leaf(Any(fixed[i].1));
    assert MarshalsVal(here[0].val) == fixed[i].1.json.Some?;
    assert fixed[i..][0] == fixed[i] && fixed[i..][1..] == fixed[i + 1..];
  }

  /** The loop over the static fields. */
  method AppendStatic(dst: string, fixed: Static) returns (out: string, ok: bool)
    ensures ok == Marshals(StaticFields(fixed))
    ensures ok ==> out == Appended(dst, StaticFields(fixed), false)
  {
    out, ok := dst, true;
    var i := 0;
    while i < |fixed|
      invariant 0 <= i <= |fixed| && ok
      invariant Pending(out, StaticFields(fixed[i..]), false, dst, StaticFields(fixed), false)
    {
      NextStatic(fixed, i);
      Appending(out, [EField(fixed[i].0, Leaf(Any(fixed[i].1)))], StaticFields(fixed[i + 1..]), false,
                dst, StaticFields(fixed), false);
      out, ok := AppendAnyField(out, false, fixed[i].0, fixed[i].1);
      if !ok {
        return;
      }
      i := i + 1;
    }
  }
}
