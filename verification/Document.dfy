/** lokisink/encode.go (and elastic/encode.go before enrichment): the same attribute tree as
    a nested map, filled in place; and when the streaming encoder agrees with it. */
module Document {
  import opened Options
  import opened GoQuote
  import opened Attrs

  datatype DocVal = DLeaf(v: Value) | DMap(m: Doc)

  type Doc = map<Text, DocVal>

  // ---- the document encoder ----

  /** applyAttr as a function. The guard on an empty key looks at the value before it is
      resolved, the group test after. */
  function Applied(m: Doc, a: Attr): Doc
    decreases a, 0
  {
    if a.key == [] && !a.value.Group? then m
    else
      var v := Resolve(a.value);
      if v.Group? then
        if a.key == [] then AppliedAll(m, v.attrs) else m[a.key := DMap(AppliedAll(map[], v.attrs))]
      else m[a.key := DLeaf(v)]
  }

  function AppliedAll(m: Doc, attrs: seq<Attr>): Doc
    decreases attrs, 1
  {
    if attrs == [] then m else AppliedAll(Applied(m, attrs[0]), attrs[1..])
  }

  /** applyAttr as code: the map goes in and comes back filled. */
  method ApplyAttr(m: Doc, a: Attr) returns (m': Doc)
    ensures m' == Applied(m, a)
    decreases a, 0
  {
    m' := m;
    if a.key == [] && !a.value.Group? {
      return;
    }
    var v := Resolve(a.value);
    if v.Group? {
      if a.key == [] {
        m' := ApplyGroup(m', v.attrs);
        return;
      }
      var nested := ApplyGroup(map[], v.attrs);
      m' := m'[a.key := DMap(nested)];
      return;
    }
    m' := m'[a.key := DLeaf(v)];
  }

  method ApplyGroup(m: Doc, attrs: seq<Attr>) returns (m': Doc)
    ensures m' == AppliedAll(m, attrs)
    decreases attrs, 1
  {
    m' := m;
    var i := 0;
    while i < |attrs|
      invariant 0 <= i <= |attrs|
      invariant AppliedAll(m', attrs[i..]) == AppliedAll(m, attrs)
    {
      assert attrs[i..][0] == attrs[i] && attrs[i..][1..] == attrs[i + 1..];
      m' := ApplyAttr(m', attrs[i]);
      i := i + 1;
    }
  }

  type StaticMap = map<Text, AnyVal>

  function StaticDoc(fixed: StaticMap): Doc { map k | k in fixed :: DLeaf(Any(fixed[k])) }

  function BaseDoc(rec: Rec): Doc {
    map[Ascii(TIMESTAMP) := DLeaf(Str(rec.time)), Ascii(MESSAGE) := DLeaf(Str(rec.message)),
        Ascii(LEVEL) := DLeaf(Str(rec.level))]
  }

  /** recordToDocument: base fields, then the static map in whatever order it is iterated,
      then the attributes. */
  method RecordToDocument(rec: Rec, fixed: StaticMap) returns (doc: Doc)
    ensures doc == AppliedAll(BaseDoc(rec) + StaticDoc(fixed), rec.attrs)
  {
    doc := map[];
    doc := doc[Ascii(TIMESTAMP) := DLeaf(Str(rec.time))];
    doc := doc[Ascii(MESSAGE) := DLeaf(Str(rec.message))];
    doc := doc[Ascii(LEVEL) := DLeaf(Str(rec.level))];
    var keys := fixed.Keys;
    while keys != {}
      invariant keys <= fixed.Keys
      invariant doc == BaseDoc(rec) + (map k | k in fixed && k !in keys :: DLeaf(Any(fixed[k])))
      decreases keys
    {
      var k :| k in keys;
      keys := keys - {k};
      doc := doc[k := DLeaf(Any(fixed[k]))];
    }
    assert doc == BaseDoc(rec) + StaticDoc(fixed);
    doc := ApplyGroup(doc, rec.attrs);
  }

  // ---- folding emitted fields ----

  /** What a reader makes of fields in which the last of equal keys wins, at every level. */
  function Fold(m: Doc, fs: seq<EField>): Doc
    decreases fs, 1
  {
    if fs == [] then m else Fold(m[fs[0].key := FoldVal(fs[0].val)], fs[1..])
  }

  function FoldVal(v: EVal): DocVal
    decreases v, 0
  {
    match v case Leaf(l) => DLeaf(l) case Obj(fs) => DMap(Fold(map[], fs))
  }

  lemma {:induction false} FoldAppend(m: Doc, a: seq<EField>, b: seq<EField>)
    ensures Fold(m, a + b) == Fold(Fold(m, a), b)
    decreases a
  {
    if a == [] {
      assert a + b == b;
    } else {
      assert (a + b)[1..] == a[1..] + b;
      FoldAppend(m[a[0].key := FoldVal(a[0].val)], a[1..], b);
    }
  }

  // ---- the fields the document encoder writes ----

  function DocEmit(a: Attr): seq<EField>
    decreases a, 0
  {
    var v := Resolve(a.value);
    if a.key == [] && !a.value.Group? then []
    else if a.key == [] then DocEmitAll(v.attrs)
    else [EField(a.key, if v.Group? then Obj(DocEmitAll(v.attrs)) else Leaf(v))]
  }

  function DocEmitAll(attrs: seq<Attr>): seq<EField>
    decreases attrs, 1
  {
    if attrs == [] then [] else DocEmit(attrs[0]) + DocEmitAll(attrs[1..])
  }

  lemma {:induction false} AppliedIsFold(m: Doc, a: Attr)
    ensures Applied(m, a) == Fold(m, DocEmit(a))
    decreases a, 0
  {
    var v := Resolve(a.value);
    if v.Group? {
      if a.key != [] { AppliedAllIsFold(map[], v.attrs); }
      else if a.value.Group? { AppliedAllIsFold(m, v.attrs); }
    }
  }

  lemma {:induction false} AppliedAllIsFold(m: Doc, attrs: seq<Attr>)
    ensures AppliedAll(m, attrs) == Fold(m, DocEmitAll(attrs))
    decreases attrs, 1
  {
    if attrs != [] {
      AppliedIsFold(m, attrs[0]);
      AppliedAllIsFold(Applied(m, attrs[0]), attrs[1..]);
      FoldAppend(m, DocEmit(attrs[0]), DocEmitAll(attrs[1..]));
    }
  }

  // ---- when both encoders write the same fields ----

  /** Nothing under this attribute has a key to be written under: it has none itself, and if
      it is a group, LogValuers aside, neither has any member. */
  predicate Barren(a: Attr)
    decreases a, 0
  {
    var v := Resolve(a.value);
    a.key == [] && (v.Group? ==> BarrenAll(v.attrs))
  }

  predicate BarrenAll(attrs: seq<Attr>)
    decreases attrs, 1
  {
    attrs == [] || (Barren(attrs[0]) && BarrenAll(attrs[1..]))
  }

  /** The streaming encoder writes nothing exactly for barren attributes. */
  lemma {:induction false} BarrenIsSilent(attrs: seq<Attr>)
    ensures EmitAll(attrs) == [] <==> BarrenAll(attrs)
    decreases attrs, 1
  {
    if attrs != [] {
      var v := Resolve(attrs[0].value);
      if v.Group? { BarrenIsSilent(v.attrs); }
      BarrenIsSilent(attrs[1..]);
    }
  }

  /** No LogValuer without a key answers with a group that is not barren, at any depth. */
  predicate NothingHidden(a: Attr)
    decreases a, 0
  {
    var v := Resolve(a.value);
    if a.key == [] && !a.value.Group? then v.Group? ==> BarrenAll(v.attrs)
    else v.Group? ==> NothingHiddenIn(v.attrs)
  }

  predicate NothingHiddenIn(attrs: seq<Attr>)
    decreases attrs, 1
  {
    attrs == [] || (NothingHidden(attrs[0]) && NothingHiddenIn(attrs[1..]))
  }

  /** The document encoder writes the same fields, or fewer. */
  lemma {:induction false} SameOrFewer(a: Attr)
    ensures if NothingHidden(a) then DocEmit(a) == Emit(a) else FieldCount(DocEmit(a)) < FieldCount(Emit(a))
    decreases a, 0
  {
    var v := Resolve(a.value);
    if v.Group? {
      BarrenIsSilent(v.attrs);
      if a.key != [] || a.value.Group? { SameOrFewerIn(v.attrs); }
    }
  }

  lemma {:induction false} SameOrFewerIn(attrs: seq<Attr>)
    ensures if NothingHiddenIn(attrs) then DocEmitAll(attrs) == EmitAll(attrs)
            else FieldCount(DocEmitAll(attrs)) < FieldCount(EmitAll(attrs))
    decreases attrs, 1
  {
    if attrs != [] {
      SameOrFewer(attrs[0]);
      SameOrFewerIn(attrs[1..]);
      CountAppend(Emit(attrs[0]), EmitAll(attrs[1..]));
      CountAppend(DocEmit(attrs[0]), DocEmitAll(attrs[1..]));
    }
  }

  /** The two encoders write the same fields if and only if nothing is hidden. */
  lemma SameFields(attrs: seq<Attr>)
    ensures DocEmitAll(attrs) == EmitAll(attrs) <==> NothingHiddenIn(attrs)
  {
    SameOrFewerIn(attrs);
  }

  // ---- agreement ----

  /** What the static order folds to; a Go map yields each key once. */
  function Dict(fixed: Static): StaticMap {
    if fixed == [] then map[] else map[fixed[0].0 := fixed[0].1] + Dict(fixed[1..])
  }

  lemma {:induction false} StaticFolds(m: Doc, fixed: Static)
    ensures Fold(m, StaticFields(fixed)) == m + StaticDoc(Dict(fixed))
    decreases fixed
  {
    if fixed == [] {
      assert m + StaticDoc(map[]) == m;
    } else {
      var k, v := fixed[0].0, DLeaf(Any(fixed[0].1));
      StaticFolds(m[k := v], fixed[1..]);
      OneMore(m, k, fixed[0].1, Dict(fixed[1..]));
    }
  }

  lemma OneMore(m: Doc, k: Text, v: AnyVal, rest: StaticMap)
    ensures m[k := DLeaf(Any(v))] + StaticDoc(rest) == m + StaticDoc(map[k := v] + rest)
  {
  }

  lemma BaseFolds(rec: Rec)
    ensures Fold(map[], BaseFields(rec)) == BaseDoc(rec)
  {
    var t, m, l := TextField(TIMESTAMP, rec.time), TextField(MESSAGE, rec.message), TextField(LEVEL, rec.level);
    assert BaseFields(rec) == [t] + [m] + [l];
    FoldAppend(map[], [t] + [m], [l]);
    FoldAppend(map[], [t], [m]);
  }

  /** The streamed record, read with the last of equal keys winning, is the document that
      recordToDocument builds: for every order of the static fields, and every attribute
      tree in which nothing is hidden behind a LogValuer without a key. */
  lemma StreamAgreesWithDocument(rec: Rec, order: Static, fixed: StaticMap)
    requires Dict(order) == fixed && NothingHiddenIn(rec.attrs)
    ensures Fold(map[], RecordFields(rec, order)) == AppliedAll(BaseDoc(rec) + StaticDoc(fixed), rec.attrs)
  {
    SameFields(rec.attrs);
    DocumentFolds(rec, order, fixed);
  }

  lemma DocumentFolds(rec: Rec, order: Static, fixed: StaticMap)
    requires Dict(order) == fixed
    ensures AppliedAll(BaseDoc(rec) + StaticDoc(fixed), rec.attrs)
         == Fold(map[], BaseFields(rec) + StaticFields(order) + DocEmitAll(rec.attrs))
  {
    FoldAppend(map[], BaseFields(rec) + StaticFields(order), DocEmitAll(rec.attrs));
    FoldAppend(map[], BaseFields(rec), StaticFields(order));
    BaseFolds(rec);
    StaticFolds(BaseDoc(rec), order);
    AppliedAllIsFold(BaseDoc(rec) + StaticDoc(fixed), rec.attrs);
  }

  // ---- the exact condition, for distinct keys ----

  predicate KeyIn(k: Text, fs: seq<EField>) { exists i :: 0 <= i < |fs| && fs[i].key == k }

  /** No key twice in one object, at any level. */
  predicate DistinctKeys(fs: seq<EField>)
    decreases fs, 1
  {
    fs == [] || (!KeyIn(fs[0].key, fs[1..]) && DistinctVal(fs[0].val) && DistinctKeys(fs[1..]))
  }

  predicate DistinctVal(v: EVal)
    decreases v, 0
  {
    match v case Leaf(_) => true case Obj(fs) => DistinctKeys(fs)
  }

  /** Some of these fields left out, at any level. */
  predicate Thinned(gs: seq<EField>, fs: seq<EField>)
    decreases fs, 1
  {
    if fs == [] then gs == []
    else (gs != [] && gs[0].key == fs[0].key && ThinnedVal(gs[0].val, fs[0].val) && Thinned(gs[1..], fs[1..]))
         || Thinned(gs, fs[1..])
  }

  predicate ThinnedVal(w: EVal, v: EVal)
    decreases v, 0
  {
    match (w, v)
    case (Obj(gs), Obj(fs)) => Thinned(gs, fs)
    case _ => w == v
  }

  lemma {:induction false} ThinnedSelf(fs: seq<EField>)
    ensures Thinned(fs, fs)
    decreases fs, 1
  {
    if fs != [] {
      if fs[0].val.Obj? { ThinnedSelf(fs[0].val.fields); }
      ThinnedSelf(fs[1..]);
    }
  }

  lemma {:induction false} ThinnedNone(fs: seq<EField>)
    ensures Thinned([], fs)
    decreases fs, 1
  {
    if fs != [] { ThinnedNone(fs[1..]); }
  }

  lemma {:induction false} ThinnedAppend(gs: seq<EField>, fs: seq<EField>, gs': seq<EField>, fs': seq<EField>)
    requires Thinned(gs, fs) && Thinned(gs', fs')
    ensures Thinned(gs + gs', fs + fs')
    decreases fs, 1
  {
    if fs == [] {
      assert gs + gs' == gs' && fs + fs' == fs';
    } else {
      assert (fs + fs')[0] == fs[0] && (fs + fs')[1..] == fs[1..] + fs';
      if Thinned(gs, fs[1..]) {
        ThinnedAppend(gs, fs[1..], gs', fs');
      } else {
        ThinnedAppend(gs[1..], fs[1..], gs', fs');
        assert (gs + gs')[0] == gs[0] && (gs + gs')[1..] == gs[1..] + gs';
      }
    }
  }

  lemma {:induction false} DocIsThinned(attrs: seq<Attr>)
    ensures Thinned(DocEmitAll(attrs), EmitAll(attrs))
    decreases attrs, 1
  {
    if attrs != [] {
      DocAttrIsThinned(attrs[0]);
      DocIsThinned(attrs[1..]);
      ThinnedAppend(DocEmit(attrs[0]), Emit(attrs[0]), DocEmitAll(attrs[1..]), EmitAll(attrs[1..]));
    }
  }

  lemma {:induction false} DocAttrIsThinned(a: Attr)
    ensures Thinned(DocEmit(a), Emit(a))
    decreases a, 0
  {
    var v := Resolve(a.value);
    if v.Group? { DocIsThinned(v.attrs); }
    if a.key == [] {
      ThinnedNone(Emit(a));
    } else {
      assert Emit(a)[1..] == [] && DocEmit(a)[1..] == [];
    }
  }

  /** A map keeps what is folded into it apart from what was there. */
  lemma {:induction false} FoldOver(m: Doc, fs: seq<EField>)
    ensures Fold(m, fs) == m + Fold(map[], fs)
    decreases fs
  {
    if fs == [] {
      assert m + map[] == m;
    } else {
      var k, v := fs[0].key, FoldVal(fs[0].val);
      FoldOver(m[k := v], fs[1..]);
      FoldOver(map[][k := v], fs[1..]);
      assert m[k := v] + Fold(map[], fs[1..]) == m + (map[][k := v] + Fold(map[], fs[1..]));
    }
  }

  lemma {:induction false} FoldKeys(fs: seq<EField>, k: Text)
    ensures k in Fold(map[], fs) <==> KeyIn(k, fs)
    decreases fs
  {
    if fs != [] {
      FoldKeys(fs[1..], k);
      FoldOver(map[fs[0].key := FoldVal(fs[0].val)], fs[1..]);
      KeyInTail(k, fs);
    }
  }

  lemma KeyInTail(k: Text, fs: seq<EField>)
    requires fs != []
    ensures KeyIn(k, fs) <==> k == fs[0].key || KeyIn(k, fs[1..])
  {
    assert forall i | 1 <= i < |fs| :: fs[i] == fs[1..][i - 1];
    if KeyIn(k, fs[1..]) {
      var i :| 0 <= i < |fs[1..]| && fs[1..][i].key == k;
      assert fs[i + 1].key == k;
    }
  }

  lemma {:induction false} ThinnedKeys(gs: seq<EField>, fs: seq<EField>, k: Text)
    requires Thinned(gs, fs) && KeyIn(k, gs)
    ensures KeyIn(k, fs)
    decreases fs
  {
    if fs != [] {
      KeyInTail(k, fs);
      if Thinned(gs, fs[1..]) {
        ThinnedKeys(gs, fs[1..], k);
      } else {
        KeyInTail(k, gs);
        if k != gs[0].key { ThinnedKeys(gs[1..], fs[1..], k); }
      }
    }
  }

  /** The fold of distinct fields has its first field apart from the others. */
  lemma FirstApart(f: EField, fs: seq<EField>)
    requires !KeyIn(f.key, fs)
    ensures Fold(map[], [f] + fs) == Fold(map[], fs)[f.key := FoldVal(f.val)] && f.key !in Fold(map[], fs)
  {
    assert ([f] + fs)[1..] == fs;
    FoldOver(map[f.key := FoldVal(f.val)], fs);
    FoldKeys(fs, f.key);
  }

  /** Distinct fields, once some are left out, fold to another map. */
  lemma {:induction false} ThinnedShows(gs: seq<EField>, fs: seq<EField>)
    requires Thinned(gs, fs) && DistinctKeys(fs) && Fold(map[], gs) == Fold(map[], fs)
    ensures gs == fs
    decreases fs, 1
  {
    if fs != [] {
      var k := fs[0].key;
      assert fs == [fs[0]] + fs[1..];
      FirstApart(fs[0], fs[1..]);
      if Thinned(gs, fs[1..]) {
        FoldKeys(gs, k);
        if KeyIn(k, gs) { ThinnedKeys(gs, fs[1..], k); }
      } else {
        SameRest(gs, fs);
        ThinnedShows(gs[1..], fs[1..]);
        if gs[0].val.Obj? { ThinnedShows(gs[0].val.fields, fs[0].val.fields); }
        assert gs == [gs[0]] + gs[1..];
      }
    }
  }

  lemma SameRest(gs: seq<EField>, fs: seq<EField>)
    requires gs != [] && fs != [] && gs[0].key == fs[0].key && Thinned(gs[1..], fs[1..])
    requires DistinctKeys(fs) && Fold(map[], gs) == Fold(map[], fs)
    ensures Fold(map[], gs[1..]) == Fold(map[], fs[1..]) && FoldVal(gs[0].val) == FoldVal(fs[0].val)
  {
    var k := fs[0].key;
    if KeyIn(k, gs[1..]) { ThinnedKeys(gs[1..], fs[1..], k); }
    assert gs == [gs[0]] + gs[1..] && fs == [fs[0]] + fs[1..];
    FirstApart(gs[0], gs[1..]);
    FirstApart(fs[0], fs[1..]);
    Without(Fold(map[], gs[1..]), Fold(map[], fs[1..]), k, FoldVal(gs[0].val), FoldVal(fs[0].val));
  }

  lemma Without(a: Doc, b: Doc, k: Text, v: DocVal, w: DocVal)
    requires k !in a && k !in b && a[k := v] == b[k := w]
    ensures a == b && v == w
  {
    assert a == a[k := v] - {k} && b == b[k := w] - {k};
    assert a[k := v][k] == v && b[k := w][k] == w;
  }

  /** For records without a repeated key at any level the streamed record and the document
      agree if and only if nothing is hidden. */
  lemma StreamAgreesExactly(rec: Rec, order: Static, fixed: StaticMap)
    requires Dict(order) == fixed && DistinctKeys(RecordFields(rec, order))
    ensures Fold(map[], RecordFields(rec, order)) == AppliedAll(BaseDoc(rec) + StaticDoc(fixed), rec.attrs)
       <==> NothingHiddenIn(rec.attrs)
  {
    var stem := BaseFields(rec) + StaticFields(order);
    var doc := stem + DocEmitAll(rec.attrs);
    DocumentFolds(rec, order, fixed);
    SameFields(rec.attrs);
    if Fold(map[], doc) == Fold(map[], RecordFields(rec, order)) {
      ThinnedSelf(stem);
      DocIsThinned(rec.attrs);
      ThinnedAppend(stem, stem, DocEmitAll(rec.attrs), EmitAll(rec.attrs));
      ThinnedShows(doc, RecordFields(rec, order));
      assert doc[|stem|..] == DocEmitAll(rec.attrs) && RecordFields(rec, order)[|stem|..] == EmitAll(rec.attrs);
    }
  }

  /** Without that condition they differ: a group behind a LogValuer under no key reaches
      the stream but not the document. */
  lemma HiddenGroupDiffers(key: Text, leaf: Value)
    requires key != [] && !leaf.Group? && !leaf.Valuer?
    ensures var attrs := [Attr([], Valuer(Group([Attr(key, leaf)])))];
            Fold(map[], EmitAll(attrs)) == map[key := DLeaf(leaf)] && AppliedAll(map[], attrs) == map[]
  {
    var attrs := [Attr([], Valuer(Group([Attr(key, leaf)])))];
    assert Resolve(attrs[0].value) == Group([Attr(key, leaf)]);
    assert EmitAll([Attr(key, leaf)]) == [EField(key, Leaf(leaf))];
    assert EmitAll(attrs) == [EField(key, Leaf(leaf))];
  }
}
