/** slogsnapshot: freezing a record before it is queued. */
module Snapshot {
  import opened Options
  import opened GoQuote
  import opened JsonText
  import opened Attrs

  const UNAVAILABLE: string := "[UNAVAILABLE]"

  predicate Boxed(v: Value) { v.Any? && v.any.boxed }

  /** needsSnapshot, on a resolved value. */
  predicate Needs(v: Value)
    decreases v, 0
  {
    if v.Group? then NeedsAny(v.attrs) else Boxed(v)
  }

  predicate NeedsAny(attrs: seq<Attr>)
    decreases attrs, 1
  {
    attrs != [] && (NeedsOne(attrs[0]) || NeedsAny(attrs[1..]))
  }

  predicate NeedsOne(a: Attr)
    decreases a, 1
  {
    Needs(Resolve(a.value))
  }

  predicate EmptyGroup(a: Attr) { a.value.Group? && a.value.attrs == [] }

  /** slog.GroupValue and Record.AddAttrs leave out members that are empty groups. */
  function Kept(a: Attr): seq<Attr> { if EmptyGroup(a) then [] else [a] }

  function DropEmpty(attrs: seq<Attr>): seq<Attr> {
    if attrs == [] then [] else Kept(attrs[0]) + DropEmpty(attrs[1..])
  }

  /** A resolved value that is no group, frozen: errors become their text, other boxed
      values their JSON. */
  function SnapLeaf(v: Value): Value {
    if !Boxed(v) then v
    else if v.any.err.Some? then Str(v.any.err.value)
    else if v.any.json.None? then Str(Ascii(UNAVAILABLE))
    else Any(AnyVal(v.any.json, true, None))
  }

  /** snapshotAttr. */
  function Snap(a: Attr): Attr
    decreases a, 0
  {
    var v := Resolve(a.value);
    Attr(a.key, if v.Group? then Group(SnapGroup(v.attrs)) else SnapLeaf(v))
  }

  /** Every member frozen, the ones that are empty groups by then left out. */
  function SnapGroup(attrs: seq<Attr>): (r: seq<Attr>)
    ensures |r| <= |attrs|
    decreases attrs, 1
  {
    if attrs == [] then [] else Kept(Snap(attrs[0])) + SnapGroup(attrs[1..])
  }

  // ---- as code ----

  lemma {:induction false} DropEmptyOfSnaps(group: seq<Attr>, attrs: seq<Attr>)
    requires |group| == |attrs| && forall k | 0 <= k < |group| :: group[k] == Snap(attrs[k])
    ensures DropEmpty(group) == SnapGroup(attrs)
  {
    if group != [] { DropEmptyOfSnaps(group[1..], attrs[1..]); }
  }

  /** snapshotAttr overwrites the members it was given one by one, then rebuilds the group. */
  method SnapshotAttr(a: Attr) returns (out: Attr)
    ensures out == Snap(a)
    decreases a
  {
    var value := Resolve(a.value);
    if value.Group? {
      var group := value.attrs;
      var i := 0;
      while i < |group|
        invariant 0 <= i <= |group| == |value.attrs|
        invariant forall k | 0 <= k < i :: group[k] == Snap(value.attrs[k])
        invariant forall k | i <= k < |group| :: group[k] == value.attrs[k]
      {
        assert group[i] == value.attrs[i];
        var frozen := SnapshotAttr(group[i]);
        group := group[i := frozen];
        i := i + 1;
      }
      DropEmptyOfSnaps(group, value.attrs);
      return Attr(a.key, Group(DropEmpty(group)));
    }
    out := Attr(a.key, SnapLeaf(value));
  }

  /** The attributes of the record that Record returns. */
  function Frozen(attrs: seq<Attr>): seq<Attr> { if NeedsAny(attrs) then SnapGroup(attrs) else attrs }

  // ---- what snapshotting settles ----

  /** Nothing left to resolve or freeze, and no empty group among the members of a group. */
  predicate Settled(a: Attr)
    decreases a, 0
  {
    match a.value
    case Valuer(_) => false
    case Any(any) => any.boxed ==> any.json.Some? && any.err.None?
    case Group(attrs) => SettledAll(attrs)
    case _ => true
  }

  predicate SettledAll(attrs: seq<Attr>)
    decreases attrs, 1
  {
    attrs == [] || (Settled(attrs[0]) && !EmptyGroup(attrs[0]) && SettledAll(attrs[1..]))
  }

  /** The slow path leaves exactly the settled attributes as they are. */
  lemma {:induction false} SnapIdentity(a: Attr)
    ensures Snap(a) == a <==> Settled(a)
    decreases a, 0
  {
    if a.value.Group? {
      SnapGroupIdentity(a.value.attrs);
    }
  }

  lemma {:induction false} SnapGroupIdentity(attrs: seq<Attr>)
    ensures SnapGroup(attrs) == attrs <==> SettledAll(attrs)
    decreases attrs, 1
  {
    if attrs != [] {
      var one, rest := Snap(attrs[0]), attrs[1..];
      SnapIdentity(attrs[0]);
      SnapGroupIdentity(rest);
      assert attrs == [attrs[0]] + rest;
      if SnapGroup(attrs) == attrs {
        assert |Kept(one)| == 1;
        assert SnapGroup(attrs)[1..] == SnapGroup(rest);
      }
    }
  }

  lemma {:induction false} SnapSettles(a: Attr)
    ensures Settled(Snap(a))
    decreases a, 0
  {
    var v := Resolve(a.value);
    if v.Group? { SnapGroupSettles(v.attrs); }
  }

  lemma {:induction false} SnapGroupSettles(attrs: seq<Attr>)
    ensures SettledAll(SnapGroup(attrs))
    decreases attrs, 1
  {
    if attrs != [] {
      SnapSettles(attrs[0]);
      SnapGroupSettles(attrs[1..]);
      var one, rest := Snap(attrs[0]), SnapGroup(attrs[1..]);
      if EmptyGroup(one) {
        assert SnapGroup(attrs) == rest;
      } else {
        assert ([one] + rest)[1..] == rest;
      }
    }
  }

  /** Snapshotting twice is snapshotting once. */
  lemma SnapIdempotent(a: Attr)
    ensures Snap(Snap(a)) == Snap(a)
  {
    SnapSettles(a);
    SnapIdentity(Snap(a));
  }

  /** On attributes with nothing to freeze the fast path, which keeps them, is the slow path,
      exactly when no LogValuer and no empty group is among them. */
  lemma FastPathIsSlowPath(attrs: seq<Attr>)
    requires !NeedsAny(attrs)
    ensures Frozen(attrs) == SnapGroup(attrs) <==> SettledAll(attrs)
  {
    SnapGroupIdentity(attrs);
  }

  // ---- what snapshotting means for the encoded record ----

  /** Boxed values are no errors and json.Marshal accepts them. */
  predicate Faithful(a: Attr)
    decreases a, 0
  {
    var v := Resolve(a.value);
    if v.Group? then FaithfulAll(v.attrs) else Boxed(v) ==> v.any.json.Some? && v.any.err.None?
  }

  predicate FaithfulAll(attrs: seq<Attr>)
    decreases attrs, 1
  {
    attrs == [] || (Faithful(attrs[0]) && FaithfulAll(attrs[1..]))
  }

  /** A group, LogValuers aside, of nothing but such groups: one without a leaf. */
  predicate Hollow(a: Attr)
    decreases a, 0
  {
    var v := Resolve(a.value);
    v.Group? && HollowAll(v.attrs)
  }

  predicate HollowAll(attrs: seq<Attr>)
    decreases attrs, 1
  {
    attrs == [] || (Hollow(attrs[0]) && HollowAll(attrs[1..]))
  }

  /** Snapshotting empties exactly the hollow groups. */
  lemma {:induction false} HollowVanishes(attrs: seq<Attr>)
    ensures SnapGroup(attrs) == [] <==> HollowAll(attrs)
    decreases attrs, 1
  {
    if attrs != [] {
      var v := Resolve(attrs[0].value);
      if v.Group? { HollowVanishes(v.attrs); }
      HollowVanishes(attrs[1..]);
    }
  }

  /** No group with a key is hollow, at any depth; one that is is encoded as {} before the
      snapshot and left out afterwards. */
  predicate NothingVanishes(a: Attr)
    decreases a, 0
  {
    var v := Resolve(a.value);
    v.Group? ==> NothingVanishesIn(v.attrs) && (a.key != [] ==> !HollowAll(v.attrs))
  }

  predicate NothingVanishesIn(attrs: seq<Attr>)
    decreases attrs, 1
  {
    attrs == [] || (NothingVanishes(attrs[0]) && NothingVanishesIn(attrs[1..]))
  }

  lemma {:induction false} CountsAppend(a: seq<EField>, b: seq<EField>, a': seq<EField>, b': seq<EField>)
    requires a' == a || FieldCount(a') < FieldCount(a)
    requires b' == b || FieldCount(b') < FieldCount(b)
    ensures if a' == a && b' == b then a' + b' == a + b else FieldCount(a' + b') < FieldCount(a + b)
  {
    CountAppend(a, b);
    CountAppend(a', b');
  }

  lemma {:induction false} SnapEmission(a: Attr)
    requires Faithful(a)
    ensures var now := EmitAll(Kept(Snap(a)));
            if NothingVanishes(a) then now == Emit(a) else FieldCount(now) < FieldCount(Emit(a))
    decreases a, 0
  {
    var v, one := Resolve(a.value), Snap(a);
    assert [one][1..] == [] && EmitAll([one]) == Emit(one);
    assert Resolve(one.value) == one.value;
    if v.Group? {
      HollowVanishes(v.attrs);
      SnapGroupEmission(v.attrs);
      OneObject(a.key, EmitAll(v.attrs));
      OneObject(a.key, EmitAll(SnapGroup(v.attrs)));
      assert Emit(one) == if a.key == [] then EmitAll(SnapGroup(v.attrs)) else [EField(a.key, Obj(EmitAll(SnapGroup(v.attrs))))];
      if SnapGroup(v.attrs) == [] {
        assert Kept(one) == [] && FieldCount(EmitAll([])) == 0;
      }
    }
  }

  lemma OneObject(key: Text, fs: seq<EField>)
    ensures FieldCount([EField(key, Obj(fs))]) == 1 + FieldCount(fs)
  {
    assert [EField(key, Obj(fs))][1..] == [];
  }

  lemma {:induction false} SnapGroupEmission(attrs: seq<Attr>)
    requires FaithfulAll(attrs)
    ensures if NothingVanishesIn(attrs) then EmitAll(SnapGroup(attrs)) == EmitAll(attrs)
            else FieldCount(EmitAll(SnapGroup(attrs))) < FieldCount(EmitAll(attrs))
    decreases attrs, 1
  {
    if attrs != [] {
      var here, rest := Kept(Snap(attrs[0])), SnapGroup(attrs[1..]);
      SnapEmission(attrs[0]);
      SnapGroupEmission(attrs[1..]);
      EmitAppend(here, rest);
      CountsAppend(Emit(attrs[0]), EmitAll(attrs[1..]), EmitAll(here), EmitAll(rest));
    }
  }

  lemma {:induction false} EmitAppend(a: seq<Attr>, b: seq<Attr>)
    ensures EmitAll(a + b) == EmitAll(a) + EmitAll(b)
  {
    if a == [] {
      assert a + b == b;
    } else {
      assert (a + b)[1..] == a[1..] + b;
      EmitAppend(a[1..], b);
    }
  }

  /** For values json.Marshal accepts and that are no errors, the queued record encodes
      exactly as the original would have, if and only if it took the fast path or no group
      with a key is hollow. */
  lemma SnapshotKeepsFields(rec: Rec, fixed: Static)
    requires FaithfulAll(rec.attrs)
    ensures RecordFields(rec.(attrs := Frozen(rec.attrs)), fixed) == RecordFields(rec, fixed)
       <==> !NeedsAny(rec.attrs) || NothingVanishesIn(rec.attrs)
  {
    var stem := BaseFields(rec) + StaticFields(fixed);
    var frozen := rec.(attrs := Frozen(rec.attrs));
    assert BaseFields(frozen) == BaseFields(rec);
    SnapGroupEmission(rec.attrs);
    assert (stem + EmitAll(frozen.attrs))[|stem|..] == EmitAll(frozen.attrs);
    assert (stem + EmitAll(rec.attrs))[|stem|..] == EmitAll(rec.attrs);
  }

  /** A record that loses a field: next to a boxed value, a LogValuer that answers with an
      empty group is encoded as {} before the snapshot and not at all after it. */
  lemma EmptyGroupVanishes(key: Text, other: Text, any: AnyVal)
    requires key != [] && other != [] && any == AnyVal(Some(NTok("1")), true, None)
    ensures var attrs := [Attr(other, Any(any)), Attr(key, Valuer(Group([])))];
            EmitAll(Frozen(attrs)) == EmitAll(attrs[..1]) && EmitAll(attrs) == EmitAll(attrs[..1]) + [EField(key, Obj([]))]
  {
    var attrs := [Attr(other, Any(any)), Attr(key, Valuer(Group([])))];
    assert Resolve(attrs[1].value) == Group([]);
    assert attrs[..1] == [attrs[0]] && attrs == [attrs[0]] + [attrs[1]] && attrs[1..] == [attrs[1]];
    EmitAppend([attrs[0]], [attrs[1]]);
    assert EmitAll([attrs[1]]) == [EField(key, Obj([]))];
    assert Resolve(attrs[0].value) == Any(any) && NeedsOne(attrs[0]);
    assert Snap(attrs[0]) == attrs[0];
    assert Kept(Snap(attrs[1])) == [];
    assert SnapGroup([attrs[1]]) == [];
    assert SnapGroup(attrs) == [attrs[0]];
  }
}
