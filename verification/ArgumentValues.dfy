/** What the arguments of a call are worth, in terms of the JSON they come from: in shape-preserving mode, and
    place by place in schema mode. */
module ArgumentValues {
  import opened Wrappers
  import opened Tokens
  import opened Formatter
  import opened Layout
  import opened Schemas
  import opened Acceptance
  import opened ArgumentKeys
  import opened ArgumentVector
  import Flattening

  /** Every object of the body has each field once. */
  predicate IsJson(p: Json)
    decreases p
  {
    match p
    case JArr(es) => forall i :: 0 <= i < |es| ==> IsJson(es[i])
    case JObj(fs) => DistinctFields(fs) && forall i :: 0 <= i < |fs| ==> IsJson(fs[i].value)
    case _ => true
  }

  /** A primitive as it is. */
  predicate IsPlain(a: Arg, p: Json) {
    (p.JBool? && a == ABool(p.b)) || (p.JNum? && a == ANum(p.n)) || (p.JStr? && a == AStr(p.s))
  }

  // ----- shape-preserving mode ------------------------------------------------------------------------------

  /** The argument stands for the value: primitives as they are, booleans as spelled, lists element by element,
      records and variants field by field, and a list of {key, value} objects as the dictionary of its entries. */
  ghost predicate Stands(a: Arg, p: Json, t: Token)
    decreases Size(t), 1
  {
    match t
    case Optional(_, u) => if p.JNull? then a == ANull else Stands(a, p, u)
    case Boolean(_) => a.ABool? && SaysBoolean(p, a.b)
    case Scalar(_, _) => IsPlain(a, p)
    case List(_, u) => IsPlain(a, p) || StandsForAll(a, p, u)
    case Set(_, u) => IsPlain(a, p) || StandsForAll(a, p, u)
    case Map(_, _, _) =>
      IsPlain(a, p)
      || (p.JArr? && a.AMap? && exists es :: IsDictionary(a.entries, es) && StandForEntries(es, p.elems, t))
    case Comb(_, kind, _) =>
      IsPlain(a, p)
      || (p.JObj? && a.AObj? && |a.fields| == |p.fields| && (kind == OrKind ==> |p.fields| == 1)
          && forall i :: 0 <= i < |p.fields| ==> StandsForField(a.fields[i], p.fields[i], t))
  }

  ghost predicate StandsForAll(a: Arg, p: Json, u: Token)
    decreases Size(u), 2
  {
    p.JArr? && a.AArr? && |a.elems| == |p.elems| && forall i :: 0 <= i < |p.elems| ==> Stands(a.elems[i], p.elems[i], u)
  }

  ghost predicate StandsForField(f: ArgField, given: Field, t: Token)
    requires t.Comb?
    decreases Size(t), 0
  {
    f.name == given.name && FindChild(t, given.name).Some?
    && Stands(f.value, given.value, FindChild(t, given.name).value)
  }

  ghost predicate StandForEntries(es: seq<ArgEntry>, ps: seq<Json>, t: Token)
    requires t.Map?
    decreases Size(t), 0
  {
    |es| == |ps| && forall i :: 0 <= i < |ps| ==>
      && ps[i].JObj? && |ps[i].fields| == 2 && ps[i].fields[0].name == "key" && ps[i].fields[1].name == "value"
      && Stands(es[i].key, ps[i].fields[0].value, t.key) && Stands(es[i].value, ps[i].fields[1].value, t.val)
  }

  /** Every value that is accepted gives one argument, which stands for it. */
  lemma {:induction false} ShapeArgument(p: Json, t: Token)
    requires Format(p, t, true, None).Ok? && IsJson(p)
    ensures var r := Format(p, t, true, None).value; |r| == 1 && Stands(r[0], p, t) && IsJs(r[0])
    decreases Size(t), 2
  {
    match t
    case Optional(_, u) => if !p.JNull? { ShapeArgument(p, u); }
    case Boolean(_) =>
      var b := Format(p, t, true, None).value[0].b;
      BooleanArgument(p, t, true, None);
      assert Format(p, t, true, None) == Ok([ABool(b)]);
    case Scalar(_, _) =>
    case List(_, u) => if p.JArr? { ElementArguments(p.elems, u); }
    case Set(_, u) => if p.JArr? { ElementArguments(p.elems, u); }
    case Map(_, _, _) =>
      if p.JArr? {
        var es := FormatEntries(p.elems, t, true, None).value;
        EntryArguments(p.elems, t);
        MapIsDictionary(es);
        assert IsDictionary(MapOf(es), es) && StandForEntries(es, p.elems, t);
      }
    case Comb(_, kind, _) =>
      if p.JObj? {
        if kind == OrKind { VariantArgument(p, t); } else { FieldArguments(p.fields, t); }
      }
  }

  lemma {:induction false} ElementArguments(ps: seq<Json>, u: Token)
    requires FormatAll(ps, u).Ok? && forall i :: 0 <= i < |ps| ==> IsJson(ps[i])
    ensures var r := FormatAll(ps, u).value;
            |r| == |ps| && forall i :: 0 <= i < |ps| ==> Stands(r[i], ps[i], u) && IsJs(r[i])
    decreases Size(u), 3, |ps|
  {
    hide Stands, IsJs;
    if ps != [] {
      ShapeArgument(ps[0], u);
      ElementArguments(ps[1..], u);
    }
  }

  lemma {:induction false} VariantArgument(p: Json, t: Token)
    requires IsComb(t, OrKind) && p.JObj? && Format(p, t, true, None).Ok? && IsJson(p)
    ensures var r := Format(p, t, true, None).value; |r| == 1 && Stands(r[0], p, t) && IsJs(r[0])
    decreases Size(t), 1
  {
    var f := p.fields[0];
    ShapeArgument(f.value, FindChild(t, f.name).value);
    var a := Format(p, t, true, None).value[0];
    assert a.fields[0] == ArgField(f.name, Format(f.value, FindChild(t, f.name).value, true, None).value[0]);
    assert StandsForField(a.fields[0], f, t);
  }

  lemma {:induction false} FieldArguments(fs: seq<Field>, t: Token)
    requires t.Comb? && FormatFields(fs, t).Ok?
    requires DistinctFields(fs) && forall i :: 0 <= i < |fs| ==> IsJson(fs[i].value)
    ensures var r := FormatFields(fs, t).value;
            && |r| == |fs| && IsJs(AObj(r))
            && forall i :: 0 <= i < |fs| ==> StandsForField(r[i], fs[i], t)
    decreases Size(t), 0, |fs|
  {
    hide Stands, FindChild;
    if fs != [] {
      ShapeArgument(fs[0].value, FindChild(t, fs[0].name).value);
      FieldArguments(fs[1..], t);
      var r := FormatFields(fs, t).value;
      assert forall i :: 0 < i < |fs| ==> fs[i] == fs[1..][i - 1] && r[i] == r[1..][i - 1];
      assert StandsForField(r[0], fs[0], t);
    }
  }

  lemma {:induction false} EntryArguments(ps: seq<Json>, t: Token)
    requires t.Map? && FormatEntries(ps, t, true, None).Ok? && forall i :: 0 <= i < |ps| ==> IsJson(ps[i])
    ensures var es := FormatEntries(ps, t, true, None).value; StandForEntries(es, ps, t) && KeysAreJs(es)
    decreases Size(t), 1, |ps|
  {
    hide Stands;
    if ps != [] {
      ShapeArgument(ps[0].fields[0].value, t.key);
      ShapeArgument(ps[0].fields[1].value, t.val);
      EntryArguments(ps[1..], t);
    }
  }

  // ----- schema mode ----------------------------------------------------------------------------------------

  /** The argument stands for a value that is not taken apart. The elements of a list are in the other mode.
      A map is the dictionary of its entries, each of which keeps the first argument of its value and of its
      key. What becomes of a record, variant or map as key, which is formatted under the schema of the
      values, is not said. */
  ghost predicate StandsFlat(a: Arg, p: Json, t: Token)
    decreases Size(t), 1
  {
    match t
    case Optional(_, u) => if p.JNull? then a == ANull else StandsFlat(a, p, u)
    case Boolean(_) => a.ABool? && SaysBoolean(p, a.b)
    case Scalar(_, _) => IsPlain(a, p)
    case List(_, u) => IsPlain(a, p) || StandsForAll(a, p, u)
    case Set(_, u) => IsPlain(a, p) || StandsForAll(a, p, u)
    case Map(_, _, _) =>
      IsPlain(a, p)
      || (p.JArr? && a.AMap? && exists es :: IsDictionary(a.entries, es) && StandFlatForEntries(es, p.elems, t))
    case Comb(_, _, _) => IsPlain(a, p)
  }

  ghost predicate StandFlatForEntries(es: seq<ArgEntry>, ps: seq<Json>, t: Token)
    requires t.Map?
    decreases Size(t), 0
  {
    |es| == |ps| && forall i :: 0 <= i < |ps| ==>
      && ps[i].JObj? && |ps[i].fields| == 2 && ps[i].fields[0].name == "key" && ps[i].fields[1].name == "value"
      && (IsPlainKey(ps[i].fields[0].value, t.key) ==> StandsFlat(es[i].key, ps[i].fields[0].value, t.key))
      && StandsFirst(es[i].value, ps[i].fields[1].value, t.val)
  }

  /** No record, variant or map as key. */
  predicate IsPlainKey(v: Json, t: Token) {
    match t
    case Optional(_, u) => v.JNull? || IsPlainKey(v, u)
    case Comb(_, _, _) => !IsObjectType(v)
    case Map(_, _, _) => !IsObjectType(v)
    case _ => true
  }

  /** The argument is the one of the value's first place. */
  ghost predicate StandsFirst(a: Arg, p: Json, t: Token)
    decreases Size(t), 2
  {
    var slots := Slots(p, t, 0);
    if IsLeafValue(p, t) then StandsFlat(a, p, t)
    else if slots == [] then a == AUndefined
    else
      match slots[0]
      case Tag(name) => a == AStr(name)
      case At(path, token, _) =>
        Size(token) < Size(t) && Flattening.Follow(p, path).Some?
        && StandsFlat(a, Flattening.Follow(p, path).value, token)
  }

  /** A plain key is formatted alike under any schema. */
  lemma {:induction false} PlainKeyIgnoresSchema(p: Json, t: Token, s: Option<Schema>)
    requires IsPlainKey(p, t)
    ensures Format(p, t, false, s) == Format(p, t, false, None) && IsLeafValue(p, t)
    decreases Size(t)
  {
    if t.Optional? && !p.JNull? { PlainKeyIgnoresSchema(p, t.arg, s); }
  }

  lemma {:induction false} ArgumentsAreJs(p: Json, t: Token, onlyFormatMaps: bool, s: Option<Schema>)
    requires Format(p, t, onlyFormatMaps, s).Ok? && IsJson(p)
    ensures forall a <- Format(p, t, onlyFormatMaps, s).value :: IsJs(a)
    decreases Size(t), 1
  {
    match t
    case Optional(_, u) => if !p.JNull? { ArgumentsAreJs(p, u, onlyFormatMaps, s); }
    case List(_, u) => if p.JArr? { ElementArguments(p.elems, u); }
    case Set(_, u) => if p.JArr? { ElementArguments(p.elems, u); }
    case Comb(_, kind, _) =>
      if onlyFormatMaps {
        if p.JObj? && kind == OrKind {
          ShapeVariantIgnoresSchema(p, t, s);
          VariantArgument(p, t);
        } else if p.JObj? {
          FieldArguments(p.fields, t);
        }
      } else if p.JObj? && kind == OrKind {
        var f := p.fields[0];
        ArgumentsAreJs(f.value, FindChild(t, f.name).value, false, Formatter.At(s.value, f.name));
      } else if IsObjectType(p) {
        KeyArgumentsAreJs(Keys(s.value), p, t, s.value);
      }
    case _ =>
  }

  lemma ShapeVariantIgnoresSchema(p: Json, t: Token, s: Option<Schema>)
    requires IsComb(t, OrKind) && p.JObj?
    ensures Format(p, t, true, s) == Format(p, t, true, None)
  {
  }

  lemma {:induction false} KeyArgumentsAreJs(ks: seq<string>, p: Json, t: Token, s: Schema)
    requires t.Comb? && FormatKeys(ks, p, t, s).Ok? && IsJson(p)
    ensures forall a <- FormatKeys(ks, p, t, s).value :: IsJs(a)
    decreases Size(t), 0, |ks|
  {
    if ks != [] {
      var v, child := GetField(p.fields, ks[0]).value, FindChild(t, ks[0]);
      FieldIsJson(p, ks[0]);
      if child.Some? { ArgumentsAreJs(v, child.value, false, Formatter.At(s, ks[0])); }
      KeyArgumentsAreJs(ks[1..], p, t, s);
    }
  }

  lemma FieldIsJson(p: Json, name: string)
    requires p.JObj? && IsJson(p) && HasField(p.fields, name)
    ensures IsJson(GetField(p.fields, name).value)
  {
    var i :| 0 <= i < |p.fields| && p.fields[i] == Field(name, GetField(p.fields, name).value);
  }

  lemma {:induction false} FollowIsJson(p: Json, path: seq<string>)
    requires IsJson(p) && Flattening.Follow(p, path).Some?
    ensures IsJson(Flattening.Follow(p, path).value)
    decreases |path|
  {
    if path != [] {
      FieldIsJson(p, path[0]);
      FollowIsJson(GetField(p.fields, path[0]).value, path[1..]);
    }
  }

  // The types of the places.

  ghost predicate Fit(slots: seq<Slot>, size: nat) {
    forall i :: 0 <= i < |slots| && slots[i].At? ==>
      Size(slots[i].token) <= size && (slots[i].schema.Some? ==> WellNamed(slots[i].token))
  }

  lemma {:induction false} SlotsFit(p: Json, t: Token, idx: nat)
    requires WellNamed(t)
    ensures Fit(Slots(p, t, idx), Size(t))
    decreases Size(t), 0
  {
    match t
    case Optional(_, u) => if !p.JNull? { SlotsFit(p, u, idx); }
    case Comb(_, PairKind, args) => if IsObjectType(p) { FieldSlotsFit(p, Frontier(args, PairKind), idx); }
    case Comb(_, OrKind, args) =>
      if p.JObj? && |p.fields| == 1 { BranchSlotsFit(p.fields[0], t, Frontier(args, OrKind), idx); }
    case _ =>
  }

  lemma {:induction false} FieldSlotsFit(p: Json, ts: seq<Token>, idx: nat)
    requires WellNamedAll(ts)
    ensures Fit(FieldSlots(p, ts, idx), SizeAll(ts))
    decreases SizeAll(ts), 1
  {
    hide WellNamed;
    if ts != [] {
      if p.JObj? && HasField(p.fields, Annot(ts[0])) { SlotsFit(GetField(p.fields, Annot(ts[0])).value, ts[0], idx); }
      FieldSlotsFit(p, ts[1..], idx + 1);
    }
  }

  lemma {:induction false} BranchSlotsFit(f: Field, t: Token, ts: seq<Token>, idx: nat)
    requires t.Comb? && WellNamedAll(ts) && SizeAll(ts) < Size(t)
    ensures Fit(BranchSlots(f, t, ts, idx), Size(t) - 1)
    decreases SizeAll(ts), 1
  {
    hide WellNamed;
    if ts != [] {
      if Annot(ts[0]) == f.name { SlotsFit(f.value, ts[0], idx); } else { BranchSlotsFit(f, t, ts[1..], idx + 1); }
    }
  }

  /** What is taken apart has smaller places. */
  lemma {:induction false} PartsAreSmaller(p: Json, t: Token, idx: nat)
    requires WellNamed(t) && !IsLeafValue(p, t) && Format(p, t, false, Some(SchemaOf(t, idx))).Ok?
    ensures Fit(Slots(p, t, idx), Size(t) - 1)
    decreases Size(t)
  {
    match t
    case Optional(_, u) => PartsAreSmaller(p, u, idx);
    case Comb(_, PairKind, args) => FieldSlotsFit(p, Frontier(args, PairKind), idx);
    case Comb(_, OrKind, args) => BranchSlotsFit(p.fields[0], t, Frontier(args, OrKind), idx);
  }

  // One argument, and the whole vector.

  lemma {:induction false} FlatArgument(p: Json, t: Token, s: Option<Schema>)
    requires (s.Some? ==> WellNamed(t)) && IsOwnSchema(s, t) && IsLeafValue(p, t)
    requires Format(p, t, false, s).Ok? && IsJson(p)
    ensures var r := Format(p, t, false, s).value; |r| == 1 && StandsFlat(r[0], p, t)
    decreases Size(t), 2
  {
    match t
    case Optional(_, u) =>
      if !p.JNull? {
        if s.Some? {
          var idx :| s == Some(SchemaOf(t, idx));
          assert s == Some(SchemaOf(u, idx));
        }
        FlatArgument(p, u, s);
      }
    case Boolean(_) =>
      var b := Format(p, t, false, s).value[0].b;
      BooleanArgument(p, t, false, s);
      assert Format(p, t, false, s) == Ok([ABool(b)]);
    case List(_, u) => if p.JArr? { ElementArguments(p.elems, u); }
    case Set(_, u) => if p.JArr? { ElementArguments(p.elems, u); }
    case Map(_, _, _) =>
      if p.JArr? {
        var es := FormatEntries(p.elems, t, false, s).value;
        FlatEntries(p.elems, t, s);
        MapIsDictionary(es);
        assert IsDictionary(MapOf(es), es) && StandFlatForEntries(es, p.elems, t);
      }
    case _ =>
  }

  /** The schema that a map passes on is that of its values. */
  lemma EntrySchemaIsOwn(t: Token, s: Option<Schema>)
    requires t.Map? && IsOwnSchema(s, t)
    ensures EntrySchema(s) == Ok(if s.Some? then Some(SchemaOf(t.val, 0)) else None)
  {
    if s.Some? {
      var k, v := SchemaField("key", SchemaOf(t.key, 0)), SchemaField("value", SchemaOf(t.val, 0));
      assert |"key"| != |"value"| && [k, v][1..] == [v];
      assert AtNode([v], "value") == Some(v.schema);
      assert AtNode([k, v], "value") == Some(v.schema);
    }
  }

  lemma {:induction false} FlatEntries(ps: seq<Json>, t: Token, s: Option<Schema>)
    requires t.Map? && (s.Some? ==> WellNamed(t)) && IsOwnSchema(s, t) && FormatEntries(ps, t, false, s).Ok?
    requires forall i :: 0 <= i < |ps| ==> IsJson(ps[i])
    ensures var es := FormatEntries(ps, t, false, s).value; StandFlatForEntries(es, ps, t) && KeysAreJs(es)
    decreases Size(t), 1, |ps|
  {
    hide StandsFlat, StandsFirst, IsOwnSchema, IsPlainKey, SchemaOf, WellNamed, Format;
    if ps != [] {
      FlatEntry(ps[0], t, s);
      FlatEntries(ps[1..], t, s);
      var es := FormatEntries(ps, t, false, s).value;
      assert forall i :: 0 < i < |ps| ==> ps[i] == ps[1..][i - 1] && es[i] == es[1..][i - 1];
    }
  }

  lemma {:induction false} FlatEntry(p: Json, t: Token, s: Option<Schema>)
    requires t.Map? && (s.Some? ==> WellNamed(t)) && IsOwnSchema(s, t) && FormatEntry(p, t, false, s).Ok? && IsJson(p)
    ensures var e := FormatEntry(p, t, false, s).value;
            && p.JObj? && |p.fields| == 2 && p.fields[0].name == "key" && p.fields[1].name == "value" && IsJs(e.key)
            && (IsPlainKey(p.fields[0].value, t.key) ==> StandsFlat(e.key, p.fields[0].value, t.key))
            && StandsFirst(e.value, p.fields[1].value, t.val)
    decreases Size(t), 0
  {
    hide StandsFlat, StandsFirst, IsJs;
    EntrySchemaIsOwn(t, s);
    var k, v, sub := p.fields[0].value, p.fields[1].value, EntrySchema(s).value;
    ArgumentsAreJs(k, t.key, false, sub);
    assert IsJs(First(Format(k, t.key, false, sub).value)) by { FirstIsJs(Format(k, t.key, false, sub).value); }
    if IsPlainKey(k, t.key) {
      PlainKeyIgnoresSchema(k, t.key, sub);
      FlatArgument(k, t.key, None);
    }
    FirstStands(v, t.val, sub);
  }

  lemma FirstIsJs(args: seq<Arg>)
    requires forall a <- args :: IsJs(a)
    ensures IsJs(First(args))
  {
  }

  lemma {:induction false} FirstStands(p: Json, t: Token, s: Option<Schema>)
    requires s.None? || (WellNamed(t) && s == Some(SchemaOf(t, 0)))
    requires Format(p, t, false, s).Ok? && IsJson(p)
    ensures StandsFirst(First(Format(p, t, false, s).value), p, t)
    decreases Size(t), 3
  {
    hide StandsFlat, WellNamed, SchemaOf;
    if s.None? { OneWithoutSchema(p, t); }
    assert IsOwnSchema(s, t);
    if IsLeafValue(p, t) {
      FlatArgument(p, t, s);
    } else {
      VectorFillsSlots(p, t, 0);
      PartsAreSmaller(p, t, 0);
      var r, slots := Format(p, t, false, s).value, Slots(p, t, 0);
      if slots != [] && slots[0].At? {
        assert Fills(r[0], slots[0], p);
        FollowIsJson(p, slots[0].path);
        FlatArgument(Flattening.Follow(p, slots[0].path).value, slots[0].token, slots[0].schema);
      }
    }
  }

  /** The argument is that of the place: a chosen variant's name, or what stands for the JSON there. */
  ghost predicate SlotStands(a: Arg, slot: Slot, p: Json) {
    match slot
    case Tag(name) => a == AStr(name)
    case At(path, token, _) =>
      var v := Flattening.Follow(p, path);
      v.Some? && IsLeafValue(v.value, token) && StandsFlat(a, v.value, token)
  }

  lemma FilledSlotStands(a: Arg, slot: Slot, p: Json, size: nat)
    requires Fills(a, slot, p) && Fit([slot], size) && IsJson(p)
    ensures SlotStands(a, slot, p)
  {
    hide StandsFlat;
    assert [slot][0] == slot;
    if slot.At? {
      FollowIsJson(p, slot.path);
      FlatArgument(Flattening.Follow(p, slot.path).value, slot.token, slot.schema);
    }
  }

  /** For every parameter type with distinct names and every body that is accepted: the arguments are those
      of the body's places, one for each, in order. */
  lemma VectorStands(p: Json, t: Token)
    requires WellNamed(t) && IsJson(p) && Arguments(p, t).Ok?
    ensures var r, slots := Arguments(p, t).value, Slots(p, t, 0);
            |r| == |slots| && forall i :: 0 <= i < |slots| ==> SlotStands(r[i], slots[i], p)
  {
    hide SlotStands, Slots, WellNamed, Fills;
    var r, slots := Arguments(p, t).value, Slots(p, t, 0);
    VectorFillsSlots(p, t, 0);
    SlotsFit(p, t, 0);
    forall i | 0 <= i < |slots| ensures SlotStands(r[i], slots[i], p) {
      FilledSlotStands(r[i], slots[i], p, Size(t));
    }
  }
}
