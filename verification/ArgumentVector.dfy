/** What every argument of an entry point call is, for any body the formatter accepts: options that are
    null, chosen variants and nested records included. */
module ArgumentVector {
  import opened Wrappers
  import opened Tokens
  import opened Formatter
  import opened Layout
  import opened Schemas
  import Flattening

  // One place of the vector: the name of a chosen variant, or the value at a path of field names, of
  // that type, formatted under that schema.
  datatype Slot = Tag(name: string) | At(path: seq<string>, token: Token, schema: Option<Schema>)

  function Under(name: string, slots: seq<Slot>): seq<Slot> {
    seq(|slots|, i requires 0 <= i < |slots| =>
      if slots[i].Tag? then slots[i] else slots[i].(path := [name] + slots[i].path))
  }

  /** The places of a body's vector. A record has those of its fields in schema order; a variant its name
      and then those of its branch; an option that is null, and anything else, one. */
  function Slots(p: Json, t: Token, idx: nat): seq<Slot>
    decreases Size(t), 0
  {
    match t
    case Optional(_, a) => if p.JNull? then [At([], t, Some(SchemaOf(t, idx)))] else Slots(p, a, idx)
    case Comb(_, PairKind, args) =>
      if IsObjectType(p) then FieldSlots(p, Frontier(args, PairKind), idx)
      else [At([], t, Some(SchemaOf(t, idx)))]
    case Comb(_, OrKind, args) =>
      if p.JObj? && |p.fields| == 1 then
        [Tag(p.fields[0].name)]
        + Under(p.fields[0].name, BranchSlots(p.fields[0], t, Frontier(args, OrKind), idx))
      else [At([], t, Some(SchemaOf(t, idx)))]
    case _ => [At([], t, Some(SchemaOf(t, idx)))]
  }

  function FieldSlots(p: Json, ts: seq<Token>, idx: nat): seq<Slot>
    decreases SizeAll(ts), 1
  {
    if ts == [] then []
    else
      (if p.JObj? && HasField(p.fields, Annot(ts[0])) then
         Under(Annot(ts[0]), Slots(GetField(p.fields, Annot(ts[0])).value, ts[0], idx))
       else [])
      + FieldSlots(p, ts[1..], idx + 1)
  }

  /** The branch is the variant of that name; or, if the variants have none, a token of that name nested
      in one of them, which has no schema. */
  function BranchSlots(f: Field, t: Token, ts: seq<Token>, idx: nat): seq<Slot>
    requires t.Comb?
    decreases SizeAll(ts), 1
  {
    if ts == [] then
      if FindChild(t, f.name).None? then [] else [At([], FindChild(t, f.name).value, None)]
    else if Annot(ts[0]) == f.name then Slots(f.value, ts[0], idx)
    else BranchSlots(f, t, ts[1..], idx + 1)
  }

  /** The value is not taken apart: at a record or variant, it is no object. */
  predicate IsLeafValue(v: Json, t: Token) {
    match t
    case Optional(_, a) => v.JNull? || IsLeafValue(v, a)
    case Comb(_, _, _) => !IsObjectType(v)
    case _ => true
  }

  /** The schema is the type's own, or there is none. */
  ghost predicate IsOwnSchema(s: Option<Schema>, t: Token) {
    s.None? || exists idx :: s == Some(SchemaOf(t, idx))
  }

  /** The argument fills the place. */
  ghost predicate Fills(arg: Arg, slot: Slot, p: Json) {
    match slot
    case Tag(name) => arg == AStr(name)
    case At(path, token, schema) =>
      Flattening.Follow(p, path).Some?
      && IsLeafValue(Flattening.Follow(p, path).value, token) && IsOwnSchema(schema, token)
      && Format(Flattening.Follow(p, path).value, token, false, schema) == Ok([arg])
  }

  ghost predicate FillAll(args: seq<Arg>, slots: seq<Slot>, p: Json) {
    |args| == |slots| && forall i :: 0 <= i < |slots| ==> Fills(args[i], slots[i], p)
  }

  lemma FillUnder(args: seq<Arg>, slots: seq<Slot>, p: Json, name: string)
    requires p.JObj? && HasField(p.fields, name) && FillAll(args, slots, GetField(p.fields, name).value)
    ensures FillAll(args, Under(name, slots), p)
  {
    hide Format;
    var v := GetField(p.fields, name).value;
    forall i | 0 <= i < |slots| ensures Fills(args[i], Under(name, slots)[i], p) {
      assert Fills(args[i], slots[i], v);
      if slots[i].At? {
        var path := [name] + slots[i].path;
        assert path[1..] == slots[i].path;
        assert Flattening.Follow(p, path) == Flattening.Follow(v, slots[i].path);
      }
    }
  }

  lemma FillAppend(xs: seq<Arg>, ss: seq<Slot>, ys: seq<Arg>, ts: seq<Slot>, p: Json)
    requires FillAll(xs, ss, p) && FillAll(ys, ts, p)
    ensures FillAll(xs + ys, ss + ts, p)
  {
    hide Fills;
    forall i | 0 <= i < |ss + ts| ensures Fills((xs + ys)[i], (ss + ts)[i], p) {
      if i < |ss| {
        assert Fills(xs[i], ss[i], p);
      } else {
        assert Fills(ys[i - |ss|], ts[i - |ss|], p);
      }
    }
  }

  lemma FillOne(p: Json, t: Token, s: Option<Schema>)
    requires Format(p, t, false, s).Ok? && |Format(p, t, false, s).value| == 1
    requires IsLeafValue(p, t) && IsOwnSchema(s, t)
    ensures FillAll(Format(p, t, false, s).value, [At([], t, s)], p)
  {
    hide Format;
    var r := Format(p, t, false, s).value;
    assert r == [r[0]];
    assert Fills(r[0], At([], t, s), p);
  }

  // ----- records ----------------------------------------------------------------------------------------

  /** Each schema key finds its field and its field's schema. */
  ghost predicate KeysMatch(keys: seq<string>, fields: seq<Token>, t: Token, s: Schema, idx: nat)
    requires t.Comb?
  {
    |keys| == |fields|
    && forall i :: 0 <= i < |fields| ==>
         && keys[i] == Annot(fields[i]) && FindChild(t, keys[i]) == Some(fields[i])
         && Formatter.At(s, keys[i]) == Some(SchemaOf(fields[i], idx + i)) && WellNamed(fields[i])
  }

  lemma SameCount(t: Token, idx: nat)
    requires t.Comb?
    ensures |Keys(SchemaOf(t, idx))| == |Frontier(t.args, t.kind)|
  {
  }

  lemma FieldsMatch(t: Token, idx: nat)
    requires t.Comb? && WellNamed(t)
    ensures KeysMatch(Keys(SchemaOf(t, idx)), Frontier(t.args, t.kind), t, SchemaOf(t, idx), idx)
  {
    hide WellNamed, SchemaOf, Keys, Formatter.At, FindChild, Frontier;
    SameCount(t, idx);
    var keys, fields, s := Keys(SchemaOf(t, idx)), Frontier(t.args, t.kind), SchemaOf(t, idx);
    forall i | 0 <= i < |fields|
      ensures keys[i] == Annot(fields[i]) && FindChild(t, keys[i]) == Some(fields[i])
              && Formatter.At(s, keys[i]) == Some(SchemaOf(fields[i], idx + i)) && WellNamed(fields[i])
    {
      SchemaKey(t, idx, i);
    }
  }

  lemma {:induction false} FieldsFill(
    keys: seq<string>, fields: seq<Token>, p: Json, t: Token, s: Schema, idx: nat)
    requires IsComb(t, PairKind) && KeysMatch(keys, fields, t, s, idx) && FormatKeys(keys, p, t, s).Ok?
    ensures FillAll(FormatKeys(keys, p, t, s).value, FieldSlots(p, fields, idx), p)
    decreases SizeAll(fields), 2
  {
    hide WellNamed, SchemaOf, Fills;
    if fields != [] {
      var f, name := fields[0], keys[0];
      assert FormatKey(name, p, t, s).Ok? && FormatKeys(keys[1..], p, t, s).Ok?;
      assert p.JObj? && HasField(p.fields, name);
      var v := GetField(p.fields, name).value;
      assert FormatKey(name, p, t, s) == Format(v, f, false, Some(SchemaOf(f, idx)));
      VectorFillsSlots(v, f, idx);
      FillUnder(FormatKey(name, p, t, s).value, Slots(v, f, idx), p, name);
      FieldsFill(keys[1..], fields[1..], p, t, s, idx + 1);
      FillAppend(FormatKey(name, p, t, s).value, Under(name, Slots(v, f, idx)),
                 FormatKeys(keys[1..], p, t, s).value, FieldSlots(p, fields[1..], idx + 1), p);
    }
  }

  // ----- variants -----------------------------------------------------------------------------------------

  /** Without a schema, whatever is accepted gives one argument. */
  lemma {:induction false} OneWithoutSchema(p: Json, t: Token)
    requires Format(p, t, false, None).Ok?
    ensures |Format(p, t, false, None).value| == 1 && IsLeafValue(p, t)
    decreases Size(t)
  {
    match t
    case Optional(_, a) => if !p.JNull? { OneWithoutSchema(p, a); }
    case _ =>
  }

  lemma {:induction false} NoSuchKey(ts: seq<Token>, idx: nat, name: string)
    requires forall i :: 0 <= i < |ts| ==> Annot(ts[i]) != name && IsNamed(ts[i])
    ensures AtNode(SchemaFields(ts, idx), name).None?
  {
    if ts != [] {
      assert IsNamed(ts[0]);
      NoSuchKey(ts[1..], idx + 1, name);
    }
  }

  lemma BranchOutside(f: Field, t: Token, idx: nat)
    requires IsComb(t, OrKind) && WellNamed(t)
    requires forall i :: 0 <= i < |Frontier(t.args, OrKind)| ==> Annot(Frontier(t.args, OrKind)[i]) != f.name
    ensures Formatter.At(SchemaOf(t, idx), f.name).None?
  {
    NamedFields(t);
    NoSuchKey(Frontier(t.args, OrKind), idx, f.name);
  }

  /** The places of the branch that the lookup and the schema lead to. */
  lemma {:induction false} BranchFills(f: Field, t: Token, before: seq<Token>, ts: seq<Token>, idx: nat)
    requires IsComb(t, OrKind) && WellNamed(t) && Frontier(t.args, OrKind) == before + ts
    requires forall i :: 0 <= i < |before| ==> Annot(before[i]) != f.name
    requires FindChild(t, f.name).Some?
    requires Format(f.value, FindChild(t, f.name).value, false, Formatter.At(SchemaOf(t, idx), f.name)).Ok?
    ensures FillAll(Format(f.value, FindChild(t, f.name).value, false, Formatter.At(SchemaOf(t, idx), f.name)).value,
                    BranchSlots(f, t, ts, idx + |before|), f.value)
    decreases SizeAll(ts), 2
  {
    hide Fills, Format, WellNamed, SchemaOf, Formatter.At, FindChild, Frontier, FillAll, Slots;
    if ts == [] {
      assert before + ts == before;
      BranchOutside(f, t, idx);
      OneWithoutSchema(f.value, FindChild(t, f.name).value);
      FillOne(f.value, FindChild(t, f.name).value, None);
    } else {
      var i := |before|;
      assert (before + ts)[i] == ts[0];
      if Annot(ts[0]) == f.name {
        SchemaKey(t, idx, i);
        VectorFillsSlots(f.value, ts[0], idx + i);
      } else {
        assert before + ts == (before + [ts[0]]) + ts[1..];
        BranchFills(f, t, before + [ts[0]], ts[1..], idx);
      }
    }
  }

  lemma NamedFields(t: Token)
    requires t.Comb? && WellNamed(t)
    ensures forall i :: 0 <= i < |Frontier(t.args, t.kind)| ==> IsNamed(Frontier(t.args, t.kind)[i])
  {
    var fields := Frontier(t.args, t.kind);
    forall i | 0 <= i < |fields| ensures IsNamed(fields[i]) {
      assert fields[i] in fields;
    }
  }

  // ----- every body ---------------------------------------------------------------------------------------

  /** For every parameter type with distinct names and every body that is accepted: the vector has one
      argument for each place, in order, and each argument is the name of the chosen variant or the
      formatted value at the path. */
  lemma {:induction false} VectorFillsSlots(p: Json, t: Token, idx: nat)
    requires WellNamed(t) && Format(p, t, false, Some(SchemaOf(t, idx))).Ok?
    ensures FillAll(Format(p, t, false, Some(SchemaOf(t, idx))).value, Slots(p, t, idx), p)
    decreases Size(t), 1
  {
    hide Fills;
    var s := SchemaOf(t, idx);
    match t
    case Optional(_, a) =>
      if p.JNull? { FillOne(p, t, Some(s)); } else { VectorFillsSlots(p, a, idx); }
    case Comb(_, PairKind, args) =>
      if IsObjectType(p) {
        FieldsMatch(t, idx);
        FieldsFill(Keys(s), Frontier(args, PairKind), p, t, s, idx);
      } else {
        FillOne(p, t, Some(s));
      }
    case Comb(_, OrKind, args) =>
      if p.JObj? { VariantFills(p, t, idx); } else { FillOne(p, t, Some(s)); }
    case _ =>
      Flattening.SingleArgument(p, t, Some(s));
      FillOne(p, t, Some(s));
  }

  /** An accepted variant is its name and the arguments of its branch. */
  lemma VariantShape(p: Json, t: Token, s: Schema)
    requires IsComb(t, OrKind) && p.JObj? && Format(p, t, false, Some(s)).Ok?
    ensures |p.fields| == 1 && FindChild(t, p.fields[0].name).Some?
    ensures var f := p.fields[0];
            var r := Format(f.value, FindChild(t, f.name).value, false, Formatter.At(s, f.name));
            r.Ok? && Format(p, t, false, Some(s)).value == [AStr(f.name)] + r.value
  {
  }

  lemma {:induction false} VariantFills(p: Json, t: Token, idx: nat)
    requires IsComb(t, OrKind) && WellNamed(t) && p.JObj? && Format(p, t, false, Some(SchemaOf(t, idx))).Ok?
    ensures FillAll(Format(p, t, false, Some(SchemaOf(t, idx))).value, Slots(p, t, idx), p)
    decreases Size(t), 0
  {
    hide Fills, WellNamed, Format, SchemaOf, FillAll, BranchSlots, FindChild, Formatter.At;
    VariantShape(p, t, SchemaOf(t, idx));
    var f, s := p.fields[0], SchemaOf(t, idx);
    var r := Format(f.value, FindChild(t, f.name).value, false, Formatter.At(s, f.name)).value;
    var slots := BranchSlots(f, t, Frontier(t.args, OrKind), idx);
    assert [] + Frontier(t.args, OrKind) == Frontier(t.args, OrKind);
    BranchFills(f, t, [], Frontier(t.args, OrKind), idx);
    assert GetField(p.fields, f.name) == Some(f.value);
    FillUnder(r, slots, p, f.name);
    FillTag(f.name, p);
    FillAppend([AStr(f.name)], [Tag(f.name)], r, Under(f.name, slots), p);
  }

  lemma FillTag(name: string, p: Json)
    ensures FillAll([AStr(name)], [Tag(name)], p)
  {
    assert Fills(AStr(name), Tag(name), p);
  }
}
