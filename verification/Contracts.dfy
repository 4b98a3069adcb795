/** Which bodies the API lets through for a parameter type (src/lib/generate-path-object/index.ts), said without
    the schema objects in between. */
module Contracts {
  import opened Wrappers
  import opened Tokens
  import opened Formatter
  import opened Layout
  import opened Schemas
  import opened Generator
  import opened Soundness

  /** A t, n times z, and 34 letters or digits. */
  predicate IsAddressWith(s: string, n: nat) {
    |s| == 1 + n + 34 && s[0] == 't'
    && (forall i :: 1 <= i <= n ==> s[i] == 'z') && forall i :: n < i < |s| ==> IsAlphanumeric(s[i])
  }

  ghost predicate IsAddressText(s: string) {
    exists n: nat :: n > 0 && IsAddressWith(s, n)
  }

  /** What is let through for a type of that name; types the generator does not know take any object. */
  ghost predicate LetsPrim(prim: string, p: Json) {
    if prim == "address" then p.JStr? && IsAddressText(p.s)
    else if prim == "bytes" then p.JStr? && |p.s| == 1 && IsAlphanumeric(p.s[0])
    else if prim == "bool" then p.JBool?
    else if prim == "int" || prim == "nat" then p.JNum?
    else if prim == "string" then p.JStr?
    else if prim == "list" then p.JArr? && JNull !in p.elems
    else p.JObj?
  }

  /** An object with exactly these fields, each of them once. */
  ghost predicate HasExactly(p: Json, names: seq<string>) {
    p.JObj? && DistinctFields(p.fields) && forall name :: HasField(p.fields, name) <==> name in names
  }

  ghost predicate LetsOption(s: Option<Schema>, p: Json)
    decreases if s.None? then 0 else SchemaSize(s.value), 1
  {
    if s.None? then p.JObj? else Lets(s.value, p)
  }

  /** What is let through for a JSON schema. A property called `map` or `list` decides alone. */
  ghost predicate Lets(s: Schema, p: Json)
    decreases SchemaSize(s), 0
  {
    match s
    case Leaf(prim) => LetsPrim(prim, p)
    case Node(fs) =>
      if Property(s, "map").Some? then
        var m := Property(s, "map").value;
        PropertyFits(s, "map");
        PropertyFits(m, "key");
        PropertyFits(m, "value");
        && HasExactly(p, ["key", "value"])
        && LetsOption(Property(m, "key"), GetField(p.fields, "key").value)
        && LetsOption(Property(m, "value"), GetField(p.fields, "value").value)
      else if Property(s, "list").Some? then
        PropertyFits(s, "list");
        p.JArr? && forall e <- p.elems :: LetsOption(Property(s, "list"), e)
      else HasExactly(p, Keys(s)) && LetsFields(fs, p)
  }

  ghost predicate LetsFields(fs: seq<SchemaField>, p: Json)
    requires p.JObj?
    decreases SchemaSizeAll(fs), 1, |fs|
  {
    fs == []
    || (HasField(p.fields, fs[0].name) && Lets(fs[0].schema, GetField(p.fields, fs[0].name).value)
        && LetsFields(fs[1..], p))
  }

  lemma AddressesAreTexts(s: string)
    ensures IsAddress(s) <==> IsAddressText(s)
  {
    if IsAddress(s) {
      assert IsAddressWith(s, |s| - 35);
    }
  }

  /** An object schema, field by field. */
  lemma ObjectIs(props: seq<Prop>, p: Json)
    requires p.JObj? && DistinctFields(p.fields)
    ensures Valid(ObjectOf(props), p) <==>
            && (forall name :: HasField(p.fields, name) <==> HasProperty(props, name))
            && forall i :: 0 <= i < |props| && HasField(p.fields, props[i].name) ==>
                 Valid(props[i].schema, GetField(p.fields, props[i].name).value)
  {
    if Valid(ObjectOf(props), p) {
      forall name ensures HasField(p.fields, name) <==> HasProperty(props, name) {
        if k :| 0 <= k < |p.fields| && p.fields[k].name == name {}
        if i :| 0 <= i < |props| && props[i].name == name {}
      }
      forall i | 0 <= i < |props| && HasField(p.fields, props[i].name)
        ensures Valid(props[i].schema, GetField(p.fields, props[i].name).value)
      {
        RequiredValue(props, p, i);
      }
    }
    if && (forall name :: HasField(p.fields, name) <==> HasProperty(props, name))
       && forall i :: 0 <= i < |props| && HasField(p.fields, props[i].name) ==>
            Valid(props[i].schema, GetField(p.fields, props[i].name).value)
    {
      forall i | 0 <= i < |props| ensures HasField(p.fields, props[i].name) {
        assert HasProperty(props, props[i].name);
      }
      forall k | 0 <= k < |p.fields| ensures HasProperty(props, p.fields[k].name) {
        assert HasField(p.fields, p.fields[k].name);
      }
      forall i, k | 0 <= i < |props| && 0 <= k < |p.fields| && props[i].name == p.fields[k].name
        ensures Valid(props[i].schema, p.fields[k].value)
      {
        GetDistinct(p.fields, k);
      }
    }
  }

  lemma {:induction false} OptionLets(s: Option<Schema>, p: Json)
    ensures Valid(Generate(s), p) <==> LetsOption(s, p)
    decreases if s.None? then 0 else SchemaSize(s.value), 1
  {
    if s.Some? { ValidIsLet(s.value, p); }
  }

  /** The generated schema of a JSON schema lets through exactly what is said above. */
  lemma {:induction false} ValidIsLet(s: Schema, p: Json)
    ensures Valid(Generate(Some(s)), p) <==> Lets(s, p)
    decreases SchemaSize(s), 0
  {
    match s
    case Leaf(prim) =>
      if p.JStr? { AddressesAreTexts(p.s); }
    case Node(fs) =>
      if Property(s, "map").Some? {
        MapIsLet(s, p);
      } else if Property(s, "list").Some? {
        PropertyFits(s, "list");
        if p.JArr? { forall e <- p.elems { OptionLets(Property(s, "list"), e); } }
      } else {
        RecordIsLet(fs, p);
      }
  }

  lemma {:induction false} MapIsLet(s: Schema, p: Json)
    requires Property(s, "map").Some?
    ensures Valid(Generate(Some(s)), p) <==> Lets(s, p)
    decreases SchemaSize(s), 0, 0
  {
    hide Valid;
    var m := Property(s, "map").value;
    PropertyFits(s, "map");
    PropertyFits(m, "key");
    PropertyFits(m, "value");
    var k, v := Property(m, "key"), Property(m, "value");
    var props := [Prop("key", Generate(k)), Prop("value", Generate(v))];
    assert Generate(Some(s)) == ObjectOf(props);
    ObjectsOnly(props, p);
    if p.JObj? && DistinctFields(p.fields) {
      ObjectIs(props, p);
      forall name ensures HasProperty(props, name) <==> name in ["key", "value"] {
        assert props[0].name == "key" && props[1].name == "value";
      }
      if HasField(p.fields, "key") { OptionLets(k, GetField(p.fields, "key").value); }
      if HasField(p.fields, "value") { OptionLets(v, GetField(p.fields, "value").value); }
    }
  }

  lemma ObjectsOnly(props: seq<Prop>, p: Json)
    ensures Valid(ObjectOf(props), p) ==> p.JObj? && DistinctFields(p.fields)
  {
  }

  lemma {:induction false} RecordIsLet(fs: seq<SchemaField>, p: Json)
    requires Property(Node(fs), "map").None? && Property(Node(fs), "list").None?
    ensures Valid(Generate(Some(Node(fs))), p) <==> Lets(Node(fs), p)
    decreases SchemaSize(Node(fs)), 0, 0
  {
    hide Valid;
    var props := Properties(fs);
    assert Generate(Some(Node(fs))) == ObjectOf(props);
    ObjectsOnly(props, p);
    if p.JObj? && DistinctFields(p.fields) {
      ObjectIs(props, p);
      forall name ensures HasProperty(props, name) <==> name in Keys(Node(fs)) { NameIsKey(fs, name); }
      if forall name :: HasField(p.fields, name) <==> name in Keys(Node(fs)) {
        forall i | 0 <= i < |fs| ensures HasField(p.fields, fs[i].name) {
          assert Keys(Node(fs))[i] in Keys(Node(fs));
        }
        forall i | 0 <= i < |fs| ensures props[i].name == fs[i].name { PropertiesAt(fs, i); }
        FieldsAreLet(fs, p);
      }
    }
  }

  lemma NameIsKey(fs: seq<SchemaField>, name: string)
    ensures HasProperty(Properties(fs), name) <==> name in Keys(Node(fs))
  {
    forall i | 0 <= i < |fs| ensures Properties(fs)[i].name == Keys(Node(fs))[i] { PropertiesAt(fs, i); }
  }

  lemma {:induction false} FieldsAreLet(fs: seq<SchemaField>, p: Json)
    requires p.JObj? && forall i :: 0 <= i < |fs| ==> HasField(p.fields, fs[i].name)
    ensures (forall i :: 0 <= i < |fs| ==>
               Valid(Properties(fs)[i].schema, GetField(p.fields, fs[i].name).value)) <==> LetsFields(fs, p)
    decreases SchemaSizeAll(fs), 1, |fs|
  {
    hide Valid;
    if fs != [] {
      var more, props := fs[1..], Properties(fs);
      PropertiesAt(fs, 0);
      ValidIsLet(fs[0].schema, GetField(p.fields, fs[0].name).value);
      FieldsAreLet(more, p);
      assert props[1..] == Properties(more);
      assert forall i :: 0 <= i < |more| ==> props[i + 1] == Properties(more)[i] && more[i] == fs[i + 1];
      assert forall i :: 0 < i < |fs| ==> props[i] == Properties(more)[i - 1];
    }
  }

  // ----- for a type -----------------------------------------------------------------------------------------

  function FieldNames(ts: seq<Token>): seq<string> {
    seq(|ts|, i requires 0 <= i < |ts| => Annot(ts[i]))
  }

  /** What is let through for a parameter type: of a list its elements, of a map a single entry, of a set any
      object, and of a record or variant all fields or branches at once. */
  ghost predicate LetsType(t: Token, idx: nat, p: Json)
    decreases Size(t), 0
  {
    match t
    case Scalar(_, prim) => LetsPrim(prim, p)
    case Boolean(_) => p.JBool?
    case Optional(_, a) => LetsType(a, idx, p)
    case List(_, a) => p.JArr? && forall e <- p.elems :: LetsType(a, 0, e)
    case Set(_, _) => p.JObj?
    case Map(_, k, v) =>
      && HasExactly(p, ["key", "value"])
      && LetsType(k, 0, GetField(p.fields, "key").value) && LetsType(v, 0, GetField(p.fields, "value").value)
    case Comb(_, kind, args) =>
      var fields := Frontier(args, kind);
      if HasName(fields, "map") || HasName(fields, "list") then Lets(SchemaOf(t, idx), p)
      else HasExactly(p, FieldNames(fields)) && LetsTypes(fields, idx, p)
  }

  ghost predicate LetsTypes(ts: seq<Token>, idx: nat, p: Json)
    requires p.JObj?
    decreases SizeAll(ts), 1
  {
    ts == []
    || (HasField(p.fields, Annot(ts[0])) && LetsType(ts[0], idx, GetField(p.fields, Annot(ts[0])).value)
        && LetsTypes(ts[1..], idx + 1, p))
  }

  /** For every parameter type with distinct names, the generated schema lets through exactly that. */
  lemma {:induction false} ContractLets(t: Token, idx: nat, p: Json)
    requires WellNamed(t)
    ensures Valid(Contract(t, idx), p) <==> LetsType(t, idx, p)
    decreases Size(t), 0
  {
    match t
    case Scalar(_, _) => ValidIsLet(SchemaOf(t, idx), p);
    case Boolean(_) =>
    case Optional(_, a) => ContractLets(a, idx, p);
    case List(_, a) =>
      ListContract(t, idx);
      if p.JArr? { forall e <- p.elems { ContractLets(a, 0, e); } }
    case Set(_, _) =>
    case Map(_, k, v) =>
      MapContract(t, idx);
      EntryLets(t, p);
    case Comb(_, kind, args) =>
      var fields := Frontier(args, kind);
      if HasName(fields, "map") || HasName(fields, "list") {
        ValidIsLet(SchemaOf(t, idx), p);
      } else {
        CombLets(t, idx, p);
      }
  }

  lemma {:induction false} EntryLets(t: Token, p: Json)
    requires t.Map? && WellNamed(t)
    ensures Valid(ObjectOf([Prop("key", Contract(t.key, 0)), Prop("value", Contract(t.val, 0))]), p) <==>
            LetsType(t, 0, p)
    decreases Size(t), 0, 0
  {
    hide Valid, Contract;
    var props := [Prop("key", Contract(t.key, 0)), Prop("value", Contract(t.val, 0))];
    ObjectsOnly(props, p);
    if p.JObj? && DistinctFields(p.fields) {
      ObjectIs(props, p);
      forall name ensures HasProperty(props, name) <==> name in ["key", "value"] {
        assert props[0].name == "key" && props[1].name == "value";
      }
      if HasField(p.fields, "key") { ContractLets(t.key, 0, GetField(p.fields, "key").value); }
      if HasField(p.fields, "value") { ContractLets(t.val, 0, GetField(p.fields, "value").value); }
    }
  }

  lemma {:induction false} CombLets(t: Token, idx: nat, p: Json)
    requires t.Comb? && WellNamed(t)
    requires !HasName(Frontier(t.args, t.kind), "map") && !HasName(Frontier(t.args, t.kind), "list")
    ensures Valid(Contract(t, idx), p) <==> LetsType(t, idx, p)
    decreases Size(t), 0, 0
  {
    hide Valid, Contract, SchemaOf, Frontier;
    Describe(t, idx);
    var fields, props := Frontier(t.args, t.kind), Contract(t, idx).props;
    ObjectsOnly(props, p);
    if p.JObj? && DistinctFields(p.fields) {
      ObjectIs(props, p);
      forall name ensures HasProperty(props, name) <==> name in FieldNames(fields) {
        forall i | 0 <= i < |fields| ensures props[i].name == FieldNames(fields)[i] {}
      }
      if forall name :: HasField(p.fields, name) <==> name in FieldNames(fields) {
        forall i | 0 <= i < |fields| ensures HasField(p.fields, Annot(fields[i])) {
          assert FieldNames(fields)[i] in FieldNames(fields);
        }
        WellNamedFields(t);
        TypesAreLet(fields, idx, p);
      }
    }
  }

  lemma WellNamedFields(t: Token)
    requires t.Comb? && WellNamed(t)
    ensures WellNamedAll(Frontier(t.args, t.kind)) && SizeAll(Frontier(t.args, t.kind)) < Size(t)
  {
  }

  lemma {:induction false} TypesAreLet(ts: seq<Token>, idx: nat, p: Json)
    requires p.JObj? && WellNamedAll(ts) && forall i :: 0 <= i < |ts| ==> HasField(p.fields, Annot(ts[i]))
    ensures (forall i: nat :: i < |ts| ==> Valid(Contract(ts[i], idx + i), GetField(p.fields, Annot(ts[i])).value))
            <==> LetsTypes(ts, idx, p)
    decreases SizeAll(ts), 1
  {
    hide Valid, Contract, WellNamed, LetsType;
    if ts != [] {
      var more := ts[1..];
      ContractLets(ts[0], idx, GetField(p.fields, Annot(ts[0])).value);
      TypesAreLet(more, idx + 1, p);
      if forall i: nat :: i < |ts| ==> Valid(Contract(ts[i], idx + i), GetField(p.fields, Annot(ts[i])).value) {
        assert Valid(Contract(ts[0], idx + 0), GetField(p.fields, Annot(ts[0])).value);
        forall i: nat | i < |more|
          ensures Valid(Contract(more[i], idx + 1 + i), GetField(p.fields, Annot(more[i])).value)
        {
          assert Valid(Contract(ts[i + 1], idx + (i + 1)), GetField(p.fields, Annot(ts[i + 1])).value);
        }
      }
      if LetsTypes(ts, idx, p) {
        forall i: nat | i < |ts|
          ensures Valid(Contract(ts[i], idx + i), GetField(p.fields, Annot(ts[i])).value)
        {
          if i > 0 {
            assert Valid(Contract(more[i - 1], idx + 1 + (i - 1)), GetField(p.fields, Annot(more[i - 1])).value);
          }
        }
      }
    }
  }
}
