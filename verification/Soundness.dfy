/** Whether the formatter accepts every body that a generated schema lets through
    (src/lib/generate-path-object/index.ts against src/lib/smart-contracts/index.ts): decided first for
    any schema and any type, and then for each type and its own schema. */
module Soundness {
  import opened Wrappers
  import opened Tokens
  import opened Formatter
  import opened Layout
  import opened Schemas
  import opened Acceptance
  import opened Generator

  // ----- bodies ------------------------------------------------------------------------------------------

  predicate DistinctNamesOf(props: seq<Prop>) {
    forall i, j :: 0 <= i < j < |props| ==> props[i].name != props[j].name
  }

  /** Every object schema lists each property once. */
  predicate DistinctProps(o: OpenApi)
    decreases o
  {
    match o
    case ArrayOf(items) => DistinctProps(items)
    case ObjectOf(props) =>
      DistinctNamesOf(props) && forall i :: 0 <= i < |props| ==> DistinctProps(props[i].schema)
    case _ => true
  }

  /** A body that the schema lets through. */
  function Sample(o: OpenApi): (p: Json)
    ensures !p.JNull?
    decreases o
  {
    match o
    case AddressRef => JStr("tz" + seq(34, _ => '1'))
    case FlexibleArrayRef => JArr([])
    case BytesString => JStr("0")
    case AnyString => JStr("")
    case AnyBoolean => JBool(true)
    case AnyNumber => JNum(0.0)
    case AnyObject => JObj([])
    case ArrayOf(_) => JArr([])
    case ObjectOf(props) => JObj(SampleFields(props))
  }

  function SampleFields(props: seq<Prop>): (fs: seq<Field>)
    ensures |fs| == |props| && forall i :: 0 <= i < |props| ==> fs[i] == Field(props[i].name, Sample(props[i].schema))
    decreases props
  {
    if props == [] then [] else [SampleField(props[0])] + SampleFields(props[1..])
  }

  function SampleField(pr: Prop): (f: Field)
    ensures f == Field(pr.name, Sample(pr.schema))
    decreases pr
  {
    Field(pr.name, Sample(pr.schema))
  }

  lemma MatchingFieldsAreValid(props: seq<Prop>, p: Json)
    requires p.JObj? && |props| == |p.fields| && DistinctNamesOf(props)
    requires forall i :: 0 <= i < |props| ==>
               p.fields[i].name == props[i].name && Valid(props[i].schema, p.fields[i].value)
    ensures Valid(ObjectOf(props), p) && DistinctFields(p.fields)
  {
    forall i, k | 0 <= i < |props| && 0 <= k < |p.fields| && props[i].name == p.fields[k].name ensures i == k {
      assert p.fields[k].name == props[k].name;
    }
    forall k | 0 <= k < |p.fields| ensures HasProperty(props, p.fields[k].name) {
      assert p.fields[k].name == props[k].name;
    }
  }

  lemma {:induction false} SampleIsValid(o: OpenApi)
    requires DistinctProps(o)
    ensures Valid(o, Sample(o))
    decreases o
  {
    if o.ObjectOf? {
      forall i | 0 <= i < |o.props| ensures Valid(o.props[i].schema, Sample(o.props[i].schema)) {
        SampleIsValid(o.props[i].schema);
      }
      MatchingFieldsAreValid(o.props, Sample(o));
    }
  }

  lemma {:induction false} NullIsNeverValid(o: OpenApi)
    ensures !Valid(o, JNull)
  {
  }

  /** An object whose i-th property has a given value, and the others their samples. */
  function SampleWith(props: seq<Prop>, i: nat, v: Json): Json
    requires i < |props|
  {
    JObj(SampleFields(props)[i := Field(props[i].name, v)])
  }

  lemma SampleWithIsValid(props: seq<Prop>, i: nat, v: Json)
    requires DistinctProps(ObjectOf(props)) && i < |props| && Valid(props[i].schema, v)
    ensures Valid(ObjectOf(props), SampleWith(props, i, v)) && DistinctFields(SampleWith(props, i, v).fields)
  {
    forall k | 0 <= k < |props| ensures Valid(props[k].schema, Sample(props[k].schema)) {
      SampleIsValid(props[k].schema);
    }
    MatchingFieldsAreValid(props, SampleWith(props, i, v));
  }

  // ----- a schema against a type -------------------------------------------------------------------------

  /** Only strings, numbers and booleans pass. */
  predicate IsPrimitive(o: OpenApi) {
    o.AddressRef? || o.BytesString? || o.AnyString? || o.AnyBoolean? || o.AnyNumber?
  }

  /** Everything the schema lets through conforms to the type. */
  predicate Fits(o: OpenApi, t: Token, onlyFormatMaps: bool, s: Option<Schema>)
    decreases Size(t), 1
  {
    match t
    case Optional(_, a) => Fits(o, a, onlyFormatMaps, s)
    case Boolean(_) => o.AnyBoolean?
    case Scalar(_, _) => IsPrimitive(o)
    case Map(_, _, _) => IsPrimitive(o)
    case List(_, a) => IsPrimitive(o) || (o.ArrayOf? && Fits(o.items, a, true, None))
    case Set(_, a) => IsPrimitive(o) || (o.ArrayOf? && Fits(o.items, a, true, None))
    case Comb(_, OrKind, _) =>
      IsPrimitive(o)
      || (o.ObjectOf? && |o.props| == 1 && (onlyFormatMaps || s.Some?) && FitsField(o.props[0], t, onlyFormatMaps, s))
    case Comb(_, PairKind, _) =>
      IsPrimitive(o)
      || (if onlyFormatMaps then
            o.ObjectOf? && forall i :: 0 <= i < |o.props| ==> FitsField(o.props[i], t, true, None)
          else
            s.Some?
            && if Keys(s.value) == [] then o.AnyObject? || o.ObjectOf?
               else o.ObjectOf? && !HasProperty(o.props, "hasOwnProperty")
                    && forall k <- Keys(s.value) :: FitsKey(k, o.props, t, s.value))
  }

  predicate FitsField(pr: Prop, t: Token, onlyFormatMaps: bool, s: Option<Schema>)
    requires t.Comb?
    decreases Size(t), 0
  {
    var child := FindChild(t, pr.name);
    child.Some?
    && Fits(pr.schema, child.value, onlyFormatMaps, if onlyFormatMaps || s.None? then None else At(s.value, pr.name))
  }

  predicate FitsKey(k: string, props: seq<Prop>, t: Token, s: Schema)
    requires t.Comb?
    decreases Size(t), 0
  {
    exists i :: 0 <= i < |props| && props[i].name == k && FitsKeyAt(props[i].schema, k, t, s)
  }

  predicate FitsKeyAt(o: OpenApi, k: string, t: Token, s: Schema)
    requires t.Comb?
    decreases Size(t), 0, 0
  {
    var child := FindChild(t, k);
    if child.None? then IsPrimitive(o) else Fits(o, child.value, false, At(s, k))
  }

  // ----- what fits conforms ------------------------------------------------------------------------------

  lemma PrimitivesAreNoObjects(o: OpenApi, p: Json)
    requires Valid(o, p)
    ensures IsPrimitive(o) ==> !IsObjectType(p)
    ensures o.AnyBoolean? ==> p.JBool?
    ensures o.AnyObject? || o.ObjectOf? ==> p.JObj?
  {
  }

  lemma RequiredValue(props: seq<Prop>, p: Json, i: nat)
    requires Valid(ObjectOf(props), p) && i < |props|
    ensures HasField(p.fields, props[i].name)
    ensures Valid(props[i].schema, GetField(p.fields, props[i].name).value)
  {
    var v := GetField(p.fields, props[i].name).value;
    var k: nat :| k < |p.fields| && p.fields[k] == Field(props[i].name, v);
  }

  lemma GivenValue(props: seq<Prop>, p: Json, k: nat) returns (i: nat)
    requires Valid(ObjectOf(props), p) && k < |p.fields|
    ensures i < |props| && props[i].name == p.fields[k].name && Valid(props[i].schema, p.fields[k].value)
  {
    assert HasProperty(props, p.fields[k].name);
    i :| 0 <= i < |props| && props[i].name == p.fields[k].name;
  }

  lemma {:induction false} FittingConforms(o: OpenApi, p: Json, t: Token, onlyFormatMaps: bool, s: Option<Schema>)
    requires Fits(o, t, onlyFormatMaps, s) && Valid(o, p)
    ensures Conforms(p, t, onlyFormatMaps, s)
    decreases Size(t), 2
  {
    PrimitivesAreNoObjects(o, p);
    match t
    case Optional(_, a) => FittingConforms(o, p, a, onlyFormatMaps, s);
    case List(_, a) => if !IsPrimitive(o) { FittingElements(o, p, a); }
    case Set(_, a) => if !IsPrimitive(o) { FittingElements(o, p, a); }
    case Comb(_, kind, _) =>
      if !IsPrimitive(o) {
        if kind == OrKind {
          FittingVariant(o, p, t, onlyFormatMaps, s);
        } else if onlyFormatMaps {
          FittingFields(o.props, p, t);
        } else if Keys(s.value) != [] {
          FittingKeys(o.props, p, t, s.value);
        }
      }
    case _ =>
  }

  lemma {:induction false} FittingElements(o: OpenApi, p: Json, a: Token)
    requires o.ArrayOf? && Fits(o.items, a, true, None) && Valid(o, p)
    ensures p.JArr? && forall e <- p.elems :: Conforms(e, a, true, None)
    decreases Size(a), 3
  {
    forall e <- p.elems ensures Conforms(e, a, true, None) { FittingConforms(o.items, e, a, true, None); }
  }

  lemma {:induction false} FittingField(pr: Prop, f: Field, t: Token, onlyFormatMaps: bool, s: Option<Schema>)
    requires t.Comb? && FitsField(pr, t, onlyFormatMaps, s) && pr.name == f.name && Valid(pr.schema, f.value)
    ensures ConformsField(f, t, onlyFormatMaps, s)
    decreases Size(t), 0
  {
    FittingConforms(pr.schema, f.value, FindChild(t, f.name).value, onlyFormatMaps,
                    if onlyFormatMaps || s.None? then None else At(s.value, f.name));
  }

  lemma OnlyField(props: seq<Prop>, p: Json)
    requires Valid(ObjectOf(props), p) && |props| == 1
    ensures p.JObj? && |p.fields| == 1
  {
    RequiredValue(props, p, 0);
    if |p.fields| > 1 {
      var i := GivenValue(props, p, 0);
      var j := GivenValue(props, p, 1);
    }
  }

  lemma {:induction false} FittingVariant(o: OpenApi, p: Json, t: Token, onlyFormatMaps: bool, s: Option<Schema>)
    requires IsComb(t, OrKind) && o.ObjectOf? && |o.props| == 1 && Valid(o, p)
    requires FitsField(o.props[0], t, onlyFormatMaps, s)
    ensures p.JObj? && |p.fields| == 1 && ConformsField(p.fields[0], t, onlyFormatMaps, s)
    decreases Size(t), 1
  {
    hide FitsField, ConformsField, FindChild, Valid;
    RequiredValue(o.props, p, 0);
    OnlyField(o.props, p);
    var i := GivenValue(o.props, p, 0);
    FittingField(o.props[0], p.fields[0], t, onlyFormatMaps, s);
  }

  lemma {:induction false} FittingFields(props: seq<Prop>, p: Json, t: Token)
    requires t.Comb? && Valid(ObjectOf(props), p) && forall i :: 0 <= i < |props| ==> FitsField(props[i], t, true, None)
    ensures forall k :: 0 <= k < |p.fields| ==> ConformsField(p.fields[k], t, true, None)
    decreases Size(t), 1
  {
    forall k | 0 <= k < |p.fields| ensures ConformsField(p.fields[k], t, true, None) {
      var i := GivenValue(props, p, k);
      FittingField(props[i], p.fields[k], t, true, None);
    }
  }

  lemma {:induction false} FittingKeys(props: seq<Prop>, p: Json, t: Token, s: Schema)
    requires t.Comb? && Valid(ObjectOf(props), p) && !HasProperty(props, "hasOwnProperty")
    requires forall k <- Keys(s) :: FitsKey(k, props, t, s)
    ensures forall k <- Keys(s) :: ConformsKey(k, p, t, s)
    decreases Size(t), 1
  {
    forall k | 0 <= k < |p.fields| ensures p.fields[k].name != "hasOwnProperty" {
      var i := GivenValue(props, p, k);
    }
    forall k <- Keys(s) ensures ConformsKey(k, p, t, s) { FittingKey(k, props, p, t, s); }
  }

  lemma {:induction false} FittingKey(k: string, props: seq<Prop>, p: Json, t: Token, s: Schema)
    requires t.Comb? && Valid(ObjectOf(props), p) && !HasField(p.fields, "hasOwnProperty") && FitsKey(k, props, t, s)
    ensures ConformsKey(k, p, t, s)
    decreases Size(t), 0
  {
    var i :| 0 <= i < |props| && props[i].name == k && FitsKeyAt(props[i].schema, k, t, s);
    RequiredValue(props, p, i);
    var v := GetField(p.fields, k).value;
    PrimitivesAreNoObjects(props[i].schema, v);
    if FindChild(t, k).Some? { FittingConforms(props[i].schema, v, FindChild(t, k).value, false, At(s, k)); }
  }

  // ----- what does not fit lets something through that is refused -------------------------------------------

  /** No type accepts everything but null. */
  function Unfit(t: Token): (v: Json)
    ensures !v.JNull? && !Conforms(v, t, true, None)
    decreases Size(t)
  {
    match t
    case Optional(_, a) => Unfit(a)
    case Boolean(_) => JNum(0.0)
    case Comb(_, _, _) => JArr([])
    case _ => JObj([])
  }

  /** Something the schema lets through that is no map entry, whose key must come first. */
  lemma NotAnEntry(o: OpenApi) returns (p: Json)
    requires DistinctProps(o)
    ensures Valid(o, p) && !IsEntry(p)
  {
    p := Sample(o);
    SampleIsValid(o);
    if IsEntry(p) {
      var props := o.props;
      assert p.fields[0].name == props[0].name && p.fields[1].name == props[1].name;
      p := JObj([p.fields[1], p.fields[0]]);
      ReversedIsValid(props);
    }
  }

  lemma ReversedIsValid(props: seq<Prop>)
    requires DistinctProps(ObjectOf(props)) && |props| == 2
    ensures var fs := SampleFields(props); Valid(ObjectOf(props), JObj([fs[1], fs[0]]))
  {
    hide Sample;
    var fs := SampleFields(props);
    var p := JObj([fs[1], fs[0]]);
    SampleIsValid(props[0].schema);
    SampleIsValid(props[1].schema);
    assert p.fields[0].name == props[1].name && p.fields[1].name == props[0].name;
    forall i | 0 <= i < |props| ensures HasField(p.fields, props[i].name) {
      assert p.fields[1 - i].name == props[i].name;
    }
    forall k | 0 <= k < 2 ensures HasProperty(props, p.fields[k].name) { assert props[1 - k].name == p.fields[k].name; }
  }

  /** A name longer than all names of the type is not found. */
  lemma {:induction false} UnknownName(args: seq<Token>, kind: CombKind) returns (n: nat)
    ensures forall name: string :: |name| > n ==> FindIn(args, name, kind).None?
    decreases args
  {
    if args == [] {
      n := 0;
    } else {
      var rest := UnknownName(args[1..], kind);
      var inner := 0;
      if IsComb(args[0], kind) { inner := UnknownName(args[0].args, kind); }
      n := rest + inner + |Annot(args[0])|;
      forall name: string | |name| > n ensures FindIn(args, name, kind).None? {
        assert FindIn(args[1..], name, kind).None?;
        if IsComb(args[0], kind) { assert FindIn(args[0].args, name, kind).None?; }
      }
    }
  }

  lemma {:induction false} MisfitIsRefused(o: OpenApi, t: Token, onlyFormatMaps: bool, s: Option<Schema>)
    returns (p: Json)
    requires DistinctProps(o) && !Fits(o, t, onlyFormatMaps, s)
    ensures Valid(o, p) && !Conforms(p, t, onlyFormatMaps, s)
    decreases Size(t), 2
  {
    hide FitsField, FitsKey, FindChild, ConformsField, ConformsKey, Valid;
    SampleIsValid(o);
    p := Sample(o);
    match t
    case Optional(_, a) =>
      p := MisfitIsRefused(o, a, onlyFormatMaps, s);
      NullIsNeverValid(o);
    case List(_, a) => p := MisfitList(o, a);
    case Set(_, a) => p := MisfitList(o, a);
    case Map(_, _, _) => p := MisfitMap(o, t, onlyFormatMaps, s);
    case Comb(_, kind, _) =>
      if kind == OrKind {
        p := MisfitVariant(o, t, onlyFormatMaps, s);
      } else if onlyFormatMaps {
        p := MisfitRecord(o, t);
      } else if s.Some? {
        p := MisfitKeys(o, t, s.value);
      }
    case _ =>
  }

  lemma MisfitMap(o: OpenApi, t: Token, onlyFormatMaps: bool, s: Option<Schema>) returns (p: Json)
    requires t.Map? && DistinctProps(o) && !IsPrimitive(o)
    ensures Valid(o, p) && !Conforms(p, t, onlyFormatMaps, s)
  {
    SampleIsValid(o);
    p := Sample(o);
    if o.FlexibleArrayRef? {
      p := JArr([JBool(true)]);
      assert !ConformsEntry(p.elems[0], t, onlyFormatMaps, s);
    } else if o.ArrayOf? {
      var x := NotAnEntry(o.items);
      p := JArr([x]);
      assert !ConformsEntry(p.elems[0], t, onlyFormatMaps, s);
    }
  }

  lemma {:induction false} MisfitList(o: OpenApi, a: Token) returns (p: Json)
    requires DistinctProps(o) && !IsPrimitive(o) && !(o.ArrayOf? && Fits(o.items, a, true, None))
    ensures Valid(o, p) && IsObjectType(p) && !(p.JArr? && forall e <- p.elems :: Conforms(e, a, true, None))
    decreases Size(a), 3
  {
    SampleIsValid(o);
    p := Sample(o);
    if o.FlexibleArrayRef? {
      p := JArr([Unfit(a)]);
      assert p.elems[0] in p.elems;
    } else if o.ArrayOf? {
      var x := MisfitIsRefused(o.items, a, true, None);
      p := JArr([x]);
      assert p.elems[0] in p.elems;
    }
  }

  /** One property that does not fit its field is enough. */
  lemma {:induction false} MisfitField(
    props: seq<Prop>, i: nat, t: Token, onlyFormatMaps: bool, s: Option<Schema>) returns (p: Json)
    requires t.Comb? && DistinctProps(ObjectOf(props)) && i < |props| && !FitsField(props[i], t, onlyFormatMaps, s)
    ensures Valid(ObjectOf(props), p) && |p.fields| == |props| && !ConformsField(p.fields[i], t, onlyFormatMaps, s)
    decreases Size(t), 0
  {
    var child := FindChild(t, props[i].name);
    if child.None? {
      p := Sample(ObjectOf(props));
      SampleIsValid(ObjectOf(props));
    } else {
      var x := MisfitIsRefused(props[i].schema, child.value, onlyFormatMaps,
                               if onlyFormatMaps || s.None? then None else At(s.value, props[i].name));
      p := SampleWith(props, i, x);
      SampleWithIsValid(props, i, x);
    }
  }

  lemma {:induction false} MisfitVariant(o: OpenApi, t: Token, onlyFormatMaps: bool, s: Option<Schema>)
    returns (p: Json)
    requires IsComb(t, OrKind) && DistinctProps(o) && !Fits(o, t, onlyFormatMaps, s)
    ensures Valid(o, p) && !Conforms(p, t, onlyFormatMaps, s)
    decreases Size(t), 1
  {
    SampleIsValid(o);
    p := Sample(o);
    if o.ObjectOf? && |o.props| == 1 && (onlyFormatMaps || s.Some?) {
      p := MisfitField(o.props, 0, t, onlyFormatMaps, s);
    }
  }

  lemma {:induction false} MisfitRecord(o: OpenApi, t: Token) returns (p: Json)
    requires IsComb(t, PairKind) && DistinctProps(o) && !Fits(o, t, true, None)
    ensures Valid(o, p) && IsObjectType(p)
    ensures !(p.JObj? && forall i :: 0 <= i < |p.fields| ==> ConformsField(p.fields[i], t, true, None))
    decreases Size(t), 1
  {
    SampleIsValid(o);
    p := Sample(o);
    if o.AnyObject? {
      var n := UnknownName(t.args, t.kind);
      var name: string := seq(n + 1, _ => 'x');
      p := JObj([Field(name, JNull)]);
      assert !ConformsField(p.fields[0], t, true, None);
    } else if o.ObjectOf? {
      var i :| 0 <= i < |o.props| && !FitsField(o.props[i], t, true, None);
      p := MisfitField(o.props, i, t, true, None);
    }
  }

  lemma {:induction false} MisfitKeys(o: OpenApi, t: Token, s: Schema) returns (p: Json)
    requires IsComb(t, PairKind) && DistinctProps(o) && !Fits(o, t, false, Some(s))
    ensures Valid(o, p) && !Conforms(p, t, false, Some(s))
    decreases Size(t), 1
  {
    hide Valid, FitsKey, FitsKeyAt, FindChild;
    SampleIsValid(o);
    p := Sample(o);
    if Keys(s) != [] && o.AnyObject? {
      assert !ConformsKey(Keys(s)[0], p, t, s) && Keys(s)[0] in Keys(s);
    } else if Keys(s) != [] && o.ObjectOf? {
      if HasProperty(o.props, "hasOwnProperty") {
        var i :| 0 <= i < |o.props| && o.props[i].name == "hasOwnProperty";
        assert p.fields[i].name == "hasOwnProperty";
        assert !ConformsKey(Keys(s)[0], p, t, s) && Keys(s)[0] in Keys(s);
      } else {
        var k :| k in Keys(s) && !FitsKey(k, o.props, t, s);
        p := MisfitKey(k, o.props, t, s);
      }
    }
  }

  lemma {:induction false} MisfitKey(k: string, props: seq<Prop>, t: Token, s: Schema) returns (p: Json)
    requires t.Comb? && DistinctProps(ObjectOf(props)) && !FitsKey(k, props, t, s)
    ensures p.JObj? && Valid(ObjectOf(props), p) && !ConformsKey(k, p, t, s)
    decreases Size(t), 0
  {
    hide Valid, Fits, Conforms, FindChild;
    p := Sample(ObjectOf(props));
    SampleIsValid(ObjectOf(props));
    if i :| 0 <= i < |props| && props[i].name == k {
      var child, o := FindChild(t, k), props[i].schema;
      assert !FitsKeyAt(o, k, t, s);
      if child.None? {
        GetDistinct(p.fields, i);
      } else {
        var x := MisfitIsRefused(o, child.value, false, At(s, k));
        p := SampleWith(props, i, x);
        SampleWithIsValid(props, i, x);
        GetDistinct(p.fields, i);
      }
    } else {
      forall j | 0 <= j < |p.fields| ensures p.fields[j].name != k { assert p.fields[j].name == props[j].name; }
    }
  }

  /** For any generated schema and any type: the formatter accepts all bodies that the schema lets through
      if and only if the schema fits the type. */
  lemma FitsExactly(o: OpenApi, t: Token, onlyFormatMaps: bool, s: Option<Schema>)
    requires DistinctProps(o)
    ensures Fits(o, t, onlyFormatMaps, s) <==> forall p :: Valid(o, p) ==> Format(p, t, onlyFormatMaps, s).Ok?
  {
    hide Fits, Valid, Format, Conforms;
    if Fits(o, t, onlyFormatMaps, s) {
      forall p | Valid(o, p) ensures Format(p, t, onlyFormatMaps, s).Ok? {
        FittingConforms(o, p, t, onlyFormatMaps, s);
        AcceptsExactlyConforming(p, t, onlyFormatMaps, s);
      }
    } else {
      var p := MisfitIsRefused(o, t, onlyFormatMaps, s);
      AcceptsExactlyConforming(p, t, onlyFormatMaps, s);
    }
  }

  // ----- a type against its own schema ----------------------------------------------------------------------

  predicate HasName(ts: seq<Token>, name: string) {
    exists i :: 0 <= i < |ts| && Annot(ts[i]) == name
  }

  /** The types the generator serves: records, lists and options of the six scalar types, with no field
      called `map`, `list` or `hasOwnProperty`. Variants are served only with a single branch, which
      Michelson does not have. The formatter treats what is inside a list in its other mode: there
      `hasOwnProperty` is a name like others, and a field called `map`, which makes the contract one of
      `key` and `value`, does no harm if these are names the lookup finds, with types that fit. */
  predicate Serves(t: Token, idx: nat, inList: bool)
    decreases Size(t), 0
  {
    match t
    case Scalar(_, prim) => prim in {"address", "bool", "bytes", "int", "nat", "string"}
    case Boolean(_) => true
    case Optional(_, a) => Serves(a, idx, inList)
    case List(_, a) => Serves(a, 0, true)
    case Comb(_, PairKind, args) =>
      var fields := Frontier(args, PairKind);
      if inList && HasName(fields, "map") then MapFieldFits(t, idx)
      else
        !HasName(fields, "map") && !HasName(fields, "list") && (inList || !HasName(fields, "hasOwnProperty"))
        && ServesAll(fields, idx, inList)
    case Comb(_, OrKind, args) =>
      var branches := Frontier(args, OrKind);
      |branches| == 1 && !IsCollectionName(Annot(branches[0])) && ServesAll(branches, idx, inList)
    case _ => false
  }

  predicate ServesAll(ts: seq<Token>, idx: nat, inList: bool)
    decreases SizeAll(ts), 1
  {
    ts == [] || (Serves(ts[0], idx, inList) && ServesAll(ts[1..], idx + 1, inList))
  }

  predicate MapFieldFits(t: Token, idx: nat)
    requires t.Comb?
  {
    var m := At(SchemaOf(t, idx), "map");
    m.Some?
    && FitsField(Prop("key", Generate(Property(m.value, "key"))), t, true, None)
    && FitsField(Prop("value", Generate(Property(m.value, "value"))), t, true, None)
  }

  ghost function SchemaFor(t: Token, idx: nat, inList: bool): Option<Schema> {
    if inList then None else Some(SchemaOf(t, idx))
  }

  ghost predicate FitsItself(t: Token, idx: nat, inList: bool) {
    Fits(Contract(t, idx), t, inList, SchemaFor(t, idx, inList))
  }

  /** How field, schema key, child lookup and API property of a comb go together. */
  ghost predicate Described(t: Token, idx: nat, fields: seq<Token>, props: seq<Prop>, s: Schema)
    requires t.Comb?
  {
    |fields| == |props| == |Keys(s)| && DistinctNamesOf(props)
    && forall i :: 0 <= i < |fields| ==>
         && props[i] == Prop(Annot(fields[i]), Contract(fields[i], idx + i))
         && Keys(s)[i] == Annot(fields[i])
         && FindChild(t, Annot(fields[i])) == Some(fields[i])
         && At(s, Annot(fields[i])) == Some(SchemaOf(fields[i], idx + i))
  }

  predicate DistinctAnnots(ts: seq<Token>) {
    forall i, j :: 0 <= i < j < |ts| ==> Annot(ts[i]) != Annot(ts[j])
  }

  lemma FieldsAreNamed(t: Token)
    requires t.Comb? && WellNamed(t)
    ensures var fields := Frontier(t.args, t.kind);
            && (forall i :: 0 <= i < |fields| ==> IsNamed(fields[i]))
            && DistinctAnnots(fields)
  {
    var fields := Frontier(t.args, t.kind);
    forall i | 0 <= i < |fields| ensures IsNamed(fields[i]) { assert fields[i] in fields; }
    forall i: nat, j: nat | i < j < |fields| ensures Annot(fields[i]) != Annot(fields[j]) {
      assert NamesDiffer(fields, i, j);
    }
  }

  lemma KeysCount(t: Token, idx: nat)
    requires t.Comb?
    ensures |Keys(SchemaOf(t, idx))| == |Frontier(t.args, t.kind)|
  {
  }

  lemma Describe(t: Token, idx: nat)
    requires t.Comb? && WellNamed(t)
    requires !HasName(Frontier(t.args, t.kind), "map") && !HasName(Frontier(t.args, t.kind), "list")
    ensures Contract(t, idx).ObjectOf?
    ensures Described(t, idx, Frontier(t.args, t.kind), Contract(t, idx).props, SchemaOf(t, idx))
  {
    hide WellNamed, SchemaOf, Contract, FindChild, At;
    FieldsAreNamed(t);
    ContractOfComb(t, idx);
    KeysCount(t, idx);
    var fields, s := Frontier(t.args, t.kind), SchemaOf(t, idx);
    forall i: nat | i < |fields|
      ensures Keys(s)[i] == Annot(fields[i]) && FindChild(t, Annot(fields[i])) == Some(fields[i])
              && At(s, Annot(fields[i])) == Some(SchemaOf(fields[i], idx + i))
    {
      SchemaKey(t, idx, i);
    }
  }

  // The contract of a record or variant with a collection's name among its fields.

  lemma {:induction false} SchemaFieldNamed(ts: seq<Token>, idx: nat, name: string)
    requires forall i :: 0 <= i < |ts| ==> IsNamed(ts[i])
    ensures AtNode(SchemaFields(ts, idx), name).Some? <==> HasName(ts, name)
  {
    if ts != [] {
      assert IsNamed(ts[0]);
      SchemaFieldNamed(ts[1..], idx + 1, name);
      assert forall i :: 0 < i < |ts| ==> ts[i] == ts[1..][i - 1];
      assert forall i :: 0 <= i < |ts[1..]| ==> ts[1..][i] == ts[i + 1];
    }
  }

  lemma CollectionContract(t: Token, idx: nat)
    requires t.Comb? && WellNamed(t)
    ensures var fields, o, m := Frontier(t.args, t.kind), Contract(t, idx), At(SchemaOf(t, idx), "map");
            && (HasName(fields, "map") ==>
                  m.Some? && o == ObjectOf([Prop("key", Generate(Property(m.value, "key"))),
                                            Prop("value", Generate(Property(m.value, "value")))]))
            && (!HasName(fields, "map") && HasName(fields, "list") ==> o.ArrayOf?)
  {
    FieldsAreNamed(t);
    SchemaFieldNamed(Frontier(t.args, t.kind), idx, "map");
    SchemaFieldNamed(Frontier(t.args, t.kind), idx, "list");
  }

  lemma {:induction false} ServesAllAt(ts: seq<Token>, idx: nat, inList: bool)
    ensures ServesAll(ts, idx, inList) <==> forall i: nat :: i < |ts| ==> Serves(ts[i], idx + i, inList)
  {
    if ts != [] {
      ServesAllAt(ts[1..], idx + 1, inList);
      forall i: nat | 0 < i < |ts|
        ensures Serves(ts[i], idx + i, inList) <==> Serves(ts[1..][i - 1], idx + 1 + (i - 1), inList)
      {
      }
      if forall i: nat :: i < |ts| ==> Serves(ts[i], idx + i, inList) {
        assert Serves(ts[0], idx + 0, inList);
        forall i: nat | i < |ts[1..]| ensures Serves(ts[1..][i], idx + 1 + i, inList) {
          assert Serves(ts[i + 1], idx + (i + 1), inList);
        }
      }
    }
  }

  // ----- served types are the ones that fit -----------------------------------------------------------------

  /** The contract of a variant asks for all branches at once. */
  lemma VariantFitsOnlyAlone(t: Token, idx: nat, inList: bool)
    requires IsComb(t, OrKind) && WellNamed(t)
    ensures var branches := Frontier(t.args, OrKind);
            FitsItself(t, idx, inList) <==>
            |branches| == 1 && !IsCollectionName(Annot(branches[0])) && FitsItself(branches[0], idx, inList)
  {
    hide WellNamed;
    var branches := Frontier(t.args, OrKind);
    if HasName(branches, "map") || HasName(branches, "list") {
      CollectionContract(t, idx);
    } else {
      Describe(t, idx);
      var o, s := Contract(t, idx), SchemaFor(t, idx, inList);
      if |branches| == 1 {
        assert !IsCollectionName(Annot(branches[0]));
        assert FitsField(o.props[0], t, inList, s) <==> FitsItself(branches[0], idx + 0, inList);
      }
    }
  }

  /** With a field called `map`, the contract of a record asks for `key` and `value`, and for no field `map`. */
  lemma MapNameBreaksRecord(t: Token, idx: nat)
    requires IsComb(t, PairKind) && WellNamed(t) && HasName(Frontier(t.args, PairKind), "map")
    ensures !FitsItself(t, idx, false)
  {
    hide WellNamed, SchemaOf, Contract, Frontier, FindChild;
    var fields, o, s := Frontier(t.args, PairKind), Contract(t, idx), SchemaOf(t, idx);
    CollectionContract(t, idx);
    var i :| 0 <= i < |fields| && Annot(fields[i]) == "map";
    SchemaKeysOf(t, idx, i);
    assert |"key"| == |"map"| && "key"[0] != "map"[0] && |"value"| != |"map"|;
    assert !FitsKey("map", o.props, t, s);
  }

  lemma MapNameInList(t: Token, idx: nat)
    requires IsComb(t, PairKind) && WellNamed(t) && HasName(Frontier(t.args, PairKind), "map")
    ensures FitsItself(t, idx, true) <==> MapFieldFits(t, idx)
  {
    hide WellNamed, SchemaOf, Contract, Frontier, FitsField;
    CollectionContract(t, idx);
    var o := Contract(t, idx);
    assert |o.props| == 2;
    assert FitsItself(t, idx, true) <==> forall i :: 0 <= i < |o.props| ==> FitsField(o.props[i], t, true, None);
    assert (forall i :: 0 <= i < |o.props| ==> FitsField(o.props[i], t, true, None)) <==>
           FitsField(o.props[0], t, true, None) && FitsField(o.props[1], t, true, None);
  }

  lemma SchemaKeysOf(t: Token, idx: nat, i: nat)
    requires t.Comb? && WellNamed(t) && i < |Frontier(t.args, t.kind)|
    ensures SchemaOf(t, idx).Node? && Annot(Frontier(t.args, t.kind)[i]) in Keys(SchemaOf(t, idx))
  {
    hide WellNamed;
    SchemaKey(t, idx, i);
    assert Keys(SchemaOf(t, idx))[i] in Keys(SchemaOf(t, idx));
  }

  /** With a field called `list`, the contract of a record asks for an array, which a record does not take. */
  lemma ListNameBreaksRecord(t: Token, idx: nat, inList: bool)
    requires IsComb(t, PairKind) && WellNamed(t)
    requires var fields := Frontier(t.args, PairKind); HasName(fields, "list") && !HasName(fields, "map")
    ensures !FitsItself(t, idx, inList)
  {
    hide WellNamed, SchemaOf, Contract, Frontier;
    CollectionContract(t, idx);
    var fields := Frontier(t.args, PairKind);
    var i :| 0 <= i < |fields| && Annot(fields[i]) == "list";
    SchemaKeysOf(t, idx, i);
    assert Keys(SchemaOf(t, idx)) != [];
  }

  lemma RecordFitsByFields(t: Token, idx: nat, fields: seq<Token>, props: seq<Prop>, s: Schema)
    requires t.Comb? && Described(t, idx, fields, props, s)
    ensures (forall i :: 0 <= i < |props| ==> FitsField(props[i], t, true, None)) <==>
            forall i: nat :: i < |fields| ==> FitsItself(fields[i], idx + i, true)
    ensures (forall k <- Keys(s) :: FitsKey(k, props, t, s)) <==>
            forall i: nat :: i < |fields| ==> FitsItself(fields[i], idx + i, false)
  {
    hide Fits, Contract, SchemaOf;
    forall i: nat | i < |fields|
      ensures FitsField(props[i], t, true, None) <==> FitsItself(fields[i], idx + i, true)
      ensures FitsKey(Keys(s)[i], props, t, s) <==> FitsItself(fields[i], idx + i, false)
    {
      assert FitsKeyAt(props[i].schema, Keys(s)[i], t, s) <==> FitsItself(fields[i], idx + i, false);
      assert FitsKey(Keys(s)[i], props, t, s) <==> FitsKeyAt(props[i].schema, Keys(s)[i], t, s);
    }
    if forall k <- Keys(s) :: FitsKey(k, props, t, s) {
      forall i: nat | i < |fields| ensures FitsItself(fields[i], idx + i, false) {
        assert Keys(s)[i] in Keys(s);
      }
    }
    if forall i :: 0 <= i < |props| ==> FitsField(props[i], t, true, None) {
      forall i: nat | i < |fields| ensures FitsItself(fields[i], idx + i, true) {
        assert FitsField(props[i], t, true, None);
      }
    }
  }

  /** For every type with distinct names: it is served exactly when its own schema fits it. */
  lemma {:induction false} ServedIffFits(t: Token, idx: nat, inList: bool)
    requires WellNamed(t)
    ensures Serves(t, idx, inList) <==> FitsItself(t, idx, inList)
    decreases Size(t), 1
  {
    match t
    case Optional(_, a) => ServedIffFits(a, idx, inList);
    case List(_, a) =>
      ListContract(t, idx);
      ServedIffFits(a, 0, true);
    case Map(_, _, _) => MapContract(t, idx);
    case Comb(_, kind, args) =>
      if kind == OrKind {
        VariantFitsOnlyAlone(t, idx, inList);
        FieldsServedIffFit(Frontier(args, kind), idx, inList);
        ServesAllAt(Frontier(args, kind), idx, inList);
      } else {
        RecordServedIffFits(t, idx, inList);
      }
    case _ =>
  }

  lemma {:induction false} RecordServedIffFits(t: Token, idx: nat, inList: bool)
    requires IsComb(t, PairKind) && WellNamed(t)
    ensures Serves(t, idx, inList) <==> FitsItself(t, idx, inList)
    decreases Size(t), 0
  {
    hide Fits, Contract, SchemaOf, IsNamed;
    var fields, s := Frontier(t.args, PairKind), SchemaOf(t, idx);
    if HasName(fields, "map") || HasName(fields, "list") {
      if !HasName(fields, "map") {
        ListNameBreaksRecord(t, idx, inList);
      } else if inList {
        MapNameInList(t, idx);
      } else {
        MapNameBreaksRecord(t, idx);
      }
    } else {
      Describe(t, idx);
      ServesAllAt(fields, idx, inList);
      RecordFitsByFields(t, idx, fields, Contract(t, idx).props, s);
      FieldsServedIffFit(fields, idx, inList);
      RecordFits(t, idx, fields, Contract(t, idx).props, s, inList);
    }
  }

  lemma RecordFits(t: Token, idx: nat, fields: seq<Token>, props: seq<Prop>, s: Schema, inList: bool)
    requires IsComb(t, PairKind) && Described(t, idx, fields, props, s)
    ensures Fits(ObjectOf(props), t, inList, if inList then None else Some(s)) <==>
            if inList then forall i :: 0 <= i < |props| ==> FitsField(props[i], t, true, None)
            else !HasName(fields, "hasOwnProperty") && forall k <- Keys(s) :: FitsKey(k, props, t, s)
  {
    hide Contract, SchemaOf;
    assert HasProperty(props, "hasOwnProperty") <==> HasName(fields, "hasOwnProperty") by {
      forall i | 0 <= i < |fields| ensures props[i].name == Annot(fields[i]) {}
      if i :| 0 <= i < |fields| && Annot(fields[i]) == "hasOwnProperty" {
        assert props[i].name == "hasOwnProperty";
      }
    }
  }

  lemma {:induction false} FieldsServedIffFit(ts: seq<Token>, idx: nat, inList: bool)
    requires WellNamedAll(ts)
    ensures forall i: nat :: i < |ts| ==> (Serves(ts[i], idx + i, inList) <==> FitsItself(ts[i], idx + i, inList))
    decreases SizeAll(ts), 2
  {
    hide Serves, FitsItself, WellNamed;
    if ts != [] {
      ServedIffFits(ts[0], idx, inList);
      FieldsServedIffFit(ts[1..], idx + 1, inList);
      forall i: nat | 0 < i < |ts|
        ensures Serves(ts[i], idx + i, inList) <==> FitsItself(ts[i], idx + i, inList)
      {
        assert Serves(ts[1..][i - 1], idx + 1 + (i - 1), inList) <==>
               FitsItself(ts[1..][i - 1], idx + 1 + (i - 1), inList);
      }
    }
  }

  // ----- generated schemas list each property once ----------------------------------------------------------

  predicate DistinctSchema(s: Schema)
    decreases s
  {
    match s
    case Leaf(_) => true
    case Node(fs) =>
      (forall i, j :: 0 <= i < j < |fs| ==> fs[i].name != fs[j].name)
      && forall i :: 0 <= i < |fs| ==> DistinctSchema(fs[i].schema)
  }

  lemma {:induction false} AtNodeIsDistinct(fs: seq<SchemaField>, name: string)
    requires AtNode(fs, name).Some? && forall i :: 0 <= i < |fs| ==> DistinctSchema(fs[i].schema)
    ensures DistinctSchema(AtNode(fs, name).value)
  {
    if fs[0].name != name { AtNodeIsDistinct(fs[1..], name); }
  }

  lemma PropertyIsDistinct(s: Schema, name: string)
    requires DistinctSchema(s) && Property(s, name).Some?
    ensures DistinctSchema(Property(s, name).value)
  {
    AtNodeIsDistinct(s.fields, name);
  }

  lemma {:induction false} GeneratedIsDistinct(s: Option<Schema>)
    requires s.Some? ==> DistinctSchema(s.value)
    ensures DistinctProps(Generate(s))
    decreases if s.None? then 0 else SchemaSize(s.value), 1
  {
    if s.Some? && s.value.Node? {
      var fs := s.value.fields;
      if AtNode(fs, "map").Some? {
        var m := AtNode(fs, "map").value;
        PropertyFits(s.value, "map");
        PropertyFits(m, "key");
        PropertyFits(m, "value");
        PropertyIsDistinct(s.value, "map");
        if Property(m, "key").Some? { PropertyIsDistinct(m, "key"); }
        if Property(m, "value").Some? { PropertyIsDistinct(m, "value"); }
        GeneratedIsDistinct(Property(m, "key"));
        GeneratedIsDistinct(Property(m, "value"));
      } else if AtNode(fs, "list").Some? {
        PropertyFits(s.value, "list");
        PropertyIsDistinct(s.value, "list");
        GeneratedIsDistinct(AtNode(fs, "list"));
      } else {
        PropertiesAreDistinct(fs);
        forall i, j | 0 <= i < j < |fs| ensures Properties(fs)[i].name != Properties(fs)[j].name {
          PropertiesAt(fs, i);
          PropertiesAt(fs, j);
        }
      }
    }
  }

  lemma {:induction false} PropertiesAreDistinct(fs: seq<SchemaField>)
    requires forall i :: 0 <= i < |fs| ==> DistinctSchema(fs[i].schema)
    ensures forall i :: 0 <= i < |fs| ==> DistinctProps(Properties(fs)[i].schema)
    decreases SchemaSizeAll(fs), 2, |fs|
  {
    if fs != [] {
      GeneratedIsDistinct(Some(fs[0].schema));
      PropertiesAreDistinct(fs[1..]);
    }
  }

  lemma FieldNamesOfSchema(ts: seq<Token>, idx: nat)
    requires forall i :: 0 <= i < |ts| ==> IsNamed(ts[i])
    ensures forall i :: 0 <= i < |ts| ==> SchemaFields(ts, idx)[i].name == Annot(ts[i])
  {
    forall i: nat | i < |ts| ensures SchemaFields(ts, idx)[i].name == Annot(ts[i]) {
      assert IsNamed(ts[i]);
      SchemaFieldsAt(ts, idx, i);
    }
  }

  lemma {:induction false} SchemaIsDistinct(t: Token, idx: nat)
    requires WellNamed(t)
    ensures DistinctSchema(SchemaOf(t, idx))
    decreases Size(t), 0
  {
    match t
    case Optional(_, a) => SchemaIsDistinct(a, idx);
    case List(_, a) => SchemaIsDistinct(a, 0);
    case Map(_, k, v) =>
      SchemaIsDistinct(k, 0);
      SchemaIsDistinct(v, 0);
      assert |"key"| != |"value"|;
    case Comb(_, kind, args) =>
      var fields, fs := Frontier(args, kind), SchemaFields(Frontier(args, kind), idx);
      FieldsAreNamed(t);
      SchemasAreDistinct(fields, idx);
      FieldNamesOfSchema(fields, idx);
      forall i, j | 0 <= i < j < |fs| ensures fs[i].name != fs[j].name {
        assert Annot(fields[i]) != Annot(fields[j]);
        assert fs[i].name == Annot(fields[i]);
        assert fs[j].name == Annot(fields[j]);
      }
    case _ =>
  }

  lemma {:induction false} SchemasAreDistinct(ts: seq<Token>, idx: nat)
    requires WellNamedAll(ts)
    ensures forall i :: 0 <= i < |ts| ==> DistinctSchema(SchemaFields(ts, idx)[i].schema)
    decreases SizeAll(ts), 1
  {
    if ts != [] {
      SchemaIsDistinct(ts[0], idx);
      SchemasAreDistinct(ts[1..], idx + 1);
    }
  }

  // ----- the generator and the formatter ----------------------------------------------------------------------

  /** For every parameter type with distinct names: the formatter accepts all bodies that are valid under
      the generated schema if and only if the type is served. */
  lemma GeneratorIsSoundExactlyForServedTypes(t: Token)
    requires WellNamed(t)
    ensures Serves(t, 0, false) <==> forall p :: Valid(Contract(t, 0), p) ==> Arguments(p, t).Ok?
  {
    SchemaIsDistinct(t, 0);
    GeneratedIsDistinct(Some(SchemaOf(t, 0)));
    ServedIffFits(t, 0, false);
    FitsExactly(Contract(t, 0), t, false, Some(SchemaOf(t, 0)));
  }

  /** No record with a field called `map`, `list` or `hasOwnProperty` is sound: some valid body is refused. */
  lemma ReservedNamesBreakTheContract(t: Token, name: string)
    requires IsComb(t, PairKind) && WellNamed(t)
    requires name in {"map", "list", "hasOwnProperty"} && HasName(Frontier(t.args, PairKind), name)
    ensures exists p :: Valid(Contract(t, 0), p) && Arguments(p, t).Err?
  {
    GeneratorIsSoundExactlyForServedTypes(t);
  }
}
