/** The OpenAPI schemas of src/lib/generate-path-object/index.ts, against the formatter that
    consumes what they let through. */
module Generator {
  import opened Wrappers
  import opened Tokens
  import opened Formatter
  import opened Layout
  import opened Schemas
  import opened Acceptance

  // The schema objects the generator produces. An `ObjectOf` lists its properties, requires them
  // all and forbids others; the two `Ref`s are shared components of the API.
  datatype OpenApi =
    | AddressRef
    | FlexibleArrayRef
    | BytesString
    | AnyString
    | AnyBoolean
    | AnyNumber
    | AnyObject
    | ArrayOf(items: OpenApi)
    | ObjectOf(props: seq<Prop>)

  datatype Prop = Prop(name: string, schema: OpenApi)

  function Property(s: Schema, name: string): Option<Schema> {
    if s.Leaf? then None else AtNode(s.fields, name)
  }

  function SchemaSize(s: Schema): (n: nat)
    ensures n > 0
    decreases s
  {
    match s
    case Leaf(_) => 1
    case Node(fs) => 1 + SchemaSizeAll(fs)
  }

  function SchemaSizeAll(fs: seq<SchemaField>): nat
    decreases fs
  {
    if fs == [] then 0 else SchemaSize(fs[0].schema) + SchemaSizeAll(fs[1..])
  }

  lemma {:induction false} PropertyIsSmaller(fs: seq<SchemaField>, name: string)
    requires AtNode(fs, name).Some?
    ensures SchemaSize(AtNode(fs, name).value) <= SchemaSizeAll(fs)
  {
    if fs[0].name != name { PropertyIsSmaller(fs[1..], name); }
  }

  lemma PropertyFits(s: Schema, name: string)
    ensures Property(s, name).Some? ==> SchemaSize(Property(s, name).value) < SchemaSize(s)
  {
    if Property(s, name).Some? { PropertyIsSmaller(s.fields, name); }
  }

  /** generateSchemaObject; None is a property the JSON schema does not have. */
  function Generate(s: Option<Schema>): OpenApi
    decreases if s.None? then 0 else SchemaSize(s.value), 1
  {
    match s
    case None => AnyObject
    case Some(Leaf(prim)) =>
      if prim == "address" then AddressRef
      else if prim == "bytes" then BytesString
      else if prim == "bool" then AnyBoolean
      else if prim == "int" || prim == "nat" then AnyNumber
      else if prim == "list" then FlexibleArrayRef
      else if prim == "string" then AnyString
      else AnyObject
    case Some(Node(fs)) =>
      if AtNode(fs, "map").Some? then
        var m := AtNode(fs, "map").value;
        PropertyFits(s.value, "map");
        PropertyFits(m, "key");
        PropertyFits(m, "value");
        ObjectOf([Prop("key", Generate(Property(m, "key"))), Prop("value", Generate(Property(m, "value")))])
      else if AtNode(fs, "list").Some? then
        PropertyFits(s.value, "list");
        ArrayOf(Generate(AtNode(fs, "list")))
      else ObjectOf(Properties(fs))
  }

  function Properties(fs: seq<SchemaField>): (ps: seq<Prop>)
    ensures |ps| == |fs|
    decreases SchemaSizeAll(fs), 2, |fs|
  {
    if fs == [] then []
    else [Prop(fs[0].name, Generate(Some(fs[0].schema)))] + Properties(fs[1..])
  }

  // ----- validation, as the Schema Object of OpenAPI 3.0 (section 4.7.24) has it -------------------

  predicate IsAlphanumeric(c: char) {
    '0' <= c <= '9' || 'a' <= c <= 'z' || 'A' <= c <= 'Z'
  }

  // ^tz+[0-9a-zA-Z]{34}$
  predicate IsAddress(s: string) {
    && |s| >= 36 && s[0] == 't'
    && (forall i :: 1 <= i < |s| - 34 ==> s[i] == 'z')
    && (forall i :: |s| - 34 <= i < |s| ==> IsAlphanumeric(s[i]))
  }

  predicate HasProperty(props: seq<Prop>, name: string) {
    exists i :: 0 <= i < |props| && props[i].name == name
  }

  predicate Valid(o: OpenApi, p: Json)
    decreases o
  {
    match o
    case AddressRef => p.JStr? && IsAddress(p.s)
    case FlexibleArrayRef => p.JArr? && forall e <- p.elems :: !e.JNull?
    case BytesString => p.JStr? && |p.s| == 1 && IsAlphanumeric(p.s[0])  // ^[0-9a-zA-Z]$
    case AnyString => p.JStr?
    case AnyBoolean => p.JBool?
    case AnyNumber => p.JNum?
    case AnyObject => p.JObj?
    case ArrayOf(items) => p.JArr? && forall e <- p.elems :: Valid(items, e)
    case ObjectOf(props) =>
      && p.JObj? && DistinctFields(p.fields)
      && (forall i :: 0 <= i < |props| ==> HasField(p.fields, props[i].name))
      && (forall k :: 0 <= k < |p.fields| ==> HasProperty(props, p.fields[k].name))
      && (forall i, k :: 0 <= i < |props| && 0 <= k < |p.fields| && props[i].name == p.fields[k].name ==>
            Valid(props[i].schema, p.fields[k].value))
  }

  /** What the API demands of the parameters of an entry point. */
  function Contract(t: Token, idx: nat): OpenApi {
    Generate(Some(SchemaOf(t, idx)))
  }

  // ----- contracts of types -------------------------------------------------------------------------

  lemma {:induction false} NoSuchProperty(fs: seq<SchemaField>, name: string)
    requires forall i :: 0 <= i < |fs| ==> fs[i].name != name
    ensures AtNode(fs, name).None?
  {
    if fs != [] { NoSuchProperty(fs[1..], name); }
  }

  lemma {:induction false} PropertiesAt(fs: seq<SchemaField>, i: nat)
    requires i < |fs|
    ensures Properties(fs)[i] == Prop(fs[i].name, Generate(Some(fs[i].schema)))
  {
    if i > 0 { PropertiesAt(fs[1..], i - 1); }
  }

  lemma ListContract(t: Token, idx: nat)
    requires t.List?
    ensures Contract(t, idx) == ArrayOf(Contract(t.arg, 0))
  {
    var fs := [SchemaField("list", SchemaOf(t.arg, 0))];
    assert fs[1..] == [] && |"list"| != |"map"|;
    assert AtNode(fs, "map").None? && AtNode(fs, "list") == Some(SchemaOf(t.arg, 0));
  }

  lemma MapContract(t: Token, idx: nat)
    requires t.Map?
    ensures Contract(t, idx) == ObjectOf([Prop("key", Contract(t.key, 0)), Prop("value", Contract(t.val, 0))])
  {
    var k, v := SchemaField("key", SchemaOf(t.key, 0)), SchemaField("value", SchemaOf(t.val, 0));
    assert [k, v][1..] == [v] && |"key"| != |"value"|;
    assert AtNode([k, v], "key") == Some(k.schema);
    assert AtNode([v], "value") == Some(v.schema);
    assert AtNode([k, v], "value") == Some(v.schema);
  }

  /** A field of one of these names changes what the schema of its record is taken for. */
  predicate IsCollectionName(name: string) {
    name == "map" || name == "list"
  }

  /** The contract of a record or variant without such a field: one required property per field. */
  lemma {:induction false} ContractOfComb(t: Token, idx: nat)
    requires t.Comb?
    requires forall i :: 0 <= i < |Frontier(t.args, t.kind)| ==> !IsCollectionName(Annot(Frontier(t.args, t.kind)[i]))
    requires forall i :: 0 <= i < |Frontier(t.args, t.kind)| ==> IsNamed(Frontier(t.args, t.kind)[i])
    ensures var fields, o := Frontier(t.args, t.kind), Contract(t, idx);
            o.ObjectOf? && |o.props| == |fields|
            && forall i :: 0 <= i < |fields| ==> o.props[i] == Prop(Annot(fields[i]), Contract(fields[i], idx + i))
  {
    var fields := Frontier(t.args, t.kind);
    var fs := SchemaFields(fields, idx);
    forall i | 0 <= i < |fields| ensures fs[i] == SchemaField(Annot(fields[i]), SchemaOf(fields[i], idx + i)) {
      assert IsNamed(fields[i]);
      SchemaFieldsAt(fields, idx, i);
    }
    NoSuchProperty(fs, "map");
    NoSuchProperty(fs, "list");
    forall i | 0 <= i < |fields|
      ensures Properties(fs)[i] == Prop(Annot(fields[i]), Contract(fields[i], idx + i))
    {
      PropertiesAt(fs, i);
    }
  }

  // ----- the call itself ------------------------------------------------------------------------------

  /** getContractMethod: what the contract method is applied to. Falsy parameters other than `false`
      never reach the formatter. */
  function CallArguments(params: Option<Json>, t: Token): Formatted {
    match params
    case None => Ok([ANum(0.0)])
    case Some(JNull) => Ok([])
    case Some(p) => if p == JNum(0.0) || p == JStr("") then Ok([ANum(0.0)]) else Arguments(p, t)
  }

  lemma {:induction false} FalsyScalars(t: Token, idx: nat)
    ensures Format(JStr(""), t, false, Some(SchemaOf(t, idx))) != Ok([ANum(0.0)])
    ensures Valid(Contract(t, idx), JNum(0.0)) ==>
              Format(JNum(0.0), t, false, Some(SchemaOf(t, idx))) == Ok([ANum(0.0)])
    ensures !Valid(Contract(t, idx), JNull)
    decreases Size(t)
  {
    if t.Optional? { FalsyScalars(t.arg, idx); }
  }

  /** Parameters that are missing, zero or empty become one 0, and null none at all; all others, `false` among
      them, are formatted. */
  lemma FalsyParametersAreReplaced(params: Option<Json>, t: Token)
    ensures params in {None, Some(JNum(0.0)), Some(JStr(""))} ==> CallArguments(params, t) == Ok([ANum(0.0)])
    ensures params == Some(JNull) ==> CallArguments(params, t) == Ok([])
    ensures params !in {None, Some(JNum(0.0)), Some(JStr("")), Some(JNull)} ==>
              CallArguments(params, t) == Arguments(params.value, t)
  {
  }

  /** Of all bodies the API lets through, exactly the empty string is not passed on as formatted:
      the contract is called with 0 in its place. */
  lemma OnlyTheEmptyStringIsReplaced(p: Json, t: Token)
    requires Valid(Contract(t, 0), p)
    ensures CallArguments(Some(p), t) == Arguments(p, t) <==> p != JStr("")
  {
    FalsyScalars(t, 0);
  }
}
