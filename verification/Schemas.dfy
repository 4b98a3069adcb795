/** The JSON schema of a parameter type, and the types whose field names mean what they say. */
module Schemas {
  import opened Wrappers
  import opened Tokens
  import opened Formatter
  import opened Layout
  import Decimal

  /** ExtractSchema of a token created with index `idx`: unnamed combs are dissolved, and a child
      without annotation is called by its index. */
  function SchemaOf(t: Token, idx: nat): Schema
    decreases Size(t), 0
  {
    match t
    case Scalar(_, prim) => Leaf(prim)
    case Boolean(_) => Leaf("bool")
    case Optional(_, a) => SchemaOf(a, idx)
    case List(_, a) => Node([SchemaField("list", SchemaOf(a, 0))])
    case Set(_, _) => Leaf("set")
    case Map(_, k, v) =>
      Node([SchemaField("map", Node([SchemaField("key", SchemaOf(k, 0)), SchemaField("value", SchemaOf(v, 0))]))])
    case Comb(_, kind, args) => Node(SchemaFields(Frontier(args, kind), idx))
  }

  function SchemaFields(ts: seq<Token>, idx: nat): (fs: seq<SchemaField>)
    ensures |fs| == |ts|
    decreases SizeAll(ts), 1
  {
    if ts == [] then []
    else
      var name := if ts[0].name.Some? then ts[0].name.value else Decimal.Print(idx);
      [SchemaField(name, SchemaOf(ts[0], idx))] + SchemaFields(ts[1..], idx + 1)
  }

  lemma {:induction false} SchemaFieldsAt(ts: seq<Token>, idx: nat, i: nat)
    requires i < |ts|
    ensures SchemaFields(ts, idx)[i].schema == SchemaOf(ts[i], idx + i)
    ensures ts[i].name.Some? ==> SchemaFields(ts, idx)[i].name == ts[i].name.value
  {
    hide SchemaOf;
    if i > 0 {
      SchemaFieldsAt(ts[1..], idx + 1, i - 1);
      assert idx + 1 + (i - 1) == idx + i;
      assert SchemaFields(ts, idx)[i] == SchemaFields(ts[1..], idx + 1)[i - 1];
    }
  }

  lemma {:induction false} SchemasIgnoreLayout(ts: seq<Token>, us: seq<Token>, idx: nat)
    requires SameTypes(ts, us)
    ensures SchemaFields(ts, idx) == SchemaFields(us, idx)
    decreases SizeAll(ts), 1
  {
    if ts != [] {
      SchemaIgnoresLayout(ts[0], us[0], idx);
      SchemasIgnoreLayout(ts[1..], us[1..], idx + 1);
    }
  }

  lemma {:induction false} SchemaIgnoresLayout(t: Token, u: Token, idx: nat)
    requires SameType(t, u)
    ensures SchemaOf(t, idx) == SchemaOf(u, idx)
    decreases Size(t), 0
  {
    match t
    case Optional(_, a) => SchemaIgnoresLayout(a, u.arg, idx);
    case List(_, a) => SchemaIgnoresLayout(a, u.arg, 0);
    case Map(_, k, v) => SchemaIgnoresLayout(k, u.key, 0); SchemaIgnoresLayout(v, u.val, 0);
    case Comb(_, kind, args) => SchemasIgnoreLayout(Frontier(args, kind), Frontier(u.args, kind), idx);
    case _ =>
  }

  /** What an entry point call passes on: the formatter in schema mode under the type's own schema. */
  function Arguments(p: Json, t: Token): Formatted {
    Format(p, t, false, Some(SchemaOf(t, 0)))
  }

  /** Layout independence of a whole entry point call. */
  lemma ArgumentsIgnoreLayout(p: Json, t: Token, u: Token)
    requires SameType(t, u) && NoUnnamedKey(p)
    ensures Arguments(p, t) == Arguments(p, u)
  {
    SchemaIgnoresLayout(t, u, 0);
    FormatIgnoresLayout(p, t, u, false, Some(SchemaOf(t, 0)));
  }

  // ----- names --------------------------------------------------------------------------------------

  predicate IsNamed(f: Token) {
    f.name.Some? && f.name.value != "0"
  }

  predicate NoNamesake(f: Token, n: Token) {
    n.name == f.name ==> n == f
  }

  predicate NamesDiffer(fields: seq<Token>, i: nat, j: nat) {
    i < j < |fields| ==> fields[i].name != fields[j].name
  }

  /** Every field or variant is annotated, not "0", and shares its annotation neither with another
      field nor with a different token nested in the comb. */
  predicate DistinctNames(t: Token)
    requires t.Comb?
  {
    var fields := Frontier(t.args, t.kind);
    && (forall f {:trigger IsNamed(f)} :: f in fields ==> IsNamed(f))
    && (forall i: nat, j: nat {:trigger NamesDiffer(fields, i, j)} ::
          i < |fields| && j < |fields| ==> NamesDiffer(fields, i, j))
    && (forall f, n {:trigger NoNamesake(f, n)} :: f in fields && n in Preorder(t.args, t.kind) ==> NoNamesake(f, n))
  }

  predicate WellNamed(t: Token)
    decreases Size(t), 0
  {
    match t
    case Optional(_, a) => WellNamed(a)
    case List(_, a) => WellNamed(a)
    case Set(_, a) => WellNamed(a)
    case Map(_, k, v) => WellNamed(k) && WellNamed(v)
    case Comb(_, kind, args) => DistinctNames(t) && WellNamedAll(Frontier(args, kind))
    case _ => true
  }

  predicate WellNamedAll(ts: seq<Token>)
    decreases SizeAll(ts), 1
  {
    ts == [] || (WellNamed(ts[0]) && WellNamedAll(ts[1..]))
  }

  lemma {:induction false} WellNamedAt(ts: seq<Token>, i: nat)
    requires WellNamedAll(ts) && i < |ts|
    ensures WellNamed(ts[i])
  {
    if i > 0 { WellNamedAt(ts[1..], i - 1); }
  }

  lemma {:induction false} SizeAt(ts: seq<Token>, i: nat)
    requires i < |ts|
    ensures Size(ts[i]) <= SizeAll(ts)
  {
    if i > 0 { SizeAt(ts[1..], i - 1); }
  }

  lemma {:induction false} FieldsAreReached(args: seq<Token>, kind: CombKind, t: Token)
    requires t in Frontier(args, kind)
    ensures t in Preorder(args, kind)
    decreases args
  {
    if IsComb(args[0], kind) && args[0].name.None? && t in Frontier(args[0].args, kind) {
      FieldsAreReached(args[0].args, kind, t);
    } else if t in Frontier(args[1..], kind) {
      FieldsAreReached(args[1..], kind, t);
    }
  }

  /** With distinct names a field is found under its name, and is not shadowed by a namesake nested
      in an earlier field. */
  lemma {:induction false} FieldIsFound(t: Token, f: Token)
    requires t.Comb? && DistinctNames(t) && f in Frontier(t.args, t.kind)
    ensures f.name.Some? && FindChild(t, f.name.value) == Some(f)
  {
    assert IsNamed(f);
    FieldsAreReached(t.args, t.kind, f);
    FindsFirstInPreorder(t.args, f.name.value, t.kind);
    NamesakeIsField(f, Preorder(t.args, t.kind), FindChild(t, f.name.value));
    var r := FindChild(t, f.name.value);
    assert NoNamesake(f, r.value);
  }

  /** A token of a comb is found under its name if and only if no other one that carries the name comes
      before it in pre-order. */
  lemma FoundIffNoNamesakeBefore(t: Token, k: nat)
    requires t.Comb? && k < |Preorder(t.args, t.kind)|
    requires Preorder(t.args, t.kind)[k] !in Preorder(t.args, t.kind)[..k]
    ensures var all := Preorder(t.args, t.kind);
            FindChild(t, Annot(all[k])) == Some(all[k]) <==> forall j :: 0 <= j < k ==> Annot(all[j]) != Annot(all[k])
  {
    var all := Preorder(t.args, t.kind);
    FindsFirstInPreorder(t.args, Annot(all[k]), t.kind);
    forall j | 0 <= j < k ensures all[j] != all[k] { assert all[j] in all[..k]; }
  }

  lemma NamesakeIsField(f: Token, all: seq<Token>, r: Option<Token>)
    requires IsNamed(f) && f in all && IsFirstNamed(all, f.name.value, r)
    ensures r.Some? && r.value in all && r.value.name == f.name
  {
    var k :| 0 <= k < |all| && all[k] == f;
    assert Annot(all[k]) == f.name.value;
  }

  /** Without that condition the nested namesake wins: the outer field "owner" is unreachable. */
  lemma NestedNamesakeShadows()
    ensures var inner := Scalar(Some("owner"), "nat");
            var outer := Scalar(Some("owner"), "address");
            var request := Comb(Some("request"), PairKind, [inner, Boolean(Some("flag"))]);
            var t := Comb(None, PairKind, [request, outer]);
            Frontier(t.args, PairKind) == [request, outer] && FindChild(t, "owner") == Some(inner)
  {
    var inner := Scalar(Some("owner"), "nat");
    var outer := Scalar(Some("owner"), "address");
    var request := Comb(Some("request"), PairKind, [inner, Boolean(Some("flag"))]);
    var args := [request, outer];
    assert args[1..] == [outer] && [outer][1..] == [];
    assert Frontier([outer], PairKind) == [outer];
    assert "request"[0] != "owner"[0];
    assert FindIn(request.args, "owner", PairKind) == Some(inner);
  }

  lemma {:induction false} AtLeafIs(w: string, k: string, i: nat, x: Schema)
    requires i <= |w|
    ensures AtLeaf(w, k, i) == Some(x) <==> exists j :: i <= j < |w| && Decimal.Print(j) == k && x == Leaf([w[j]])
    decreases |w| - i
  {
    if i < |w| {
      AtLeafIs(w, k, i + 1, x);
      forall j: nat, l: nat | Decimal.Print(j) == Decimal.Print(l) ensures j == l {
        Decimal.ValueOfPrint(j);
        Decimal.ValueOfPrint(l);
      }
    }
  }

  lemma {:induction false} AtNodeIs(fs: seq<SchemaField>, k: string, x: Schema)
    ensures AtNode(fs, k) == Some(x) <==>
            exists i :: 0 <= i < |fs| && fs[i] == SchemaField(k, x) && forall j :: 0 <= j < i ==> fs[j].name != k
  {
    if fs != [] {
      AtNodeIs(fs[1..], k, x);
      if i :| 0 <= i < |fs[1..]| && fs[1..][i] == SchemaField(k, x) && forall j :: 0 <= j < i ==> fs[1..][j].name != k {
        assert fs[i + 1] == fs[1..][i];
        assert forall j :: 0 < j < i + 1 ==> fs[j] == fs[1..][j - 1];
      }
      if i :| 0 <= i < |fs| && fs[i] == SchemaField(k, x) && forall j :: 0 <= j < i ==> fs[j].name != k {
        assert i > 0 ==> fs[1..][i - 1] == fs[i];
        assert forall j :: 0 <= j < i - 1 ==> fs[1..][j] == fs[j + 1];
      }
    }
  }

  /** The keys of a schema: of an object its names in order, of a type's name the indices of its characters. */
  lemma KeysOfSchema(s: Schema)
    ensures s.Leaf? ==> |Keys(s)| == |s.prim| && forall i :: 0 <= i < |s.prim| ==> Keys(s)[i] == Decimal.Print(i)
    ensures s.Node? ==> |Keys(s)| == |s.fields| && forall i :: 0 <= i < |s.fields| ==> Keys(s)[i] == s.fields[i].name
  {
  }

  /** Reading a property of a schema: of an object, the first field of that name; of a type's name, which is a
      string, the character at an index. */
  lemma PropertyOfSchema(s: Schema, k: string, x: Schema)
    ensures At(s, k) == Some(x) <==>
            match s
            case Leaf(w) => exists j :: 0 <= j < |w| && Decimal.Print(j) == k && x == Leaf([w[j]])
            case Node(fs) =>
              exists i :: 0 <= i < |fs| && fs[i] == SchemaField(k, x) && forall j :: 0 <= j < i ==> fs[j].name != k
  {
    match s
    case Leaf(w) => AtLeafIs(w, k, 0, x);
    case Node(fs) => AtNodeIs(fs, k, x);
  }

  lemma {:induction false} AtNodeFirst(fs: seq<SchemaField>, i: nat)
    requires i < |fs| && forall j :: 0 <= j < i ==> fs[j].name != fs[i].name
    ensures AtNode(fs, fs[i].name) == Some(fs[i].schema)
  {
    if i > 0 { AtNodeFirst(fs[1..], i - 1); }
  }

  /** In a well-named comb the i-th schema key names the i-th field, finds it, and holds its schema. */
  lemma {:induction false} SchemaKey(t: Token, idx: nat, i: nat)
    requires t.Comb? && WellNamed(t) && i < |Frontier(t.args, t.kind)|
    ensures var f, s := Frontier(t.args, t.kind)[i], SchemaOf(t, idx);
            Keys(s)[i] == Annot(f) && FindChild(t, Annot(f)) == Some(f) && Size(f) < Size(t) && WellNamed(f)
            && At(s, Annot(f)) == Some(SchemaOf(f, idx + i))
  {
    var fields := Frontier(t.args, t.kind);
    var sfs := SchemaFields(fields, idx);
    assert fields[i] in fields;
    FieldIsFound(t, fields[i]);
    WellNamedAt(fields, i);
    SizeAt(fields, i);
    SchemaFieldsAt(fields, idx, i);
    forall j | 0 <= j < i ensures sfs[j].name != sfs[i].name {
      assert IsNamed(fields[i]) && IsNamed(fields[j]) && NamesDiffer(fields, j, i);
      SchemaFieldsAt(fields, idx, j);
    }
    AtNodeFirst(sfs, i);
  }
}
