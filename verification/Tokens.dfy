/** Parameter types as the Taquito library presents them, JSON parameter values, and the
    annotation lookup of src/lib/smart-contracts/index.ts. */
module Tokens {
  import opened Wrappers

  // A request body. A JavaScript object is its list of own fields in enumeration order.
  datatype Json =
    | JNull
    | JBool(b: bool)
    | JNum(n: real)
    | JStr(s: string)
    | JArr(elems: seq<Json>)
    | JObj(fields: seq<Field>)

  datatype Field = Field(name: string, value: Json)

  datatype CombKind = PairKind | OrKind

  // A Michelson type. A comb is a `pair` or an `or`, binary or n-ary; `prim` names a type the
  // formatter has no branch for.
  datatype Token =
    | Scalar(name: Option<string>, prim: string)
    | Boolean(name: Option<string>)
    | Optional(name: Option<string>, arg: Token)
    | List(name: Option<string>, arg: Token)
    | Set(name: Option<string>, arg: Token)
    | Map(name: Option<string>, key: Token, val: Token)
    | Comb(name: Option<string>, kind: CombKind, args: seq<Token>)

  // The name an unannotated token answers to: its index, and children are created with index 0.
  const UNNAMED := "0"

  function Annot(t: Token): string {
    if t.name.Some? then t.name.value else UNNAMED
  }

  predicate IsComb(t: Token, kind: CombKind) {
    t.Comb? && t.kind == kind
  }

  predicate HasField(fields: seq<Field>, name: string) {
    exists i :: 0 <= i < |fields| && fields[i].name == name
  }

  function GetField(fields: seq<Field>, name: string): (r: Option<Json>)
    ensures r.Some? <==> HasField(fields, name)
    ensures r.Some? ==> Field(name, r.value) in fields
  {
    if fields == [] then None
    else if fields[0].name == name then
      assert fields[0] == Field(name, fields[0].value);
      Some(fields[0].value)
    else
      var r := GetField(fields[1..], name);
      assert forall i :: 0 < i < |fields| ==> fields[i] == fields[1..][i - 1];
      r
  }

  predicate DistinctFields(fields: seq<Field>) {
    forall i, j :: 0 <= i < j < |fields| ==> fields[i].name != fields[j].name
  }

  lemma {:induction false} GetDistinct(fields: seq<Field>, i: nat)
    requires DistinctFields(fields) && i < |fields|
    ensures GetField(fields, fields[i].name) == Some(fields[i].value)
  {
    var f := Field(fields[i].name, GetField(fields, fields[i].name).value);
    var j :| 0 <= j < |fields| && fields[j] == f;
  }

  function Size(t: Token): (n: nat)
    ensures n > 0
    decreases t
  {
    match t
    case Scalar(_, _) => 1
    case Boolean(_) => 1
    case Optional(_, a) => 1 + Size(a)
    case List(_, a) => 1 + Size(a)
    case Set(_, a) => 1 + Size(a)
    case Map(_, k, v) => 1 + Size(k) + Size(v)
    case Comb(_, _, args) => 1 + SizeAll(args)
  }

  function SizeAll(ts: seq<Token>): nat
    decreases ts
  {
    if ts == [] then 0 else Size(ts[0]) + SizeAll(ts[1..])
  }

  lemma {:induction false} SizeAllAppend(a: seq<Token>, b: seq<Token>)
    ensures SizeAll(a + b) == SizeAll(a) + SizeAll(b)
  {
    if a == [] {
      assert a + b == b;
    } else {
      assert (a + b)[1..] == a[1..] + b;
      SizeAllAppend(a[1..], b);
    }
  }

  // ----- the lookup ---------------------------------------------------------------------------

  /** Depth-first search for the first child called `name`, descending through combs of `kind`. */
  function FindIn(args: seq<Token>, name: string, kind: CombKind): (r: Option<Token>)
    ensures r.Some? ==> Annot(r.value) == name && Size(r.value) <= SizeAll(args)
    decreases args
  {
    if args == [] then None
    else if Annot(args[0]) == name then Some(args[0])
    else if IsComb(args[0], kind) && FindIn(args[0].args, name, kind).Some? then
      FindIn(args[0].args, name, kind)
    else FindIn(args[1..], name, kind)
  }

  function FindChild(t: Token, name: string): (r: Option<Token>)
    requires t.Comb?
    ensures r.Some? ==> Annot(r.value) == name && Size(r.value) < Size(t)
  {
    FindIn(t.args, name, t.kind)
  }

  /** The search as the source runs it: a loop over the children with recursion inside. */
  method FindChildTokenByAnnotation(t: Token, name: string) returns (r: Option<Token>)
    requires t.Comb?
    ensures r == FindChild(t, name)
    decreases t
  {
    for i := 0 to |t.args|
      invariant FindChild(t, name) == FindIn(t.args[i..], name, t.kind)
    {
      var child := t.args[i];
      assert t.args[i..][1..] == t.args[i + 1..];
      if Annot(child) == name {
        return Some(child);
      } else if IsComb(child, t.kind) {
        var res := FindChildTokenByAnnotation(child, name);
        if res.Some? { return res; }
      }
    }
    return None;
  }

  /** Every token the search can reach, in the order a reader meets them in the type. */
  function Preorder(args: seq<Token>, kind: CombKind): seq<Token>
    decreases args
  {
    if args == [] then []
    else
      [args[0]]
      + (if IsComb(args[0], kind) then Preorder(args[0].args, kind) else [])
      + Preorder(args[1..], kind)
  }

  ghost predicate IsFirstNamed(ts: seq<Token>, name: string, r: Option<Token>) {
    match r
    case None => forall i :: 0 <= i < |ts| ==> Annot(ts[i]) != name
    case Some(t) =>
      exists i :: 0 <= i < |ts| && ts[i] == t && Annot(t) == name
                  && forall j :: 0 <= j < i ==> Annot(ts[j]) != name
  }

  lemma {:induction false} FirstNamedAppend(
    a: seq<Token>, b: seq<Token>, name: string, ra: Option<Token>, rb: Option<Token>)
    requires IsFirstNamed(a, name, ra) && IsFirstNamed(b, name, rb)
    ensures IsFirstNamed(a + b, name, if ra.Some? then ra else rb)
  {
    if ra.Some? {
      var i :| 0 <= i < |a| && a[i] == ra.value && Annot(ra.value) == name
               && forall j :: 0 <= j < i ==> Annot(a[j]) != name;
      assert (a + b)[i] == ra.value;
    } else if rb.Some? {
      var i :| 0 <= i < |b| && b[i] == rb.value && Annot(rb.value) == name
               && forall j :: 0 <= j < i ==> Annot(b[j]) != name;
      assert (a + b)[|a| + i] == rb.value;
    }
  }

  /** The search returns the first pre-order match, and nothing exactly when there is none. */
  lemma {:induction false} FindsFirstInPreorder(args: seq<Token>, name: string, kind: CombKind)
    ensures IsFirstNamed(Preorder(args, kind), name, FindIn(args, name, kind))
    decreases args
  {
    if args != [] {
      var t := args[0];
      var head := if Annot(t) == name then Some(t) else None;
      assert IsFirstNamed([t], name, head) by {
        if head.Some? { assert [t][0] == t; }
      }
      var inner := if IsComb(t, kind) then Preorder(t.args, kind) else [];
      var found := if IsComb(t, kind) then FindIn(t.args, name, kind) else None;
      if IsComb(t, kind) { FindsFirstInPreorder(t.args, name, kind); }
      FindsFirstInPreorder(args[1..], name, kind);
      FirstNamedAppend([t], inner, name, head, found);
      FirstNamedAppend([t] + inner, Preorder(args[1..], kind), name,
                       if head.Some? then head else found, FindIn(args[1..], name, kind));
    }
  }
}
