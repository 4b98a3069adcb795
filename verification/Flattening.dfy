/** Schema mode flattens nested records: the argument vector is the values at the leaf paths of the
    type, in schema order, and nothing else in the body matters. */
module Flattening {
  import opened Wrappers
  import opened Tokens
  import opened Formatter
  import opened Layout
  import opened Schemas

  // A leaf of nested records: the field names that lead to it, and its type.
  datatype LeafAt = LeafAt(path: seq<string>, token: Token, index: nat)

  function Leaves(t: Token, idx: nat): seq<LeafAt>
    decreases Size(t), 0
  {
    if IsComb(t, PairKind) then LeavesOf(Frontier(t.args, PairKind), idx) else [LeafAt([], t, idx)]
  }

  function LeavesOf(ts: seq<Token>, idx: nat): seq<LeafAt>
    decreases SizeAll(ts), 1
  {
    if ts == [] then []
    else Under(Annot(ts[0]), Leaves(ts[0], idx)) + LeavesOf(ts[1..], idx + 1)
  }

  function Under(name: string, ls: seq<LeafAt>): seq<LeafAt> {
    if ls == [] then [] else [ls[0].(path := [name] + ls[0].path)] + Under(name, ls[1..])
  }

  /** The value a path of field names leads to. */
  function Follow(p: Json, path: seq<string>): Option<Json>
    decreases |path|
  {
    if path == [] then Some(p)
    else if !p.JObj? || GetField(p.fields, path[0]).None? then None
    else Follow(GetField(p.fields, path[0]).value, path[1..])
  }

  /** One formatted vector after another; the first error wins. */
  function Join(x: Formatted, y: Formatted): Formatted {
    if x.Err? then x else if y.Err? then y else Ok(x.value + y.value)
  }

  function FormatLeaf(l: LeafAt, p: Json): Formatted {
    var v := Follow(p, l.path);
    if v.None? then Err(TypeError) else Format(v.value, l.token, false, Some(SchemaOf(l.token, l.index)))
  }

  /** The arguments of the leaves in order. */
  function FormatLeaves(ls: seq<LeafAt>, p: Json): Formatted {
    if ls == [] then Ok([]) else Join(FormatLeaf(ls[0], p), FormatLeaves(ls[1..], p))
  }

  /** At every record the body has an object with all fields, none of them hiding `hasOwnProperty`. */
  predicate Supplied(p: Json, t: Token)
    decreases Size(t), 0
  {
    IsComb(t, PairKind) ==>
      p.JObj? && !HasField(p.fields, "hasOwnProperty") && SuppliedAll(p, Frontier(t.args, PairKind))
  }

  predicate SuppliedAll(p: Json, ts: seq<Token>)
    requires p.JObj?
    decreases SizeAll(ts), 1
  {
    ts == []
    || (HasField(p.fields, Annot(ts[0])) && Supplied(GetField(p.fields, Annot(ts[0])).value, ts[0])
        && SuppliedAll(p, ts[1..]))
  }

  lemma JoinAssociative(x: Formatted, y: Formatted, z: Formatted)
    ensures Join(x, Join(y, z)) == Join(Join(x, y), z)
    ensures Join(Ok([]), x) == x == Join(x, Ok([]))
  {
    if x.Ok? { assert [] + x.value == x.value == x.value + []; }
    if x.Ok? && y.Ok? && z.Ok? { assert x.value + (y.value + z.value) == x.value + y.value + z.value; }
  }

  lemma {:induction false} FormatLeavesAppend(a: seq<LeafAt>, b: seq<LeafAt>, p: Json)
    ensures FormatLeaves(a + b, p) == Join(FormatLeaves(a, p), FormatLeaves(b, p))
  {
    if a == [] {
      assert a + b == b;
      JoinAssociative(FormatLeaves(b, p), Ok([]), Ok([]));
    } else {
      assert (a + b)[1..] == a[1..] + b;
      FormatLeavesAppend(a[1..], b, p);
      JoinAssociative(FormatLeaf(a[0], p), FormatLeaves(a[1..], p), FormatLeaves(b, p));
    }
  }

  lemma {:induction false} FormatLeavesUnder(ls: seq<LeafAt>, name: string, p: Json)
    requires p.JObj? && HasField(p.fields, name)
    ensures FormatLeaves(Under(name, ls), p) == FormatLeaves(ls, GetField(p.fields, name).value)
  {
    if ls != [] {
      var path := [name] + ls[0].path;
      assert path[1..] == ls[0].path;
      assert Follow(p, path) == Follow(GetField(p.fields, name).value, ls[0].path);
      assert Under(name, ls)[0] == ls[0].(path := path) && Under(name, ls)[1..] == Under(name, ls[1..]);
      FormatLeavesUnder(ls[1..], name, p);
    }
  }

  lemma {:induction false} SuppliedAt(p: Json, ts: seq<Token>, i: nat)
    requires p.JObj? && SuppliedAll(p, ts) && i < |ts|
    ensures HasField(p.fields, Annot(ts[i])) && Supplied(GetField(p.fields, Annot(ts[i])).value, ts[i])
  {
    if i > 0 { SuppliedAt(p, ts[1..], i - 1); }
  }

  lemma {:induction false} KeyIsField(p: Json, t: Token, idx: nat, i: nat)
    requires IsComb(t, PairKind) && WellNamed(t) && Supplied(p, t) && i < |Frontier(t.args, PairKind)|
    ensures var f, s := Frontier(t.args, PairKind)[i], SchemaOf(t, idx);
            Keys(s)[i] == Annot(f) && HasField(p.fields, Annot(f))
            && FormatKey(Annot(f), p, t, s) ==
               Format(GetField(p.fields, Annot(f)).value, f, false, Some(SchemaOf(f, idx + i)))
  {
    SchemaKey(t, idx, i);
    SuppliedAt(p, Frontier(t.args, PairKind), i);
  }

  lemma RecordBySchema(p: Json, t: Token, s: Schema)
    requires IsComb(t, PairKind) && p.JObj?
    ensures Format(p, t, false, Some(s)) == FormatKeys(Keys(s), p, t, s)
  {
  }

  /** The formatted arguments of a record are those of its leaf paths, in schema order. */
  lemma {:induction false} RecordIsItsLeaves(p: Json, t: Token, idx: nat)
    requires WellNamed(t) && Supplied(p, t)
    ensures Format(p, t, false, Some(SchemaOf(t, idx))) == FormatLeaves(Leaves(t, idx), p)
    decreases Size(t), 0
  {
    if IsComb(t, PairKind) {
      var s := SchemaOf(t, idx);
      RecordBySchema(p, t, s);
      KeysAreFields(p, t, idx);
      KeysAreLeaves(Keys(s), Frontier(t.args, PairKind), p, t, s, idx);
    } else {
      LeafIsItself(p, t, idx);
    }
  }

  /** Each schema key formats one field. */
  predicate KeysFit(keys: seq<string>, fields: seq<Token>, p: Json, t: Token, s: Schema, idx: nat)
    requires t.Comb? && p.JObj?
  {
    |keys| == |fields|
    && forall i :: 0 <= i < |fields| ==>
         && HasField(p.fields, Annot(fields[i]))
         && FormatKey(keys[i], p, t, s) ==
            Format(GetField(p.fields, Annot(fields[i])).value, fields[i], false, Some(SchemaOf(fields[i], idx + i)))
  }

  lemma {:induction false} KeysAreFields(p: Json, t: Token, idx: nat)
    requires IsComb(t, PairKind) && WellNamed(t) && Supplied(p, t)
    ensures KeysFit(Keys(SchemaOf(t, idx)), Frontier(t.args, PairKind), p, t, SchemaOf(t, idx), idx)
  {
    forall i | 0 <= i < |Frontier(t.args, PairKind)| { KeyIsField(p, t, idx, i); }
  }

  lemma KeysFitTail(keys: seq<string>, fields: seq<Token>, p: Json, t: Token, s: Schema, idx: nat)
    requires t.Comb? && p.JObj? && KeysFit(keys, fields, p, t, s, idx) && fields != []
    ensures KeysFit(keys[1..], fields[1..], p, t, s, idx + 1)
  {
  }

  lemma {:induction false} FieldIsItsLeaves(p: Json, f: Token, idx: nat)
    requires p.JObj? && HasField(p.fields, Annot(f))
    requires WellNamed(f) && Supplied(GetField(p.fields, Annot(f)).value, f)
    ensures Format(GetField(p.fields, Annot(f)).value, f, false, Some(SchemaOf(f, idx))) ==
            FormatLeaves(Under(Annot(f), Leaves(f, idx)), p)
    decreases Size(f), 1
  {
    RecordIsItsLeaves(GetField(p.fields, Annot(f)).value, f, idx);
    FormatLeavesUnder(Leaves(f, idx), Annot(f), p);
  }

  lemma {:induction false} KeysAreLeaves(
    keys: seq<string>, fields: seq<Token>, p: Json, t: Token, s: Schema, idx: nat)
    requires t.Comb? && p.JObj? && KeysFit(keys, fields, p, t, s, idx)
    requires WellNamedAll(fields) && SuppliedAll(p, fields)
    ensures FormatKeys(keys, p, t, s) == FormatLeaves(LeavesOf(fields, idx), p)
    decreases SizeAll(fields), 2
  {
    if fields != [] {
      var f := fields[0];
      FieldIsItsLeaves(p, f, idx);
      KeysFitTail(keys, fields, p, t, s, idx);
      KeysAreLeaves(keys[1..], fields[1..], p, t, s, idx + 1);
      FormatLeavesAppend(Under(Annot(f), Leaves(f, idx)), LeavesOf(fields[1..], idx + 1), p);
    }
  }

  lemma LeafIsItself(p: Json, t: Token, idx: nat)
    requires !IsComb(t, PairKind)
    ensures Format(p, t, false, Some(SchemaOf(t, idx))) == FormatLeaves(Leaves(t, idx), p)
  {
    var l := LeafAt([], t, idx);
    assert [l][1..] == [];
    JoinAssociative(FormatLeaf(l, p), Ok([]), Ok([]));
  }

  // ----- consequences ---------------------------------------------------------------------------------

  lemma {:induction false} SameLeavesSameArguments(ls: seq<LeafAt>, p: Json, q: Json)
    requires forall i :: 0 <= i < |ls| ==> Follow(p, ls[i].path) == Follow(q, ls[i].path)
    ensures FormatLeaves(ls, p) == FormatLeaves(ls, q)
  {
    if ls != [] { SameLeavesSameArguments(ls[1..], p, q); }
  }

  /** Neither the order of the fields nor fields beyond the type's own change the arguments. */
  lemma OnlyLeafValuesMatter(p: Json, q: Json, t: Token)
    requires WellNamed(t) && Supplied(p, t) && Supplied(q, t)
    requires forall l <- Leaves(t, 0) :: Follow(p, l.path) == Follow(q, l.path)
    ensures Arguments(p, t) == Arguments(q, t)
  {
    RecordIsItsLeaves(p, t, 0);
    RecordIsItsLeaves(q, t, 0);
    SameLeavesSameArguments(Leaves(t, 0), p, q);
  }

  /** …with one exception, for every record type: a field named `hasOwnProperty`. */
  lemma HasOwnPropertyIsRefused(p: Json, t: Token)
    requires IsComb(t, PairKind) && Frontier(t.args, PairKind) != []
    requires p.JObj? && HasField(p.fields, "hasOwnProperty")
    ensures Arguments(p, t) == Err(TypeError)
  {
    var s := SchemaOf(t, 0);
    RecordBySchema(p, t, s);
    assert Keys(s) != [] && FormatKey(Keys(s)[0], p, t, s) == Err(TypeError);
    assert FormatKeys(Keys(s), p, t, s) == Err(TypeError);
  }

  /** A type whose values always give one argument. */
  predicate SingleValued(t: Token) {
    match t
    case Optional(_, a) => SingleValued(a)
    case Comb(_, _, _) => false
    case _ => true
  }

  lemma {:induction false} SingleArgument(p: Json, t: Token, s: Option<Schema>)
    requires SingleValued(t) && Format(p, t, false, s).Ok?
    ensures |Format(p, t, false, s).value| == 1
  {
    match t
    case Optional(_, a) => if !p.JNull? { SingleArgument(p, a, s); }
    case List(_, _) =>
    case Set(_, _) =>
    case Map(_, _, _) =>
    case _ =>
  }

  lemma {:induction false} OneArgumentPerLeaf(ls: seq<LeafAt>, p: Json)
    requires forall l <- ls :: SingleValued(l.token)
    requires FormatLeaves(ls, p).Ok?
    ensures var r := FormatLeaves(ls, p).value;
            |r| == |ls| && forall i :: 0 <= i < |ls| ==>
              Follow(p, ls[i].path).Some? && FormatLeaf(ls[i], p) == Ok([r[i]])
  {
    if ls != [] {
      var l := ls[0];
      SingleArgument(Follow(p, l.path).value, l.token, Some(SchemaOf(l.token, l.index)));
      OneArgumentPerLeaf(ls[1..], p);
      var head, rest := FormatLeaf(l, p).value, FormatLeaves(ls[1..], p).value;
      assert head == [head[0]] && FormatLeaves(ls, p).value == head + rest;
      assert forall i :: 0 < i < |ls| ==> ls[i] == ls[1..][i - 1] && (head + rest)[i] == rest[i - 1];
    }
  }

  /** The argument vector has one entry per leaf: entry i is the formatted value at leaf path i. */
  lemma VectorIsLeavesInSchemaOrder(p: Json, t: Token)
    requires WellNamed(t) && Supplied(p, t) && Arguments(p, t).Ok?
    requires forall l <- Leaves(t, 0) :: SingleValued(l.token)
    ensures var r, ls := Arguments(p, t).value, Leaves(t, 0);
            |r| == |ls| && forall i :: 0 <= i < |ls| ==>
              Follow(p, ls[i].path).Some? && FormatLeaf(ls[i], p) == Ok([r[i]])
  {
    RecordIsItsLeaves(p, t, 0);
    OneArgumentPerLeaf(Leaves(t, 0), p);
  }
}
