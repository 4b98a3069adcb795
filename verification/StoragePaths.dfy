/** How a partial query reads names, paths and keys (src/lib/storage/convert-storage.ts). */
module StoragePaths {
  import opened Wrappers
  import opened Storage
  import opened StorageQuery
  import Decimal

  // ----- names and paths ------------------------------------------------------------------------------------

  lemma {:induction false} PropertyIs(ps: seq<Prop>, name: string, x: Value)
    requires forall i, j :: 0 <= i < j < |ps| ==> ps[i].name != ps[j].name
    ensures Property(ps, name) == Some(x) <==> Prop(name, x) in ps
  {
    if ps != [] {
      PropertyIs(ps[1..], name, x);
      assert ps == [ps[0]] + ps[1..];
    }
  }

  lemma {:induction false} ElementIs<T>(es: seq<T>, name: string, i: nat, x: T)
    requires i <= |es|
    ensures Element(es, name, i) == Some(x) <==> exists k :: i <= k < |es| && Decimal.Print(k) == name && es[k] == x
    decreases |es| - i
  {
    if i < |es| {
      ElementIs(es, name, i + 1, x);
      forall k: nat, l: nat | Decimal.Print(k) == Decimal.Print(l) ensures k == l {
        Decimal.ValueOfPrint(k);
        Decimal.ValueOfPrint(l);
      }
    }
  }

  /** A name leads to the property that has it, or to the element whose index it prints. */
  lemma OwnIs(v: Value, name: string, x: Value)
    requires IsJs(v)
    ensures Own(v, name) == Some(x) <==>
            || (v.Obj? && Prop(name, x) in v.props)
            || (v.Arr? && exists k :: 0 <= k < |v.elems| && Decimal.Print(k) == name && v.elems[k] == x)
  {
    match v
    case Obj(ps) => PropertyIs(ps, name, x);
    case Arr(es) => ElementIs(es, name, 0, x);
    case _ =>
  }

  function JoinDots(parts: seq<string>): string
    requires parts != []
  {
    if |parts| == 1 then parts[0] else parts[0] + "." + JoinDots(parts[1..])
  }

  /** A path is the one list of parts without dots that it joins. */
  lemma {:induction false} SplitJoins(path: string)
    ensures JoinDots(Split(path)) == path && forall part <- Split(path) :: '.' !in part
  {
    if path != "" {
      var rest := Split(path[1..]);
      SplitJoins(path[1..]);
      if path[0] == '.' {
        assert ([""] + rest)[1..] == rest;
        assert "" + "." + JoinDots(rest) == path;
      } else {
        assert ([[path[0]] + rest[0]] + rest[1..])[1..] == rest[1..];
        assert [path[0]] + path[1..] == path;
        assert forall part <- rest[1..] :: part in rest;
        if |rest| > 1 {
          var more := JoinDots(rest[1..]);
          assert [path[0]] + (rest[0] + "." + more) == [path[0]] + rest[0] + "." + more;
        }
      }
    }
  }

  /** A path that is itself a name of the value means that name; any other means its parts, one after another. */
  lemma {:induction false} GetIs(v: Value, path: string)
    ensures Own(v, path).Some? ==> Get(v, path) == Own(v, path)
    ensures Own(v, path).None? ==> Get(v, path) == Walk(v, Split(path))
  {
    if Own(v, path).Some? {
      WalkOne(v, path);
    } else if '.' !in path {
      assert Split(path) == [path] by { SplitOne(path); }
    }
  }

  lemma WalkOne(v: Value, name: string)
    ensures Walk(v, [name]) == Own(v, name)
  {
    assert [name][1..] == [];
  }

  lemma {:induction false} SplitOne(path: string)
    requires '.' !in path
    ensures Split(path) == [path]
  {
    if path != "" {
      SplitOne(path[1..]);
      assert path[0] != '.' && [path[0]] + path[1..] == path;
    }
  }

  // ----- keys -----------------------------------------------------------------------------------------------

  // What a key is at one place: a primitive, where a number counts as its decimal string, or a list or object
  // of a size.
  datatype Head = Leaf(v: Value) | AList(size: nat) | AnObject(size: nat)

  function HeadOf(v: Value): Head {
    match v
    case Arr(es) => AList(|es|)
    case Obj(ps) => AnObject(|ps|)
    case Big(n) => Leaf(Str(Decimal.PrintInt(n)))
    case _ => Leaf(v)
  }

  function HeadAt(v: Value, path: seq<string>): Option<Head> {
    if Walk(v, path).Some? then Some(HeadOf(Walk(v, path).value)) else None
  }

  lemma HeadBelow(v: Value, name: string, rest: seq<string>)
    ensures HeadAt(v, [name] + rest) == if Own(v, name).Some? then HeadAt(Own(v, name).value, rest) else None
  {
    assert ([name] + rest)[1..] == rest;
  }

  function Names(ps: seq<Prop>): set<string> {
    set p <- ps :: p.name
  }

  lemma {:induction false} NamesCount(ps: seq<Prop>)
    requires forall i, j :: 0 <= i < j < |ps| ==> ps[i].name != ps[j].name
    ensures |Names(ps)| == |ps|
  {
    if ps != [] {
      NamesCount(ps[1..]);
      assert ps == [ps[0]] + ps[1..];
      assert Names(ps) == {ps[0].name} + Names(ps[1..]);
      assert ps[0].name !in Names(ps[1..]);
    }
  }

  lemma SubsetOfSameSize(a: set<string>, b: set<string>)
    requires a <= b && |a| == |b|
    ensures a == b
  {
    assert b == a + (b - a) && |b| == |a| + |b - a|;
  }

  /** Objects that match name by name have the same names. */
  lemma SameNames(ps: seq<Prop>, qs: seq<Prop>)
    requires SameKey(Obj(ps), Obj(qs)) && IsJs(Obj(ps)) && IsJs(Obj(qs))
    ensures Names(ps) == Names(qs)
  {
    forall name | name in Names(ps) ensures name in Names(qs) {
      var i :| 0 <= i < |ps| && ps[i].name == name;
      assert HasMatch(ps[i], qs);
      var j :| 0 <= j < |qs| && qs[j].name == ps[i].name && SameKey(ps[i].value, qs[j].value);
      assert qs[j] in qs;
    }
    NamesCount(ps);
    NamesCount(qs);
    SubsetOfSameSize(Names(ps), Names(qs));
  }

  lemma NameIsOwn(ps: seq<Prop>, name: string)
    requires IsJs(Obj(ps))
    ensures Own(Obj(ps), name).Some? <==> name in Names(ps)
  {
    if name in Names(ps) {
      var p :| p in ps && p.name == name;
      PropertyIs(ps, name, p.value);
    }
    if Own(Obj(ps), name).Some? {
      PropertyIs(ps, name, Own(Obj(ps), name).value);
      assert Prop(name, Own(Obj(ps), name).value) in ps;
    }
  }

  lemma {:induction false} SameKeySameHeads(a: Value, b: Value, path: seq<string>)
    requires IsJs(a) && IsJs(b) && SameKey(a, b)
    ensures HeadAt(a, path) == HeadAt(b, path)
    decreases a
  {
    if path != [] {
      var name, rest := path[0], path[1..];
      assert path == [name] + rest;
      HeadBelow(a, name, rest);
      HeadBelow(b, name, rest);
      match a
      case Arr(xs) =>
        if k: nat :| k < |xs| && Decimal.Print(k) == name {
          OwnIs(a, name, xs[k]);
          OwnIs(b, name, b.elems[k]);
          SameKeySameHeads(xs[k], b.elems[k], rest);
        } else {
          if Own(a, name).Some? { OwnIs(a, name, Own(a, name).value); }
          if Own(b, name).Some? { OwnIs(b, name, Own(b, name).value); }
        }
      case Obj(ps) =>
        SameNames(ps, b.props);
        NameIsOwn(ps, name);
        NameIsOwn(b.props, name);
        if i :| 0 <= i < |ps| && ps[i].name == name {
          assert HasMatch(ps[i], b.props);
          var j :| 0 <= j < |b.props| && b.props[j].name == ps[i].name && SameKey(ps[i].value, b.props[j].value);
          PropertyIs(ps, name, ps[i].value);
          PropertyIs(b.props, name, b.props[j].value);
          assert ps[i] in ps && b.props[j] in b.props;
          SameKeySameHeads(ps[i].value, b.props[j].value, rest);
        }
      case _ =>
    }
  }

  lemma {:induction false} SameHeadsSameKey(a: Value, b: Value)
    requires IsJs(a) && IsJs(b) && forall path :: HeadAt(a, path) == HeadAt(b, path)
    ensures SameKey(a, b)
    decreases a
  {
    assert HeadAt(a, []) == HeadAt(b, []);
    assert HeadOf(a) == HeadOf(b);
    match a
    case Arr(xs) =>
      forall i | 0 <= i < |xs| ensures SameKey(xs[i], b.elems[i]) {
        var name := Decimal.Print(i);
        OwnIs(a, name, xs[i]);
        OwnIs(b, name, b.elems[i]);
        SameBelow(a, b, name);
        SameHeadsSameKey(xs[i], b.elems[i]);
      }
    case Obj(ps) =>
      forall i | 0 <= i < |ps| ensures HasMatch(ps[i], b.props) {
        var name := ps[i].name;
        assert ps[i] in ps;
        PropertyIs(ps, name, ps[i].value);
        SameBelow(a, b, name);
        var x := Own(b, name).value;
        PropertyIs(b.props, name, x);
        OwnIsJs(b, name);
        SameHeadsSameKey(ps[i].value, x);
        var j :| 0 <= j < |b.props| && b.props[j] == Prop(name, x);
        assert b.props[j].name == ps[i].name && SameKey(ps[i].value, b.props[j].value);
      }
    case _ =>
  }

  lemma SameBelow(a: Value, b: Value, name: string)
    requires Own(a, name).Some? && forall path :: HeadAt(a, path) == HeadAt(b, path)
    ensures Own(b, name).Some?
    ensures forall rest :: HeadAt(Own(a, name).value, rest) == HeadAt(Own(b, name).value, rest)
  {
    HeadBelow(a, name, []);
    HeadBelow(b, name, []);
    assert HeadAt(a, [name] + []) == HeadAt(b, [name] + []);
    forall rest ensures HeadAt(Own(a, name).value, rest) == HeadAt(Own(b, name).value, rest) {
      HeadBelow(a, name, rest);
      HeadBelow(b, name, rest);
      assert HeadAt(a, [name] + rest) == HeadAt(b, [name] + rest);
    }
  }

  /** Two keys are the same if and only if they have the same primitives, lists and objects at the same places,
      whatever the order of their properties; a number is the same as its decimal string. */
  lemma SameKeyExactly(a: Value, b: Value)
    requires IsJs(a) && IsJs(b)
    ensures SameKey(a, b) <==> forall path :: HeadAt(a, path) == HeadAt(b, path)
  {
    if SameKey(a, b) {
      forall path ensures HeadAt(a, path) == HeadAt(b, path) { SameKeySameHeads(a, b, path); }
    }
    if forall path :: HeadAt(a, path) == HeadAt(b, path) { SameHeadsSameKey(a, b); }
  }
}
