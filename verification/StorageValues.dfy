/** What the full dump shows of a storage, value by value. */
module StorageValues {
  import opened Wrappers
  import opened Storage
  import Decimal

  /** The property decides about its name: no later one has it. */
  predicate IsLast(ps: seq<Prop>, i: nat) {
    i < |ps| && forall j :: i < j < |ps| ==> ps[j].name != ps[i].name
  }

  /** The response shows the value: primitives and numbers as they are, a big map as its id, a list by its
      elements in order, an object name by name, and a map by its entries in order. */
  ghost predicate Shows(r: Response, v: Value)
    decreases v, 0
  {
    match v
    case Null => r == RNull
    case Bool(b) => r == RBool(b)
    case Str(s) => r == RStr(s)
    case Big(n) => r == RNum(n)
    case BigMap(id) => r == RObj([RProp("type", RStr("big_map")), RProp("value", RStr(id))])
    case Arr(es) => r.RArr? && |r.elems| == |es| && forall i :: 0 <= i < |es| ==> Shows(r.elems[i], es[i])
    case Obj(ps) =>
      && r.RObj?
      && (forall i: nat :: IsLast(ps, i) ==>
            Lookup(r.props, ps[i].name).Some? && Shows(Lookup(r.props, ps[i].name).value, ps[i].value))
      && (forall name :: Lookup(r.props, name).Some? ==> exists i :: 0 <= i < |ps| && ps[i].name == name)
    case MichelsonMap(es) =>
      r.RArr? && |r.elems| == |es| && forall i :: 0 <= i < |es| ==> ShowsEntry(r.elems[i], es[i])
  }

  /** An entry is shown with its key as it is. A list as its value is shown as an object from indices to
      elements, and a number or a map as the internals of its object. */
  ghost predicate ShowsEntry(r: Response, e: Entry)
    decreases e, 0
  {
    && r.RObj? && |r.props| == 2 && r.props[0] == RProp("key", Raw(e.key)) && r.props[1].name == "value"
    && ShowsHeld(r.props[1].value, e.value)
  }

  ghost predicate ShowsHeld(r: Response, v: Value)
    decreases v, 1
  {
    match v
    case Null => false
    case Bool(_) => Shows(r, v)
    case Str(_) => Shows(r, v)
    case Obj(_) => Shows(r, v)
    case Arr(es) =>
      r.RObj? && |r.props| == |es|
      && forall i :: 0 <= i < |es| ==> r.props[i].name == Decimal.Print(i) && Shows(r.props[i].value, es[i])
    case _ => r == Internals(v)
  }

  lemma {:induction false} LastOfPairs(ps: seq<Prop>, rs: seq<RProp>, i: nat)
    requires |ps| == |rs| && IsLast(ps, i) && forall k :: 0 <= k < |ps| ==> rs[k].name == ps[k].name
    ensures LastPair(rs, ps[i].name) == Some(rs[i].value)
  {
    if i < |ps| - 1 { LastOfPairs(ps[..|ps| - 1], rs[..|rs| - 1], i); }
  }

  lemma {:induction false} PairIsThere(rs: seq<RProp>, name: string)
    requires LastPair(rs, name).Some?
    ensures exists i :: 0 <= i < |rs| && rs[i].name == name
  {
    if rs[|rs| - 1].name != name {
      PairIsThere(rs[..|rs| - 1], name);
      var i :| 0 <= i < |rs| - 1 && rs[..|rs| - 1][i].name == name;
      assert rs[i].name == name;
    }
  }

  /** Whenever the dump does not throw, its response shows the storage. */
  lemma {:induction false} DumpShows(v: Value)
    requires Dump(v).Some?
    ensures Shows(Dump(v).value, v)
    decreases v, 0
  {
    match v
    case Arr(es) => AllShow(es);
    case Obj(ps) => ObjectShows(ps);
    case MichelsonMap(es) =>
      forall i | 0 <= i < |es| ensures ShowsEntry(DumpEntries(es).value[i], es[i]) {
        DumpedEntryAt(es, i);
        EntryShows(es[i]);
      }
    case _ =>
  }

  lemma {:induction false} AllShow(es: seq<Value>)
    requires DumpAll(es).Some?
    ensures forall i :: 0 <= i < |es| ==> Shows(DumpAll(es).value[i], es[i])
    decreases es
  {
    forall i | 0 <= i < |es| ensures Shows(DumpAll(es).value[i], es[i]) { DumpShows(es[i]); }
  }

  lemma {:induction false} ObjectShows(ps: seq<Prop>)
    requires DumpProps(ps).Some?
    ensures Shows(RObj(FromPairs(DumpProps(ps).value)), Obj(ps))
    decreases ps
  {
    var rs := DumpProps(ps).value;
    forall i: nat | IsLast(ps, i)
      ensures Lookup(FromPairs(rs), ps[i].name).Some? && Shows(Lookup(FromPairs(rs), ps[i].name).value, ps[i].value)
    {
      FromPairsKeepsLast(rs, ps[i].name);
      LastOfPairs(ps, rs, i);
      DumpShows(ps[i].value);
    }
    forall name | Lookup(FromPairs(rs), name).Some? ensures exists i :: 0 <= i < |ps| && ps[i].name == name {
      FromPairsKeepsLast(rs, name);
      PairIsThere(rs, name);
      var i :| 0 <= i < |rs| && rs[i].name == name;
      assert ps[i].name == name;
    }
  }

  lemma {:induction false} EntryShows(e: Entry)
    requires DumpEntry(e).Some?
    ensures ShowsEntry(DumpEntry(e).value, e)
    decreases e, 0
  {
    HeldShows(e.value);
  }

  /** What a map holds under a key is shown alike by the dump and by a query for the key. */
  lemma {:induction false} HeldShows(v: Value)
    requires DumpEntryValue(v).Some?
    ensures ShowsHeld(DumpEntryValue(v).value, v)
    decreases v, 1
  {
    match v
    case Arr(es) => AllShow(es);
    case Obj(ps) => ObjectShows(ps);
    case Bool(_) => DumpShows(v);
    case Str(_) => DumpShows(v);
    case _ =>
  }
}
