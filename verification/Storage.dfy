/** The full dump of a contract's storage (src/lib/storage/generate-storage-response.ts). */
module Storage {
  import opened Wrappers
  import Decimal

  // A storage as Taquito decodes it. An object is its list of own properties; a number is a
  // BigNumber; a big map is known by its id only.
  datatype Value =
    | Null
    | Bool(b: bool)
    | Str(s: string)
    | Big(n: int)
    | Arr(elems: seq<Value>)
    | Obj(props: seq<Prop>)
    | MichelsonMap(entries: seq<Entry>)
    | BigMap(id: string)

  datatype Prop = Prop(name: string, value: Value)
  datatype Entry = Entry(key: Value, value: Value)

  // A response. `Raw` is a value passed on as it is, and `Internals` the enumeration of the own fields
  // of an object of a library class.
  datatype Response =
    | RNull
    | RBool(b: bool)
    | RStr(s: string)
    | RNum(n: int)
    | RArr(elems: seq<Response>)
    | RObj(props: seq<RProp>)
    | Raw(v: Value)
    | Internals(v: Value)

  datatype RProp = RProp(name: string, value: Response)

  /** typeof v === 'object' */
  predicate IsObject(v: Value) {
    !v.Bool? && !v.Str?
  }

  predicate Falsy(v: Value) {
    v == Null || v == Bool(false) || v == Str("")
  }

  // ----- objects from pairs -------------------------------------------------------------------------------

  /** Assigning a property: in place if it is there, at the end if not. */
  function Assign(ps: seq<RProp>, p: RProp): seq<RProp> {
    if ps == [] then [p]
    else if ps[0].name == p.name then [p] + ps[1..]
    else [ps[0]] + Assign(ps[1..], p)
  }

  /** _.fromPairs */
  function FromPairs(ps: seq<RProp>): seq<RProp> {
    if ps == [] then [] else Assign(FromPairs(ps[..|ps| - 1]), ps[|ps| - 1])
  }

  function Lookup(ps: seq<RProp>, name: string): Option<Response> {
    if ps == [] then None else if ps[0].name == name then Some(ps[0].value) else Lookup(ps[1..], name)
  }

  lemma {:induction false} LookupAssign(ps: seq<RProp>, p: RProp, name: string)
    ensures Lookup(Assign(ps, p), name) == if p.name == name then Some(p.value) else Lookup(ps, name)
  {
    if ps != [] && ps[0].name != p.name {
      LookupAssign(ps[1..], p, name);
      assert Assign(ps, p)[1..] == Assign(ps[1..], p);
    } else if ps != [] {
      assert Assign(ps, p)[1..] == ps[1..];
    }
  }

  /** The pair that decides about a name is the last one. */
  function LastPair(ps: seq<RProp>, name: string): Option<Response> {
    if ps == [] then None
    else if ps[|ps| - 1].name == name then Some(ps[|ps| - 1].value)
    else LastPair(ps[..|ps| - 1], name)
  }

  lemma {:induction false} FromPairsKeepsLast(ps: seq<RProp>, name: string)
    ensures Lookup(FromPairs(ps), name) == LastPair(ps, name)
  {
    if ps != [] {
      FromPairsKeepsLast(ps[..|ps| - 1], name);
      LookupAssign(FromPairs(ps[..|ps| - 1]), ps[|ps| - 1], name);
    }
  }

  // ----- the dump -----------------------------------------------------------------------------------------

  /** convertStorageValueToStorageResponseValue; None is a thrown TypeError. */
  function Dump(v: Value): Option<Response>
    decreases v, 1
  {
    match v
    case Null => Some(RNull)
    case Bool(b) => Some(RBool(b))
    case Str(s) => Some(RStr(s))
    case Big(n) => Some(RNum(n))
    case BigMap(id) => Some(RObj([RProp("type", RStr("big_map")), RProp("value", RStr(id))]))
    case MichelsonMap(es) =>
      var r := DumpEntries(es);
      if r.None? then None else Some(RArr(r.value))
    case Arr(es) =>
      var r := DumpAll(es);
      if r.None? then None else Some(RArr(r.value))
    case Obj(_) => Spread(v)
  }

  /** generateStorageResponse: the own properties of any object, converted. */
  function Spread(v: Value): Option<Response>
    requires IsObject(v)
    decreases v, 0
  {
    match v
    case Obj(ps) =>
      var r := DumpProps(ps);
      if r.None? then None else Some(RObj(FromPairs(r.value)))
    case Arr(es) =>
      var r := DumpAll(es);
      if r.None? then None
      else Some(RObj(seq(|r.value|, i requires 0 <= i < |r.value| => RProp(Decimal.Print(i), r.value[i]))))
    case Null => None
    case _ => Some(Internals(v))
  }

  function DumpAll(es: seq<Value>): (r: Option<seq<Response>>)
    ensures r.Some? ==> |r.value| == |es| && forall i :: 0 <= i < |es| ==> Dump(es[i]) == Some(r.value[i])
    decreases es
  {
    if es == [] then Some([])
    else
      var head, rest := Dump(es[0]), DumpAll(es[1..]);
      if head.None? || rest.None? then None else Some([head.value] + rest.value)
  }

  function DumpProps(ps: seq<Prop>): (r: Option<seq<RProp>>)
    ensures r.Some? ==> |r.value| == |ps|
    ensures r.Some? ==> forall i :: 0 <= i < |ps| ==>
              r.value[i].name == ps[i].name && Dump(ps[i].value) == Some(r.value[i].value)
    decreases ps
  {
    if ps == [] then Some([])
    else
      var head, rest := Dump(ps[0].value), DumpProps(ps[1..]);
      if head.None? || rest.None? then None else Some([RProp(ps[0].name, head.value)] + rest.value)
  }

  /** The value of a map entry: an object of any kind is spread. */
  function DumpEntryValue(v: Value): Option<Response>
    decreases v, 2
  {
    if IsObject(v) then Spread(v) else Dump(v)
  }

  function DumpedEntry(key: Value, value: Response): Response {
    RObj([RProp("key", Raw(key)), RProp("value", value)])
  }

  function DumpEntry(e: Entry): Option<Response>
    decreases e
  {
    var value := DumpEntryValue(e.value);
    if value.None? then None else Some(DumpedEntry(e.key, value.value))
  }

  function DumpEntries(es: seq<Entry>): (r: Option<seq<Response>>)
    ensures r.Some? ==> |r.value| == |es|
    decreases es
  {
    if es == [] then Some([])
    else
      var head, rest := DumpEntry(es[0]), DumpEntries(es[1..]);
      if head.None? || rest.None? then None else Some([head.value] + rest.value)
  }

  lemma {:induction false} DumpedEntryAt(es: seq<Entry>, i: nat)
    requires i < |es| && DumpEntries(es).Some?
    ensures Some(DumpEntries(es).value[i]) == DumpEntry(es[i])
  {
    if i > 0 { DumpedEntryAt(es[1..], i - 1); }
  }

  /** What a loop still has to produce, put after what it has produced. */
  ghost function After(done: seq<Response>, rest: Option<seq<Response>>): (r: Option<seq<Response>>)
    ensures done == [] ==> r == rest
    ensures rest == Some([]) ==> r == Some(done)
    ensures rest.None? ==> r.None?
  {
    if rest.None? then None
    else
      assert done == [] ==> done + rest.value == rest.value;
      assert rest.value == [] ==> done + rest.value == done;
      Some(done + rest.value)
  }

  lemma AfterStep(done: seq<Response>, x: Response, rest: Option<seq<Response>>)
    ensures After(done, if rest.None? then None else Some([x] + rest.value)) == After(done + [x], rest)
  {
    if rest.Some? { assert done + ([x] + rest.value) == done + [x] + rest.value; }
  }

  method ConvertMichelsonMapToArrayObject(es: seq<Entry>) returns (r: Option<seq<Response>>)
    ensures r == DumpEntries(es)
  {
    hide DumpEntry, After;
    var result: seq<Response> := [];
    var i := 0;
    assert es[0..] == es;
    while true
      invariant i <= |es|
      invariant DumpEntries(es) == After(result, DumpEntries(es[i..]))
      decreases |es| - i
    {
      if i == |es| { break; }
      assert es[i..][1..] == es[i + 1..];
      var mapEntry := DumpEntry(es[i]);
      if mapEntry.None? { return None; }
      AfterStep(result, mapEntry.value, DumpEntries(es[i + 1..]));
      result := result + [mapEntry.value];
      i := i + 1;
    }
    return Some(result);
  }

  // ----- when the dump fails ------------------------------------------------------------------------------

  /** A null stands as the value of a map entry, somewhere the dump converts. */
  predicate HasNullEntry(v: Value)
    decreases v, 0
  {
    match v
    case Arr(es) => exists i :: 0 <= i < |es| && HasNullEntry(es[i])
    case Obj(ps) => exists i :: 0 <= i < |ps| && HasNullEntry(ps[i].value)
    case MichelsonMap(es) =>
      exists i :: 0 <= i < |es| && NullOrHasNull(es[i].value)
    case _ => false
  }

  predicate NullOrHasNull(v: Value)
    decreases v, 1
  {
    v == Null || (!v.MichelsonMap? && HasNullEntry(v))
  }

  /** The dump throws exactly when a map holds a null, not counting maps that are themselves the values
      of map entries, whose contents the dump does not convert. */
  lemma {:induction false} DumpFailsOnNullEntries(v: Value)
    ensures Dump(v).None? <==> HasNullEntry(v)
    decreases v, 1
  {
    match v
    case Arr(es) => AllFail(es);
    case Obj(ps) => PropsFail(ps);
    case MichelsonMap(es) => EntriesFail(es);
    case _ =>
  }

  lemma {:induction false} AllFail(es: seq<Value>)
    ensures DumpAll(es).None? <==> exists i :: 0 <= i < |es| && HasNullEntry(es[i])
    decreases es
  {
    if es != [] {
      DumpFailsOnNullEntries(es[0]);
      AllFail(es[1..]);
      assert forall i :: 0 < i < |es| ==> es[i] == es[1..][i - 1];
      assert forall i :: 0 <= i < |es[1..]| ==> es[1..][i] == es[i + 1];
    }
  }

  lemma {:induction false} PropsFail(ps: seq<Prop>)
    ensures DumpProps(ps).None? <==> exists i :: 0 <= i < |ps| && HasNullEntry(ps[i].value)
    decreases ps
  {
    if ps != [] {
      DumpFailsOnNullEntries(ps[0].value);
      PropsFail(ps[1..]);
      assert forall i :: 0 < i < |ps| ==> ps[i] == ps[1..][i - 1];
      assert forall i :: 0 <= i < |ps[1..]| ==> ps[1..][i] == ps[i + 1];
    }
  }

  lemma {:induction false} EntryFails(e: Entry)
    ensures DumpEntry(e).None? <==> NullOrHasNull(e.value)
    decreases e
  {
    var v := e.value;
    match v {
      case Arr(es) => AllFail(es);
      case Obj(ps) => PropsFail(ps);
      case Bool(_) => assert Dump(v).Some?;
      case Str(_) => assert Dump(v).Some?;
      case Null => assert Spread(v).None?;
      case _ => assert Spread(v).Some?;
    }
    assert DumpEntryValue(v).None? <==> NullOrHasNull(v);
  }

  lemma {:induction false} EntriesFail(es: seq<Entry>)
    ensures DumpEntries(es).None? <==> exists i :: 0 <= i < |es| && NullOrHasNull(es[i].value)
    decreases es
  {
    if es != [] {
      EntryFails(es[0]);
      EntriesFail(es[1..]);
      assert forall i :: 0 < i < |es| ==> es[i] == es[1..][i - 1];
      assert forall i :: 0 <= i < |es[1..]| ==> es[1..][i] == es[i + 1];
    }
  }
}
