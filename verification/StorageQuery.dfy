/** Partial queries on a contract's storage (src/lib/storage/convert-storage.ts), and their agreement
    with the full dump. */
module StorageQuery {
  import opened Wrappers
  import opened Storage
  import Decimal

  // A requested field: a property name or a dotted path, or an object whose first property names a map
  // and lists the keys wanted from it.
  datatype DataField = Path(path: string) | Keyed(requests: seq<MapRequest>)
  datatype MapRequest = MapRequest(name: string, keys: seq<KeyQuery>)
  datatype KeyQuery = WholeValue(key: Value) | PartOfValue(key: Value, dataFields: seq<DataField>)

  // What the node answers to the n-th attempt at a big map's key; a missing key is Null.
  datatype Attempt = Found(value: Value) | Failed(status: nat)
  datatype Network = Network(answer: (string, Value, nat) -> Attempt)

  const RETRIES: nat := 3
  const BAD_GATEWAY := 502

  const NO_SUCH_FIELD := "This data field does not exist in the contract storage"
  const NOT_A_MAP :=
    "This data field does not have type MichelsonMap or BigMap, use simple string to access to the properties"
  const NO_SUCH_KEY := "The current map does not contain this key"

  function Error(message: string): Response {
    RObj([RProp("error", RStr(message))])
  }

  // ----- paths --------------------------------------------------------------------------------------------

  function Property(ps: seq<Prop>, name: string): Option<Value> {
    if ps == [] then None else if ps[0].name == name then Some(ps[0].value) else Property(ps[1..], name)
  }

  function Element<T>(es: seq<T>, name: string, i: nat): Option<T>
    requires i <= |es|
    decreases |es| - i
  {
    if i == |es| then None else if Decimal.Print(i) == name then Some(es[i]) else Element(es, name, i + 1)
  }

  /** An own property of a record, or an element of a list. */
  function Own(v: Value, name: string): Option<Value> {
    match v
    case Obj(ps) => Property(ps, name)
    case Arr(es) => Element(es, name, 0)
    case _ => None
  }

  function Split(path: string): (parts: seq<string>)
    ensures |parts| > 0
  {
    if path == "" then [""]
    else
      var rest := Split(path[1..]);
      if path[0] == '.' then [""] + rest else [[path[0]] + rest[0]] + rest[1..]
  }

  /** The steps of a path: a property of that very name goes before its dotted reading. */
  function Steps(isOwn: bool, path: string): seq<string> {
    if isOwn || '.' !in path then [path] else Split(path)
  }

  function Walk(v: Value, steps: seq<string>): Option<Value>
    decreases |steps|
  {
    if steps == [] then Some(v)
    else
      var next := Own(v, steps[0]);
      if next.None? then None else Walk(next.value, steps[1..])
  }

  /** _.has and _.get together */
  function Get(v: Value, path: string): Option<Value> {
    Walk(v, Steps(Own(v, path).Some?, path))
  }

  // ----- keys ---------------------------------------------------------------------------------------------

  function Decimals(v: Value): Value {
    if v.Big? then Str(Decimal.PrintInt(v.n)) else v
  }

  /** Keys are compared by their serialization: a number is its decimal string, and the order of
      properties does not matter. */
  predicate SameKey(a: Value, b: Value)
    decreases a
  {
    match a
    case Arr(xs) => b.Arr? && |xs| == |b.elems| && forall i :: 0 <= i < |xs| ==> SameKey(xs[i], b.elems[i])
    case Obj(ps) =>
      b.Obj? && |ps| == |b.props| && forall i :: 0 <= i < |ps| ==> HasMatch(ps[i], b.props)
    case _ => Decimals(a) == Decimals(b)
  }

  predicate HasMatch(p: Prop, qs: seq<Prop>)
    decreases p
  {
    exists j :: 0 <= j < |qs| && qs[j].name == p.name && SameKey(p.value, qs[j].value)
  }

  function IndexOfKey(es: seq<Entry>, key: Value): (i: nat)
    ensures i <= |es| && (i < |es| ==> SameKey(key, es[i].key)) && forall j :: 0 <= j < i ==> !SameKey(key, es[j].key)
  {
    if es == [] || SameKey(key, es[0].key) then 0 else 1 + IndexOfKey(es[1..], key)
  }

  /** MichelsonMap.get; a missing key is Null. */
  function MapGet(es: seq<Entry>, key: Value): Value {
    var i := IndexOfKey(es, key);
    if i < |es| then es[i].value else Null
  }

  /** tryGetFromMap */
  function TryGet(net: Network, id: string, key: Value, n: nat, remaining: nat): Result<Value, nat>
    decreases remaining
  {
    match net.answer(id, key, n)
    case Found(v) => Ok(v)
    case Failed(status) =>
      if status == BAD_GATEWAY && remaining > 0 then TryGet(net, id, key, n + 1, remaining - 1) else Err(status)
  }

  // ----- the query ----------------------------------------------------------------------------------------

  predicate IsEmpty(f: DataField) {
    f == Path("") || f == Keyed([])
  }

  function Name(f: DataField): string
    requires !IsEmpty(f)
  {
    if f.Path? then f.path else f.requests[0].name
  }

  function Answered(key: Value, value: Response): Response {
    RObj([RProp("key", Raw(key)), RProp("value", value)])
  }

  function Missing(key: Value): Response {
    RObj([RProp("key", Raw(key)), RProp("error", RStr(NO_SUCH_KEY))])
  }

  /** The answer about one key, given what the map holds for it; None is a thrown error. */
  function AnswerKey(q: KeyQuery, v: Value, net: Network): Option<Response>
    decreases q
  {
    if Falsy(v) then Some(Missing(q.key))
    else
      match q
      case PartOfValue(key, dataFields) =>
        var part := Convert(dataFields, v, net);
        if part.None? then None else Some(Answered(key, RObj(FromPairs(part.value))))
      case WholeValue(key) =>
        if v.Big? then Some(Answered(key, RNum(v.n)))
        else
          var value := DumpEntryValue(v);
          if value.None? then None else Some(Answered(key, value.value))
  }

  function AnswerKeys(qs: seq<KeyQuery>, map_: Value, net: Network): (r: Option<seq<Response>>)
    requires map_.MichelsonMap? || map_.BigMap?
    ensures r.Some? ==> |r.value| == |qs|
    decreases qs
  {
    if qs == [] then Some([])
    else
      var held := if map_.MichelsonMap? then Ok(MapGet(map_.entries, qs[0].key))
                  else TryGet(net, map_.id, qs[0].key, 0, RETRIES);
      if held.Err? then None
      else
        var head, rest := AnswerKey(qs[0], held.value, net), AnswerKeys(qs[1..], map_, net);
        if head.None? || rest.None? then None else Some([head.value] + rest.value)
  }

  /** handleObjectDataField */
  function AnswerMapRequest(r: MapRequest, v: Value, net: Network): Option<Response>
    decreases r
  {
    var map_ := Own(v, r.name);
    if map_.None? || Falsy(map_.value) then Some(Error(NO_SUCH_FIELD))
    else if !map_.value.MichelsonMap? && !map_.value.BigMap? then Some(Error(NOT_A_MAP))
    else
      var answers := AnswerKeys(r.keys, map_.value, net);
      if answers.None? then None else Some(RArr(answers.value))
  }

  function ConvertField(f: DataField, v: Value, net: Network): Option<Response>
    requires !IsEmpty(f)
    decreases f
  {
    match f
    case Path(path) =>
      var found := Get(v, path);
      if found.None? then Some(Error(NO_SUCH_FIELD)) else Dump(found.value)
    case Keyed(requests) => AnswerMapRequest(requests[0], v, net)
  }

  /** The pairs of convertStorage, one for each field that is not empty. */
  function Convert(fields: seq<DataField>, v: Value, net: Network): Option<seq<RProp>>
    decreases fields
  {
    if fields == [] then Some([])
    else if IsEmpty(fields[0]) then Convert(fields[1..], v, net)
    else
      var head, rest := ConvertField(fields[0], v, net), Convert(fields[1..], v, net);
      if head.None? || rest.None? then None else Some([RProp(Name(fields[0]), head.value)] + rest.value)
  }

  function ConvertStorage(fields: seq<DataField>, v: Value, net: Network): Option<Response> {
    var pairs := Convert(fields, v, net);
    if pairs.None? then None else Some(RObj(FromPairs(pairs.value)))
  }

  // ----- retries ------------------------------------------------------------------------------------------

  ghost predicate AllBadGateways(net: Network, id: string, key: Value, n: nat, m: nat) {
    forall k :: n <= k < m ==> net.answer(id, key, k) == Failed(502)
  }

  /** The n-th attempt is the last one made: all before it were bad gateways, and it is none, or no
      retry is left. */
  ghost predicate Decides(net: Network, id: string, key: Value, n: nat, from: nat, retries: nat) {
    from <= n <= from + retries && AllBadGateways(net, id, key, from, n)
    && (n < from + retries ==> net.answer(id, key, n) != Failed(502))
  }

  /** A big map is asked at most four times; the answer is that of the one deciding attempt. */
  lemma {:induction false} DecidingAttempt(net: Network, id: string, key: Value, n: nat, remaining: nat)
    ensures exists m :: Decides(net, id, key, m, n, remaining)
    ensures forall m :: Decides(net, id, key, m, n, remaining) ==>
              TryGet(net, id, key, n, remaining) ==
              match net.answer(id, key, m) case Found(v) => Ok(v) case Failed(status) => Err(status)
    decreases remaining
  {
    if net.answer(id, key, n) == Failed(BAD_GATEWAY) && remaining > 0 {
      DecidingAttempt(net, id, key, n + 1, remaining - 1);
      forall m: nat ensures Decides(net, id, key, m, n, remaining) <==> Decides(net, id, key, m, n + 1, remaining - 1) {
        assert m > n ==> (AllBadGateways(net, id, key, n, m) <==> AllBadGateways(net, id, key, n + 1, m));
      }
      var m :| Decides(net, id, key, m, n + 1, remaining - 1);
      assert Decides(net, id, key, m, n, remaining);
    } else {
      assert Decides(net, id, key, n, n, remaining);
      forall m | Decides(net, id, key, m, n, remaining) ensures m == n {
      }
    }
  }

  // ----- the query agrees with the dump -----------------------------------------------------------------------

  /** Objects have each property once. */
  predicate IsJs(v: Value)
    decreases v
  {
    match v
    case Arr(es) => forall i :: 0 <= i < |es| ==> IsJs(es[i])
    case Obj(ps) =>
      (forall i, j :: 0 <= i < j < |ps| ==> ps[i].name != ps[j].name)
      && forall i :: 0 <= i < |ps| ==> IsJs(ps[i].value)
    case _ => true
  }

  function OwnOfResponse(r: Response, name: string): Option<Response> {
    match r
    case RObj(ps) => Lookup(ps, name)
    case RArr(es) => Element(es, name, 0)
    case _ => None
  }

  function WalkResponse(r: Response, steps: seq<string>): Option<Response>
    decreases |steps|
  {
    if steps == [] then Some(r)
    else
      var next := OwnOfResponse(r, steps[0]);
      if next.None? then None else WalkResponse(next.value, steps[1..])
  }

  /** Looking a path up in the dump, with the same reading of dots. */
  function GetFromResponse(r: Response, path: string): Option<Response> {
    WalkResponse(r, Steps(OwnOfResponse(r, path).Some?, path))
  }

  predicate IsMap(v: Value) {
    v.MichelsonMap? || v.BigMap?
  }

  /** The steps look into records and lists, but into no map. */
  predicate AvoidsMaps(v: Value, steps: seq<string>)
    decreases |steps|
  {
    steps == []
    || (!IsMap(v) && (Own(v, steps[0]).Some? ==> AvoidsMaps(Own(v, steps[0]).value, steps[1..])))
  }

  ghost predicate Corresponds(found: Option<Value>, answer: Option<Response>) {
    if found.None? then answer.None? else answer.Some? && Dump(found.value) == answer
  }

  lemma {:induction false} ElementCorresponds(es: seq<Value>, rs: seq<Response>, name: string, i: nat)
    requires |es| == |rs| && i <= |es| && forall k :: 0 <= k < |es| ==> Dump(es[k]) == Some(rs[k])
    ensures Corresponds(Element(es, name, i), Element(rs, name, i))
    decreases |es| - i
  {
    if i < |es| && Decimal.Print(i) != name { ElementCorresponds(es, rs, name, i + 1); }
  }

  /** Pairs with distinct names are the object's properties as they stand. */
  lemma {:induction false} FromDistinctPairs(ps: seq<RProp>)
    requires forall i, j :: 0 <= i < j < |ps| ==> ps[i].name != ps[j].name
    ensures FromPairs(ps) == ps
  {
    if ps != [] {
      FromDistinctPairs(ps[..|ps| - 1]);
      AssignNew(ps[..|ps| - 1], ps[|ps| - 1]);
      assert ps == ps[..|ps| - 1] + [ps[|ps| - 1]];
    }
  }

  lemma {:induction false} AssignNew(ps: seq<RProp>, p: RProp)
    requires forall i :: 0 <= i < |ps| ==> ps[i].name != p.name
    ensures Assign(ps, p) == ps + [p]
  {
    if ps != [] {
      AssignNew(ps[1..], p);
      assert [ps[0]] + (ps[1..] + [p]) == ps + [p];
    }
  }

  lemma {:induction false} PropertyCorresponds(ps: seq<Prop>, rs: seq<RProp>, name: string)
    requires |ps| == |rs|
    requires forall k :: 0 <= k < |ps| ==> rs[k].name == ps[k].name && Dump(ps[k].value) == Some(rs[k].value)
    ensures Corresponds(Property(ps, name), Lookup(rs, name))
  {
    if ps != [] && ps[0].name != name { PropertyCorresponds(ps[1..], rs[1..], name); }
  }

  lemma OwnCorresponds(v: Value, name: string)
    requires IsJs(v) && Dump(v).Some? && !IsMap(v)
    ensures Corresponds(Own(v, name), OwnOfResponse(Dump(v).value, name))
  {
    match v
    case Obj(ps) =>
      FromDistinctPairs(DumpProps(ps).value);
      PropertyCorresponds(ps, DumpProps(ps).value, name);
    case Arr(es) => ElementCorresponds(es, DumpAll(es).value, name, 0);
    case _ =>
  }

  lemma {:induction false} OwnIsJs(v: Value, name: string)
    requires IsJs(v) && Own(v, name).Some?
    ensures IsJs(Own(v, name).value)
  {
    match v
    case Obj(ps) => PropertyIsJs(ps, name);
    case Arr(es) => ElementIsJs(es, name, 0);
  }

  lemma {:induction false} PropertyIsJs(ps: seq<Prop>, name: string)
    requires Property(ps, name).Some? && forall i :: 0 <= i < |ps| ==> IsJs(ps[i].value)
    ensures IsJs(Property(ps, name).value)
  {
    if ps[0].name != name { PropertyIsJs(ps[1..], name); }
  }

  lemma {:induction false} ElementIsJs(es: seq<Value>, name: string, i: nat)
    requires i <= |es| && Element(es, name, i).Some? && forall k :: 0 <= k < |es| ==> IsJs(es[k])
    ensures IsJs(Element(es, name, i).value)
    decreases |es| - i
  {
    if Decimal.Print(i) != name { ElementIsJs(es, name, i + 1); }
  }

  lemma {:induction false} WalkCorresponds(v: Value, steps: seq<string>)
    requires IsJs(v) && Dump(v).Some? && AvoidsMaps(v, steps)
    ensures Corresponds(Walk(v, steps), WalkResponse(Dump(v).value, steps))
    decreases |steps|
  {
    if steps != [] {
      OwnCorresponds(v, steps[0]);
      if Own(v, steps[0]).Some? {
        OwnIsJs(v, steps[0]);
        WalkCorresponds(Own(v, steps[0]).value, steps[1..]);
      }
    }
  }

  /** Looking a path up in the storage and converting is converting and looking it up. */
  lemma GetCorresponds(v: Value, path: string)
    requires IsJs(v) && Dump(v).Some? && !IsMap(v) && AvoidsMaps(v, Steps(Own(v, path).Some?, path))
    ensures Corresponds(Get(v, path), GetFromResponse(Dump(v).value, path))
  {
    OwnCorresponds(v, path);
    WalkCorresponds(v, Steps(Own(v, path).Some?, path));
  }

  /** The last field of that name that is not empty. */
  function LastNamed(fields: seq<DataField>, name: string): (f: Option<DataField>)
    ensures f.Some? ==> !IsEmpty(f.value) && Name(f.value) == name
  {
    if fields == [] then None
    else if !IsEmpty(fields[|fields| - 1]) && Name(fields[|fields| - 1]) == name then Some(fields[|fields| - 1])
    else LastNamed(fields[..|fields| - 1], name)
  }

  lemma {:induction false} ConvertLast(fields: seq<DataField>, v: Value, net: Network)
    requires fields != [] && Convert(fields, v, net).Some?
    ensures var before, last := fields[..|fields| - 1], fields[|fields| - 1];
            && Convert(before, v, net).Some?
            && (if IsEmpty(last) then Convert(fields, v, net) == Convert(before, v, net)
                else ConvertField(last, v, net).Some?
                     && Convert(fields, v, net).value
                        == Convert(before, v, net).value + [RProp(Name(last), ConvertField(last, v, net).value)])
  {
    if |fields| == 1 {
      assert fields[1..] == [] && fields[..0] == [];
    } else {
      var more := fields[1..];
      ConvertLast(more, v, net);
      assert fields[..|fields| - 1][1..] == more[..|more| - 1];
    }
  }

  /** The response to a query has, under each name, the answer to the last field of that name, and
      under any other name nothing. */
  lemma {:induction false} PairsAnswerLastField(fields: seq<DataField>, v: Value, net: Network, name: string)
    requires Convert(fields, v, net).Some?
    ensures var f := LastNamed(fields, name);
            if f.None? then LastPair(Convert(fields, v, net).value, name).None?
            else LastPair(Convert(fields, v, net).value, name).Some?
                 && LastPair(Convert(fields, v, net).value, name) == ConvertField(f.value, v, net)
    decreases |fields|
  {
    hide ConvertField;
    if fields != [] {
      var before, last := fields[..|fields| - 1], fields[|fields| - 1];
      ConvertLast(fields, v, net);
      PairsAnswerLastField(before, v, net, name);
      if !IsEmpty(last) {
        var ps := Convert(fields, v, net).value;
        assert ps[..|ps| - 1] == Convert(before, v, net).value;
      }
    }
  }

  /** A requested name or path has in the response the value it has in the full dump, and an error just
      when the dump has none, as long as the path looks into no map. */
  lemma PartialQueryIsProjection(fields: seq<DataField>, v: Value, net: Network, path: string)
    requires ConvertStorage(fields, v, net).Some? && LastNamed(fields, path) == Some(Path(path))
    requires IsJs(v) && Dump(v).Some? && !IsMap(v) && AvoidsMaps(v, Steps(Own(v, path).Some?, path))
    ensures var dumped := GetFromResponse(Dump(v).value, path);
            Lookup(ConvertStorage(fields, v, net).value.props, path)
            == Some(if dumped.Some? then dumped.value else Error(NO_SUCH_FIELD))
  {
    PairsAnswerLastField(fields, v, net, path);
    FromPairsKeepsLast(Convert(fields, v, net).value, path);
    GetCorresponds(v, path);
  }

  // ----- key queries ----------------------------------------------------------------------------------------

  lemma {:induction false} AnswersInOrder(qs: seq<KeyQuery>, es: seq<Entry>, net: Network, i: nat)
    requires AnswerKeys(qs, MichelsonMap(es), net).Some? && i < |qs|
    ensures AnswerKey(qs[i], MapGet(es, qs[i].key), net) == Some(AnswerKeys(qs, MichelsonMap(es), net).value[i])
  {
    if i > 0 { AnswersInOrder(qs[1..], es, net, i - 1); }
  }

  function ValueOf(r: Response): Option<Response> {
    if r.RObj? then Lookup(r.props, "value") else None
  }

  /** A query for keys of a map gets one answer for each key, in order. A key that is absent gets the
      error. One that is present, and asked for as a whole, gets the value the dump has for it if and
      only if the value is neither falsy nor a number. */
  lemma KeyQueryAgreesWithDump(qs: seq<KeyQuery>, es: seq<Entry>, net: Network, i: nat)
    requires AnswerKeys(qs, MichelsonMap(es), net).Some? && DumpEntries(es).Some?
    requires i < |qs| && qs[i].WholeValue?
    ensures var answers, k := AnswerKeys(qs, MichelsonMap(es), net).value, IndexOfKey(es, qs[i].key);
            && |answers| == |qs|
            && (k == |es| ==> answers[i] == Missing(qs[i].key))
            && (k < |es| ==>
                  (ValueOf(answers[i]).Some? && ValueOf(answers[i]) == ValueOf(DumpEntries(es).value[k])
                   <==> !Falsy(es[k].value) && !es[k].value.Big?))
  {
    AnswersInOrder(qs, es, net, i);
    var k := IndexOfKey(es, qs[i].key);
    if k < |es| {
      var v, key := es[k].value, RProp("key", Raw(qs[i].key));
      DumpedEntryAt(es, k);
      ValueOfPair(RProp("key", Raw(es[k].key)), "value", DumpEntryValue(v).value);
      if Falsy(v) {
        assert "error"[0] != "value"[0];
        ValueOfPair(key, "error", RStr(NO_SUCH_KEY));
      } else if v.Big? {
        ValueOfPair(key, "value", RNum(v.n));
        assert Spread(v) == Some(Internals(v));
      } else {
        ValueOfPair(key, "value", DumpEntryValue(v).value);
      }
    }
  }

  lemma ValueOfPair(key: RProp, name: string, value: Response)
    requires key.name == "key"
    ensures ValueOf(RObj([key, RProp(name, value)])) == if name == "value" then Some(value) else None
  {
    var ps := [key, RProp(name, value)];
    assert ps[1..] == [RProp(name, value)] && ps[1..][1..] == [];
    assert "key"[0] != "value"[0];
    assert Lookup(ps[1..], "value") == if name == "value" then Some(value) else None;
  }
}
