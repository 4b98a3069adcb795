/** What a partial query answers for each kind of field, and when it throws
    (src/lib/storage/convert-storage.ts). */
module KeyedQuery {
  import opened Wrappers
  import opened Storage
  import opened StorageValues
  import opened StorageQuery

  // ----- fields and their answers ---------------------------------------------------------------------------

  /** The field asks for that name; an empty field asks for nothing. */
  predicate AsksFor(f: DataField, name: string) {
    match f
    case Path(path) => path == name && path != ""
    case Keyed(requests) => requests != [] && requests[0].name == name
  }

  /** Of the fields that ask for the name, the i-th is the last. */
  predicate IsLastFor(fields: seq<DataField>, i: nat, name: string) {
    i < |fields| && AsksFor(fields[i], name) && forall j :: i < j < |fields| ==> !AsksFor(fields[j], name)
  }

  lemma {:induction false} LastFieldIs(fields: seq<DataField>, name: string)
    ensures forall i: nat :: IsLastFor(fields, i, name) ==> LastNamed(fields, name) == Some(fields[i])
    ensures LastNamed(fields, name).None? <==> forall i :: 0 <= i < |fields| ==> !AsksFor(fields[i], name)
    decreases |fields|
  {
    if fields != [] {
      var before, last := fields[..|fields| - 1], fields[|fields| - 1];
      LastFieldIs(before, name);
      if !AsksFor(last, name) {
        forall i: nat | IsLastFor(fields, i, name) ensures LastNamed(fields, name) == Some(fields[i]) {
          assert IsLastFor(before, i, name);
        }
        assert forall i :: 0 <= i < |before| ==> before[i] == fields[i];
      }
    }
  }

  /** The response holds, under each name asked for, the answer to the last field that asks for it, and
      nothing under other names. */
  lemma ResponseByName(fields: seq<DataField>, v: Value, net: Network, name: string)
    requires ConvertStorage(fields, v, net).Some?
    ensures ConvertStorage(fields, v, net).value.RObj?
    ensures var answer := Lookup(ConvertStorage(fields, v, net).value.props, name);
            && (answer.Some? <==> exists i :: 0 <= i < |fields| && AsksFor(fields[i], name))
            && forall i: nat :: IsLastFor(fields, i, name) ==> answer == ConvertField(fields[i], v, net)
  {
    hide ConvertField;
    LastFieldIs(fields, name);
    PairsAnswerLastField(fields, v, net, name);
    FromPairsKeepsLast(Convert(fields, v, net).value, name);
  }

  // ----- names and paths ------------------------------------------------------------------------------------

  /** A name or path is answered with what the storage has there, as the dump shows it, or with an error. */
  lemma PathAnswer(fields: seq<DataField>, i: nat, v: Value, net: Network, path: string)
    requires ConvertStorage(fields, v, net).Some? && IsLastFor(fields, i, path) && fields[i].Path?
    ensures ConvertStorage(fields, v, net).value.RObj?
    ensures var answer := Lookup(ConvertStorage(fields, v, net).value.props, path);
            && answer.Some?
            && if Get(v, path).Some? then Shows(answer.value, Get(v, path).value)
               else IsError(answer.value, ABSENT)
  {
    ResponseByName(fields, v, net, path);
    if Get(v, path).Some? { DumpShows(Get(v, path).value); }
  }

  // ----- keys -----------------------------------------------------------------------------------------------

  predicate IsAbsent(v: Value) {
    v == Null || v == Bool(false) || v == Str("")
  }

  /** A map holds x under the key: the first entry with that key does, or there is none and x is Null. For a
      big map the node's deciding attempt, of at most four, finds x. */
  ghost predicate Holds(map_: Value, key: Value, x: Value, net: Network)
    requires IsMap(map_)
  {
    match map_
    case MichelsonMap(es) =>
      || (exists k :: 0 <= k < |es| && SameKey(key, es[k].key) && es[k].value == x
                      && forall j :: 0 <= j < k ==> !SameKey(key, es[j].key))
      || (x == Null && forall k :: 0 <= k < |es| ==> !SameKey(key, es[k].key))
    case BigMap(id) =>
      exists m: nat :: StorageQuery.Decides(net, id, key, m, 0, 3) && net.answer(id, key, m) == Found(x)
  }

  /** The answer to one key, given what is held under it: the error, the value as the dump shows it, a
      number as a number, or the answer to the inner query on the value. */
  ghost predicate AnswersKey(r: Response, q: KeyQuery, x: Value, net: Network) {
    if IsAbsent(x) then
      r == RObj([RProp("key", Raw(q.key)), RProp("error", RStr("The current map does not contain this key"))])
    else
      && r.RObj? && |r.props| == 2 && r.props[0] == RProp("key", Raw(q.key)) && r.props[1].name == "value"
      && match q
         case WholeValue(_) => if x.Big? then r.props[1].value == RNum(x.n) else ShowsHeld(r.props[1].value, x)
         case PartOfValue(_, dataFields) => ConvertStorage(dataFields, x, net) == Some(r.props[1].value)
  }

  ghost predicate AnswersKeyIn(r: Response, q: KeyQuery, map_: Value, net: Network)
    requires IsMap(map_)
  {
    exists x :: Holds(map_, q.key, x, net) && AnswersKey(r, q, x, net)
  }

  lemma MapGetHolds(es: seq<Entry>, key: Value, net: Network)
    ensures Holds(MichelsonMap(es), key, MapGet(es, key), net)
  {
    var k := IndexOfKey(es, key);
    if k < |es| { assert es[k].value == MapGet(es, key); }
  }

  lemma TryGetHolds(id: string, key: Value, net: Network)
    ensures TryGet(net, id, key, 0, RETRIES).Ok? ==>
              Holds(BigMap(id), key, TryGet(net, id, key, 0, RETRIES).value, net)
  {
    DecidingAttempt(net, id, key, 0, RETRIES);
    var m: nat :| StorageQuery.Decides(net, id, key, m, 0, RETRIES);
    assert StorageQuery.Decides(net, id, key, m, 0, 3);
  }

  lemma OneKeyAnswered(q: KeyQuery, x: Value, net: Network)
    requires AnswerKey(q, x, net).Some?
    ensures AnswersKey(AnswerKey(q, x, net).value, q, x, net)
  {
    if !Falsy(x) && q.WholeValue? && !x.Big? { HeldShows(x); }
  }

  lemma {:induction false} KeysAnswered(qs: seq<KeyQuery>, map_: Value, net: Network)
    requires IsMap(map_) && AnswerKeys(qs, map_, net).Some?
    ensures var answers := AnswerKeys(qs, map_, net).value;
            |answers| == |qs| && forall i :: 0 <= i < |qs| ==> AnswersKeyIn(answers[i], qs[i], map_, net)
  {
    hide AnswerKey, AnswersKey, Holds, TryGet;
    if qs != [] {
      var q := qs[0];
      var x := if map_.MichelsonMap? then MapGet(map_.entries, q.key)
               else TryGet(net, map_.id, q.key, 0, RETRIES).value;
      if map_.MichelsonMap? { MapGetHolds(map_.entries, q.key, net); } else { TryGetHolds(map_.id, q.key, net); }
      OneKeyAnswered(q, x, net);
      assert AnswersKeyIn(AnswerKey(q, x, net).value, q, map_, net);
      KeysAnswered(qs[1..], map_, net);
    }
  }

  const ABSENT := "This data field does not exist in the contract storage"
  const WRONG_TYPE :=
    "This data field does not have type MichelsonMap or BigMap, use simple string to access to the properties"

  predicate IsError(r: Response, message: string) {
    r == RObj([RProp("error", RStr(message))])
  }

  lemma ErrorsDiffer(r: Response)
    ensures !(IsError(r, ABSENT) && IsError(r, WRONG_TYPE))
    ensures IsError(Error(NO_SUCH_FIELD), ABSENT) && IsError(Error(NOT_A_MAP), WRONG_TYPE)
  {
    assert |ABSENT| != |WRONG_TYPE|;
  }

  /** The answer to a request for keys of what the storage holds under the map's name. */
  ghost predicate AnswersRequest(r: Response, keys: seq<KeyQuery>, held: Option<Value>, net: Network) {
    && (IsError(r, ABSENT) <==> held.None? || IsAbsent(held.value))
    && (IsError(r, WRONG_TYPE) <==> held.Some? && !IsAbsent(held.value) && !IsMap(held.value))
    && (held.Some? && IsMap(held.value) ==>
          && r.RArr? && |r.elems| == |keys|
          && forall k :: 0 <= k < |keys| ==> AnswersKeyIn(r.elems[k], keys[k], held.value, net))
  }

  lemma RequestAnswered(request: MapRequest, v: Value, net: Network)
    requires AnswerMapRequest(request, v, net).Some?
    ensures AnswersRequest(AnswerMapRequest(request, v, net).value, request.keys, Own(v, request.name), net)
  {
    hide AnswersKeyIn;
    var held, r := Own(v, request.name), AnswerMapRequest(request, v, net).value;
    ErrorsDiffer(r);
    if held.Some? && IsMap(held.value) { KeysAnswered(request.keys, held.value, net); }
  }

  /** The answer to a field that asks for keys of a map. A property that is absent or falsy gives the first
      error, one that is no map the second, and each of them just then; otherwise there is one answer for
      each key, in order. */
  lemma KeyedAnswer(fields: seq<DataField>, i: nat, v: Value, net: Network, name: string)
    requires ConvertStorage(fields, v, net).Some? && IsLastFor(fields, i, name) && fields[i].Keyed?
    ensures ConvertStorage(fields, v, net).value.RObj?
    ensures var answer := Lookup(ConvertStorage(fields, v, net).value.props, name);
            answer.Some? && AnswersRequest(answer.value, fields[i].requests[0].keys, Own(v, name), net)
  {
    hide AnswersRequest, AnswerMapRequest;
    ResponseByName(fields, v, net, name);
    RequestAnswered(fields[i].requests[0], v, net);
  }

  // ----- when a query throws ----------------------------------------------------------------------------------

  /** The query throws: some field does. */
  ghost predicate Throws(fields: seq<DataField>, v: Value, net: Network)
    decreases fields
  {
    exists i :: 0 <= i < |fields| && FieldThrows(fields[i], v, net)
  }

  /** A path throws if the dump of its value does; a request for keys, if one of its keys does. */
  ghost predicate FieldThrows(f: DataField, v: Value, net: Network)
    decreases f
  {
    match f
    case Path(path) => path != "" && Get(v, path).Some? && HasNullEntry(Get(v, path).value)
    case Keyed(requests) =>
      requests != []
      && var held := Own(v, requests[0].name);
         held.Some? && IsMap(held.value)
         && exists k :: 0 <= k < |requests[0].keys| && KeyThrows(requests[0].keys[k], held.value, net)
  }

  /** A key throws if the node fails on it for good, or if what is held under it cannot be shown. */
  ghost predicate KeyThrows(q: KeyQuery, map_: Value, net: Network)
    requires IsMap(map_)
    decreases q
  {
    || (map_.BigMap?
        && exists m: nat :: StorageQuery.Decides(net, map_.id, q.key, m, 0, 3) && net.answer(map_.id, q.key, m).Failed?)
    || exists x :: Holds(map_, q.key, x, net) && !IsAbsent(x) && PartThrows(q, x, net)
  }

  ghost predicate PartThrows(q: KeyQuery, x: Value, net: Network)
    decreases q, 0
  {
    match q
    case WholeValue(_) => !x.Big? && NullOrHasNull(x)
    case PartOfValue(_, dataFields) => Throws(dataFields, x, net)
  }

  /** What is held under a key is one value, or none if the node fails. */
  lemma HeldIsOne(map_: Value, key: Value, x: Value, net: Network)
    requires IsMap(map_)
    ensures Holds(map_, key, x, net) <==>
            if map_.MichelsonMap? then x == MapGet(map_.entries, key)
            else TryGet(net, map_.id, key, 0, RETRIES) == Ok(x)
  {
    hide SameKey, TryGet;
    match map_
    case MichelsonMap(es) =>
      var k := IndexOfKey(es, key);
      if k < |es| { assert es[k].value == MapGet(es, key); }
    case BigMap(id) =>
      DecidingAttempt(net, id, key, 0, RETRIES);
      var m: nat :| StorageQuery.Decides(net, id, key, m, 0, RETRIES);
      assert StorageQuery.Decides(net, id, key, m, 0, 3);
  }

  lemma NodeFails(id: string, key: Value, net: Network)
    ensures TryGet(net, id, key, 0, RETRIES).Err? <==>
            exists m: nat :: StorageQuery.Decides(net, id, key, m, 0, 3) && net.answer(id, key, m).Failed?
  {
    DecidingAttempt(net, id, key, 0, RETRIES);
    var m: nat :| StorageQuery.Decides(net, id, key, m, 0, RETRIES);
    assert StorageQuery.Decides(net, id, key, m, 0, 3);
  }

  /** A query throws if and only if one of its fields does: a dump meets a null in a map, a key holds what
      cannot be shown, or the node fails on a key of a big map. */
  lemma {:induction false} QueryThrowsExactly(fields: seq<DataField>, v: Value, net: Network)
    ensures ConvertStorage(fields, v, net).None? <==> Throws(fields, v, net)
    decreases fields
  {
    hide FieldThrows, ConvertField;
    if fields != [] {
      var more := fields[1..];
      QueryThrowsExactly(more, v, net);
      FieldThrowsExactly(fields[0], v, net);
      if Throws(more, v, net) {
        var i :| 0 <= i < |more| && FieldThrows(more[i], v, net);
        assert fields[i + 1] == more[i];
      }
      if Throws(fields, v, net) && !FieldThrows(fields[0], v, net) {
        var i :| 0 <= i < |fields| && FieldThrows(fields[i], v, net);
        assert more[i - 1] == fields[i];
      }
    }
  }

  lemma {:induction false} FieldThrowsExactly(f: DataField, v: Value, net: Network)
    ensures IsEmpty(f) ==> !FieldThrows(f, v, net)
    ensures !IsEmpty(f) ==> (ConvertField(f, v, net).None? <==> FieldThrows(f, v, net))
    decreases f
  {
    hide KeyThrows, Throws, AnswerKeys;
    match f
    case Path(path) => if Get(v, path).Some? { DumpFailsOnNullEntries(Get(v, path).value); }
    case Keyed(requests) =>
      if requests != [] {
        var held := Own(v, requests[0].name);
        if held.Some? && IsMap(held.value) { KeysThrowExactly(requests[0].keys, held.value, net); }
      }
  }

  lemma {:induction false} KeysThrowExactly(qs: seq<KeyQuery>, map_: Value, net: Network)
    requires IsMap(map_)
    ensures AnswerKeys(qs, map_, net).None? <==> exists k :: 0 <= k < |qs| && KeyThrows(qs[k], map_, net)
    decreases qs
  {
    hide KeyThrows, AnswerKey, TryGet, MapGet;
    if qs != [] {
      var more := qs[1..];
      KeyThrowsExactly(qs[0], map_, net);
      KeysThrowExactly(more, map_, net);
      if k :| 0 <= k < |more| && KeyThrows(more[k], map_, net) {
        assert qs[k + 1] == more[k];
      }
      if k :| 0 <= k < |qs| && KeyThrows(qs[k], map_, net) {
        assert k > 0 ==> more[k - 1] == qs[k];
      }
    }
  }

  lemma {:induction false} KeyThrowsExactly(q: KeyQuery, map_: Value, net: Network)
    requires IsMap(map_)
    ensures var held := if map_.MichelsonMap? then Ok(MapGet(map_.entries, q.key))
                        else TryGet(net, map_.id, q.key, 0, RETRIES);
            KeyThrows(q, map_, net) <==> held.Err? || AnswerKey(q, held.value, net).None?
    decreases q, 1
  {
    hide Holds, TryGet, MapGet, AnswerKey, PartThrows;
    var held := if map_.MichelsonMap? then Ok(MapGet(map_.entries, q.key))
                else TryGet(net, map_.id, q.key, 0, RETRIES);
    if map_.BigMap? { NodeFails(map_.id, q.key, net); }
    forall x ensures Holds(map_, q.key, x, net) <==> held == Ok(x) { HeldIsOne(map_, q.key, x, net); }
    if held.Ok? { PartThrowsExactly(q, held.value, net); }
  }

  lemma {:induction false} PartThrowsExactly(q: KeyQuery, x: Value, net: Network)
    ensures AnswerKey(q, x, net).None? <==> !IsAbsent(x) && PartThrows(q, x, net)
    decreases q, 0
  {
    match q
    case WholeValue(key) => EntryFails(Entry(key, x));
    case PartOfValue(_, dataFields) => QueryThrowsExactly(dataFields, x, net);
  }
}
