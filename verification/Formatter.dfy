/** The parameter formatter of src/lib/smart-contracts/index.ts: JSON in, Michelson arguments out.

    Each `Format…` function says what one formatter function returns; the methods at the end run
    the formatter the way the source does, with loops that accumulate, and are proved equal. */
module Formatter {
  import opened Wrappers
  import opened Tokens
  import Decimal

  // What the contract method is called with. `AMap` is a MichelsonMap in insertion order.
  datatype Arg =
    | AUndefined
    | ANull
    | ABool(b: bool)
    | ANum(n: real)
    | AStr(s: string)
    | AArr(elems: seq<Arg>)
    | AObj(fields: seq<ArgField>)
    | AMap(entries: seq<ArgEntry>)

  datatype ArgField = ArgField(name: string, value: Arg)
  datatype ArgEntry = ArgEntry(key: Arg, value: Arg)

  // The JSON schema of an entry point: a type name, or an object of schemas.
  datatype Schema = Leaf(prim: string) | Node(fields: seq<SchemaField>)
  datatype SchemaField = SchemaField(name: string, schema: Schema)

  datatype Error =
    | InvalidBooleanParameter
    | InvalidMapStructureParams
    | InvalidParameter(got: string, expected: string)
    | InvalidParameterName(name: string)
    | InvalidVariantObject(count: nat)
    | MissingParameter(name: string)
    | UnSupportedParameterSchema
    | TypeError

  type Formatted = Result<seq<Arg>, Error>

  // ----- schemas as JavaScript values -----------------------------------------------------------

  /** Object.keys: a string enumerates its indices. */
  function Keys(s: Schema): (ks: seq<string>)
    ensures |ks| == match s { case Leaf(w) => |w| case Node(fs) => |fs| }
  {
    match s
    case Leaf(w) => seq(|w|, i requires 0 <= i < |w| => Decimal.Print(i))
    case Node(fs) => seq(|fs|, i requires 0 <= i < |fs| => fs[i].name)
  }

  function AtNode(fs: seq<SchemaField>, k: string): Option<Schema> {
    if fs == [] then None else if fs[0].name == k then Some(fs[0].schema) else AtNode(fs[1..], k)
  }

  function AtLeaf(w: string, k: string, i: nat): Option<Schema>
    requires i <= |w|
    decreases |w| - i
  {
    if i == |w| then None
    else if Decimal.Print(i) == k then Some(Leaf([w[i]]))
    else AtLeaf(w, k, i + 1)
  }

  /** Property access; None is `undefined`. */
  function At(s: Schema, k: string): Option<Schema> {
    match s
    case Leaf(w) => AtLeaf(w, k, 0)
    case Node(fs) => AtNode(fs, k)
  }

  // ----- scalars ----------------------------------------------------------------------------------

  predicate IsObjectType(p: Json) {
    p.JNull? || p.JArr? || p.JObj?
  }

  function Plain(p: Json): Arg {
    match p
    case JBool(b) => ABool(b)
    case JNum(n) => ANum(n)
    case JStr(s) => AStr(s)
    case _ => ANull
  }

  // toUpperCase() == word, for the words below; U+017F is the one other letter that upper-cases
  // into one of theirs.
  predicate UpperIs(s: string, upper: string, lower: string)
    requires |upper| == |lower|
  {
    |s| == |upper|
    && forall i :: 0 <= i < |s| ==>
         s[i] == upper[i] || s[i] == lower[i] || (upper[i] == 'S' && s[i] == '\U{017F}')
  }

  function AsBoolean(p: Json): Option<bool> {
    match p
    case JBool(b) => Some(b)
    case JStr(s) =>
      if UpperIs(s, "TRUE", "true") then Some(true)
      else if UpperIs(s, "FALSE", "false") then Some(false)
      else None
    case _ => None
  }

  function First(args: seq<Arg>): Arg {
    if args == [] then AUndefined else args[0]
  }

  // ----- MichelsonMap -------------------------------------------------------------------------------

  /** Keys are compared by their serialization with sorted field names. */
  predicate SameKey(a: Arg, b: Arg)
    decreases a
  {
    match a
    case AArr(xs) => b.AArr? && |xs| == |b.elems|
                     && forall i :: 0 <= i < |xs| ==> SameKey(xs[i], b.elems[i])
    case AObj(fs) => b.AObj? && |fs| == |b.fields| && forall i :: 0 <= i < |fs| ==> HasMatch(fs[i], b.fields)
    case _ => a == b
  }

  predicate HasMatch(f: ArgField, gs: seq<ArgField>)
    decreases f
  {
    exists j :: 0 <= j < |gs| && gs[j].name == f.name && SameKey(f.value, gs[j].value)
  }

  /** `set`: replace the entry with the same key in place, or append. */
  function MapSet(m: seq<ArgEntry>, e: ArgEntry): seq<ArgEntry> {
    if m == [] then [e]
    else if SameKey(m[0].key, e.key) then [e] + m[1..]
    else [m[0]] + MapSet(m[1..], e)
  }

  function MapOf(es: seq<ArgEntry>): seq<ArgEntry> {
    if es == [] then [] else MapSet(MapOf(es[..|es| - 1]), es[|es| - 1])
  }

  // ----- the formatter ------------------------------------------------------------------------------


  function Format(p: Json, t: Token, onlyFormatMaps: bool, s: Option<Schema>): Formatted
    decreases Size(t), 2, 0
  {
    match t
    case Optional(_, a) =>
      if p.JNull? then Ok([ANull]) else Format(p, a, onlyFormatMaps, s)
    case Boolean(_) =>
      var b := AsBoolean(p);
      if b.Some? then Ok([ABool(b.value)]) else Err(InvalidBooleanParameter)
    case Map(_, _, _) =>
      if !IsObjectType(p) then Ok([Plain(p)])
      else if !p.JArr? then Err(InvalidMapStructureParams)
      else
        var es := FormatEntries(p.elems, t, onlyFormatMaps, s);
        if es.Err? then Err(es.error) else Ok([AMap(MapOf(es.value))])
    case List(_, a) => if !IsObjectType(p) then Ok([Plain(p)]) else FormatElements(p, a)
    case Set(_, a) => if !IsObjectType(p) then Ok([Plain(p)]) else FormatElements(p, a)
    case Comb(_, kind, _) =>
      if !IsObjectType(p) then Ok([Plain(p)])
      else if p.JArr? then Err(InvalidParameter("array", "object"))
      else if kind == OrKind then FormatVariant(p, t, onlyFormatMaps, s)
      else FormatRecord(p, t, onlyFormatMaps, s)
    case Scalar(_, _) =>
      if !IsObjectType(p) then Ok([Plain(p)]) else Err(UnSupportedParameterSchema)
  }

  /** The formatter called with an undefined token, as a record does for a key it cannot find. */
  function FormatUntyped(p: Json): Formatted {
    if !IsObjectType(p) then Ok([Plain(p)]) else Err(TypeError)
  }

  function FormatElements(p: Json, elem: Token): Formatted
    decreases Size(elem), 4, 0
  {
    if !p.JArr? then Err(InvalidParameter("object", "array"))
    else
      var r := FormatAll(p.elems, elem);
      if r.Err? then r else Ok([AArr(r.value)])
  }

  function FormatAll(ps: seq<Json>, elem: Token): Formatted
    decreases Size(elem), 3, |ps|
  {
    if ps == [] then Ok([])
    else
      var head := Format(ps[0], elem, true, None);
      if head.Err? then head
      else
        var rest := FormatAll(ps[1..], elem);
        if rest.Err? then rest else Ok(head.value + rest.value)
  }

  function FormatVariant(p: Json, t: Token, onlyFormatMaps: bool, s: Option<Schema>): Formatted
    requires t.Comb?
    decreases Size(t), 1, 0
  {
    if !p.JObj? then Err(TypeError)
    else if |p.fields| != 1 then Err(InvalidVariantObject(|p.fields|))
    else
      var f := p.fields[0];
      var child := FindChild(t, f.name);
      if child.None? then Err(InvalidParameterName(f.name))
      else if onlyFormatMaps then
        var r := Format(f.value, child.value, true, None);
        if r.Err? then r else Ok([AObj([ArgField(f.name, First(r.value))])])
      else if s.None? then Err(TypeError)
      else
        var r := Format(f.value, child.value, false, At(s.value, f.name));
        if r.Err? then r else Ok([AStr(f.name)] + r.value)
  }

  function FormatRecord(p: Json, t: Token, onlyFormatMaps: bool, s: Option<Schema>): Formatted
    requires t.Comb?
    decreases Size(t), 1, 0
  {
    if onlyFormatMaps then
      if !p.JObj? then Err(TypeError)
      else
        var fs := FormatFields(p.fields, t);
        if fs.Err? then Err(fs.error) else Ok([AObj(fs.value)])
    else if s.None? then Err(TypeError)
    else FormatKeys(Keys(s.value), p, t, s.value)
  }

  /** Shape-preserving records: one formatted field per given field. */
  function FormatFields(fields: seq<Field>, t: Token): Result<seq<ArgField>, Error>
    requires t.Comb?
    decreases Size(t), 0, |fields|
  {
    if fields == [] then Ok([])
    else
      var f := fields[0];
      var child := FindChild(t, f.name);
      if child.None? then Err(InvalidParameterName(f.name))
      else
        var r := Format(f.value, child.value, true, None);
        if r.Err? then Err(r.error)
        else
          var rest := FormatFields(fields[1..], t);
          if rest.Err? then rest else Ok([ArgField(f.name, First(r.value))] + rest.value)
  }

  /** Flattened records: the arguments of each schema key in turn. */
  function FormatKeys(keys: seq<string>, p: Json, t: Token, s: Schema): Formatted
    requires t.Comb?
    decreases Size(t), 0, |keys|
  {
    if keys == [] then Ok([])
    else
      var r := FormatKey(keys[0], p, t, s);
      if r.Err? then r
      else
        var rest := FormatKeys(keys[1..], p, t, s);
        if rest.Err? then rest else Ok(r.value + rest.value)
  }

  function FormatKey(key: string, p: Json, t: Token, s: Schema): Formatted
    requires t.Comb?
    decreases Size(t), 0, 0
  {
    // `hasOwnProperty` is called on the value itself: null has no such method, and an own field
    // of that name hides it.
    if !p.JObj? || HasField(p.fields, "hasOwnProperty") then Err(TypeError)
    else
      var given := GetField(p.fields, key);
      if given.None? then Err(MissingParameter(key))
      else
        var child := FindChild(t, key);
        if child.None? then FormatUntyped(given.value)
        else Format(given.value, child.value, false, At(s, key))
  }

  /** The schema a map passes on for its keys and for its values alike. */
  function EntrySchema(s: Option<Schema>): Result<Option<Schema>, Error> {
    if s.None? then Ok(None)
    else
      var m := At(s.value, "map");
      if m.None? then Err(TypeError) else Ok(At(m.value, "value"))
  }

  predicate IsEntry(p: Json) {
    p.JObj? && |p.fields| == 2 && p.fields[0].name == "key" && p.fields[1].name == "value"
  }

  function FormatEntry(p: Json, t: Token, onlyFormatMaps: bool, s: Option<Schema>): Result<ArgEntry, Error>
    requires t.Map?
    decreases Size(t), 0, 0
  {
    if p.JNull? then Err(TypeError)
    else if !IsEntry(p) then Err(InvalidMapStructureParams)
    else
      var sub := EntrySchema(s);
      if sub.Err? then Err(sub.error)
      else
        var k := Format(p.fields[0].value, t.key, onlyFormatMaps, sub.value);
        if k.Err? then Err(k.error)
        else
          var v := Format(p.fields[1].value, t.val, onlyFormatMaps, sub.value);
          if v.Err? then Err(v.error) else Ok(ArgEntry(First(k.value), First(v.value)))
  }

  function FormatEntries(ps: seq<Json>, t: Token, onlyFormatMaps: bool, s: Option<Schema>)
    : Result<seq<ArgEntry>, Error>
    requires t.Map?
    decreases Size(t), 1, |ps|
  {
    if ps == [] then Ok([])
    else
      var e := FormatEntry(ps[0], t, onlyFormatMaps, s);
      if e.Err? then Err(e.error)
      else
        var rest := FormatEntries(ps[1..], t, onlyFormatMaps, s);
        if rest.Err? then rest else Ok([e.value] + rest.value)
  }

  /** What a loop still has to produce, put after what it has produced. */
  ghost function Prepend<T>(done: seq<T>, rest: Result<seq<T>, Error>): (r: Result<seq<T>, Error>)
    ensures done == [] ==> r == rest
    ensures rest.Ok? && rest.value == [] ==> r == Ok(done)
  {
    if rest.Err? then rest else
    assert done == [] ==> done + rest.value == rest.value;
    assert rest.value == [] ==> done + rest.value == done;
    Ok(done + rest.value)
  }

  lemma PrependStep<T>(done: seq<T>, x: seq<T>, rest: Result<seq<T>, Error>)
    ensures Prepend(done, if rest.Err? then rest else Ok(x + rest.value)) == Prepend(done + x, rest)
  {
    if rest.Ok? { assert done + (x + rest.value) == done + x + rest.value; }
  }

  // ----- the formatter as it runs ---------------------------------------------------------------------

  method FormatEntryPointParameters(p: Json, t: Token, onlyFormatMaps: bool, s: Option<Schema>)
    returns (r: Formatted)
    ensures r == Format(p, t, onlyFormatMaps, s)
    decreases Size(t), 2, 0
  {
    if t.Optional? {
      if p.JNull? { return Ok([ANull]); }
      r := FormatEntryPointParameters(p, t.arg, onlyFormatMaps, s);
    } else if t.Boolean? {
      var b := AsBoolean(p);
      r := if b.Some? then Ok([ABool(b.value)]) else Err(InvalidBooleanParameter);
    } else if !IsObjectType(p) {
      r := Ok([Plain(p)]);
    } else if t.Map? {
      r := FormatMapParameter(p, t, onlyFormatMaps, s);
    } else if t.List? || t.Set? {
      r := FormatListOrSetParameter(p, t.arg);
    } else if IsComb(t, OrKind) {
      r := FormatVariantParameter(p, t, onlyFormatMaps, s);
    } else if IsComb(t, PairKind) {
      r := FormatRecordParameter(p, t, onlyFormatMaps, s);
    } else {
      r := Err(UnSupportedParameterSchema);
    }
  }

  method FormatListOrSetParameter(p: Json, elem: Token) returns (r: Formatted)
    ensures r == FormatElements(p, elem)
    decreases Size(elem), 4, 0
  {
    if !p.JArr? { return Err(InvalidParameter("object", "array")); }
    var result: seq<Arg> := [];
    assert p.elems[0..] == p.elems;
    for i := 0 to |p.elems|
      invariant FormatAll(p.elems, elem) == Prepend(result, FormatAll(p.elems[i..], elem))
    {
      assert p.elems[i..][1..] == p.elems[i + 1..];
      var formatted := FormatEntryPointParameters(p.elems[i], elem, true, None);
      if formatted.Err? { return formatted; }
      PrependStep(result, formatted.value, FormatAll(p.elems[i + 1..], elem));
      result := result + formatted.value;
    }
    return Ok([AArr(result)]);
  }

  method FormatVariantParameter(p: Json, t: Token, onlyFormatMaps: bool, s: Option<Schema>)
    returns (r: Formatted)
    requires t.Comb? && IsObjectType(p)
    ensures r == if p.JArr? then Err(InvalidParameter("array", "object"))
                 else FormatVariant(p, t, onlyFormatMaps, s)
    decreases Size(t), 1, 0
  {
    if p.JArr? { return Err(InvalidParameter("array", "object")); }
    if p.JNull? { return Err(TypeError); }
    if |p.fields| != 1 { return Err(InvalidVariantObject(|p.fields|)); }
    var variantName := p.fields[0].name;
    var variantToken := FindChildTokenByAnnotation(t, variantName);
    if variantToken.None? { return Err(InvalidParameterName(variantName)); }
    if onlyFormatMaps {
      r := FormatEntryPointParameters(p.fields[0].value, variantToken.value, true, None);
      if r.Ok? { r := Ok([AObj([ArgField(variantName, First(r.value))])]); }
    } else if s.None? {
      r := Err(TypeError);
    } else {
      r := FormatEntryPointParameters(p.fields[0].value, variantToken.value, false, At(s.value, variantName));
      if r.Ok? { r := Ok([AStr(variantName)] + r.value); }
    }
  }

  method FormatRecordParameter(p: Json, t: Token, onlyFormatMaps: bool, s: Option<Schema>)
    returns (r: Formatted)
    requires t.Comb? && IsObjectType(p)
    ensures r == if p.JArr? then Err(InvalidParameter("array", "object"))
                 else FormatRecord(p, t, onlyFormatMaps, s)
    decreases Size(t), 1, 0
  {
    if p.JArr? { return Err(InvalidParameter("array", "object")); }
    if onlyFormatMaps {
      if p.JNull? { return Err(TypeError); }
      r := FormatGivenFields(p.fields, t);
    } else {
      if s.None? { return Err(TypeError); }
      r := FormatSchemaKeys(p, t, s.value);
    }
  }

  method FormatGivenFields(fields: seq<Field>, t: Token) returns (r: Formatted)
    requires t.Comb?
    ensures r == var fs := FormatFields(fields, t); if fs.Err? then Err(fs.error) else Ok([AObj(fs.value)])
    decreases Size(t), 0, |fields|
  {
    var resultObj: seq<ArgField> := [];
    assert fields[0..] == fields;
    for i := 0 to |fields|
      invariant FormatFields(fields, t) == Prepend(resultObj, FormatFields(fields[i..], t))
    {
      assert fields[i..][1..] == fields[i + 1..];
      var argName := fields[i].name;
      var childToken := FindChildTokenByAnnotation(t, argName);
      if childToken.None? { return Err(InvalidParameterName(argName)); }
      var formatted := FormatEntryPointParameters(fields[i].value, childToken.value, true, None);
      if formatted.Err? { return formatted; }
      var f := ArgField(argName, First(formatted.value));
      PrependStep(resultObj, [f], FormatFields(fields[i + 1..], t));
      resultObj := resultObj + [f];
    }
    return Ok([AObj(resultObj)]);
  }

  method FormatSchemaKeys(p: Json, t: Token, s: Schema) returns (r: Formatted)
    requires t.Comb?
    ensures r == FormatKeys(Keys(s), p, t, s)
    decreases Size(t), 0, 1
  {
    var keys := Keys(s);
    var result: seq<Arg> := [];
    assert keys[0..] == keys;
    for i := 0 to |keys|
      invariant FormatKeys(keys, p, t, s) == Prepend(result, FormatKeys(keys[i..], p, t, s))
    {
      assert keys[i..][1..] == keys[i + 1..];
      var argName := keys[i];
      var childToken := FindChildTokenByAnnotation(t, argName);
      if !p.JObj? || HasField(p.fields, "hasOwnProperty") { return Err(TypeError); }
      var given := GetField(p.fields, argName);
      if given.None? { return Err(MissingParameter(argName)); }
      if childToken.Some? {
        r := FormatEntryPointParameters(given.value, childToken.value, false, At(s, argName));
      } else {
        r := FormatUntyped(given.value);
      }
      if r.Err? { return; }
      PrependStep(result, r.value, FormatKeys(keys[i + 1..], p, t, s));
      result := result + r.value;
    }
    return Ok(result);
  }

  method FormatMapParameter(p: Json, t: Token, onlyFormatMaps: bool, s: Option<Schema>)
    returns (r: Formatted)
    requires t.Map? && IsObjectType(p)
    ensures r == Format(p, t, onlyFormatMaps, s)
    decreases Size(t), 1, 0
  {
    if !p.JArr? { return Err(InvalidMapStructureParams); }
    var result: seq<ArgEntry> := [];
    ghost var done: seq<ArgEntry> := [];
    assert p.elems[0..] == p.elems;
    for i := 0 to |p.elems|
      invariant result == MapOf(done)
      invariant FormatEntries(p.elems, t, onlyFormatMaps, s) ==
                Prepend(done, FormatEntries(p.elems[i..], t, onlyFormatMaps, s))
    {
      var param := p.elems[i];
      assert p.elems[i..][1..] == p.elems[i + 1..];
      if param.JNull? { return Err(TypeError); }
      if !IsEntry(param) { return Err(InvalidMapStructureParams); }
      var sub := EntrySchema(s);
      if sub.Err? { return Err(sub.error); }
      var k := FormatEntryPointParameters(param.fields[0].value, t.key, onlyFormatMaps, sub.value);
      if k.Err? { return k; }
      var v := FormatEntryPointParameters(param.fields[1].value, t.val, onlyFormatMaps, sub.value);
      if v.Err? { return v; }
      var e := ArgEntry(First(k.value), First(v.value));
      PrependStep(done, [e], FormatEntries(p.elems[i + 1..], t, onlyFormatMaps, s));
      assert (done + [e])[..|done|] == done;
      result := MapSet(result, e);
      done := done + [e];
    }
    return Ok([AMap(result)]);
  }
}
