/** Which values the formatter accepts, and which of several faults it reports. */
module Acceptance {
  import opened Wrappers
  import opened Tokens
  import opened Formatter

  // ----- booleans -----------------------------------------------------------------------------------

  /** TRUE, in any mix of cases. */
  predicate IsTrueWord(s: string) {
    |s| == 4 && s[0] in "Tt" && s[1] in "Rr" && s[2] in "Uu" && s[3] in "Ee"
  }

  /** FALSE, in any mix of cases; the long s counts as one, because it is upper-cased to S. */
  predicate IsFalseWord(s: string) {
    |s| == 5 && s[0] in "Ff" && s[1] in "Aa" && s[2] in "Ll" && s[3] in ['S', 's', '\U{017F}'] && s[4] in "Ee"
  }

  /** The value is the boolean b, or spells it. */
  predicate SaysBoolean(p: Json, b: bool) {
    p == JBool(b) || (p.JStr? && if b then IsTrueWord(p.s) else IsFalseWord(p.s))
  }

  /** A boolean is formatted as itself, and a string as the boolean that it spells; nothing else is taken for
      one. This holds in both modes. */
  lemma BooleanArgument(p: Json, t: Token, onlyFormatMaps: bool, s: Option<Schema>)
    requires t.Boolean?
    ensures forall b :: Format(p, t, onlyFormatMaps, s) == Ok([ABool(b)]) <==> SaysBoolean(p, b)
    ensures (forall b :: !SaysBoolean(p, b)) <==> Format(p, t, onlyFormatMaps, s) == Err(InvalidBooleanParameter)
  {
    if p.JStr? { WordsAreUpper(p.s); }
    assert forall b :: SaysBoolean(p, b) <==> AsBoolean(p) == Some(b);
    assert AsBoolean(p).Some? ==> SaysBoolean(p, AsBoolean(p).value);
  }

  lemma BooleansAreSaid(p: Json)
    ensures AsBoolean(p).Some? <==> SaysBoolean(p, true) || SaysBoolean(p, false)
  {
    if p.JStr? { WordsAreUpper(p.s); }
  }

  lemma WordsAreUpper(s: string)
    ensures IsTrueWord(s) <==> UpperIs(s, "TRUE", "true")
    ensures IsFalseWord(s) <==> UpperIs(s, "FALSE", "false")
    ensures !(IsTrueWord(s) && IsFalseWord(s))
  {
  }

  // ----- acceptance ---------------------------------------------------------------------------------

  predicate IsScalar(p: Json) {
    p.JBool? || p.JNum? || p.JStr?
  }

  predicate IsKeyValue(p: Json) {
    p.JObj? && |p.fields| == 2 && p.fields[0].name == "key" && p.fields[1].name == "value"
  }

  /** A value of the shape the type asks for. Anything that is not an object, array or null is let
      through wherever a boolean is not expected. */
  predicate Conforms(p: Json, t: Token, onlyFormatMaps: bool, s: Option<Schema>)
    decreases Size(t), 1
  {
    match t
    case Optional(_, a) => p.JNull? || Conforms(p, a, onlyFormatMaps, s)
    case Boolean(_) => SaysBoolean(p, true) || SaysBoolean(p, false)
    case Scalar(_, _) => IsScalar(p)
    case List(_, a) => IsScalar(p) || (p.JArr? && forall e <- p.elems :: Conforms(e, a, true, None))
    case Set(_, a) => IsScalar(p) || (p.JArr? && forall e <- p.elems :: Conforms(e, a, true, None))
    case Map(_, _, _) =>
      IsScalar(p) || (p.JArr? && forall e <- p.elems :: ConformsEntry(e, t, onlyFormatMaps, s))
    case Comb(_, OrKind, _) =>
      IsScalar(p)
      || (p.JObj? && |p.fields| == 1 && ConformsField(p.fields[0], t, onlyFormatMaps, s)
          && (onlyFormatMaps || s.Some?))
    case Comb(_, PairKind, _) =>
      IsScalar(p)
      || (if onlyFormatMaps then
            p.JObj? && forall i :: 0 <= i < |p.fields| ==> ConformsField(p.fields[i], t, true, None)
          else !p.JArr? && s.Some? && forall k <- Keys(s.value) :: ConformsKey(k, p, t, s.value))
  }

  predicate ConformsEntry(e: Json, t: Token, onlyFormatMaps: bool, s: Option<Schema>)
    requires t.Map?
    decreases Size(t), 0
  {
    IsKeyValue(e) && EntrySchema(s).Ok?
    && Conforms(e.fields[0].value, t.key, onlyFormatMaps, EntrySchema(s).value)
    && Conforms(e.fields[1].value, t.val, onlyFormatMaps, EntrySchema(s).value)
  }

  predicate ConformsField(f: Field, t: Token, onlyFormatMaps: bool, s: Option<Schema>)
    requires t.Comb?
    decreases Size(t), 0
  {
    var child := FindChild(t, f.name);
    child.Some?
    && Conforms(f.value, child.value, onlyFormatMaps,
                if onlyFormatMaps || s.None? then None else At(s.value, f.name))
  }

  predicate ConformsKey(k: string, p: Json, t: Token, s: Schema)
    requires t.Comb?
    decreases Size(t), 0
  {
    var child := FindChild(t, k);
    p.JObj? && !HasField(p.fields, "hasOwnProperty") && HasField(p.fields, k)
    && var v := GetField(p.fields, k).value;
       if child.None? then IsScalar(v) else Conforms(v, child.value, false, At(s, k))
  }

  /** The formatter returns normally exactly on conforming values. */
  lemma {:induction false} AcceptsExactlyConforming(p: Json, t: Token, onlyFormatMaps: bool, s: Option<Schema>)
    ensures Format(p, t, onlyFormatMaps, s).Ok? <==> Conforms(p, t, onlyFormatMaps, s)
    decreases Size(t), 2, 0
  {
    hide AsBoolean, SaysBoolean;
    match t
    case Optional(_, a) => AcceptsExactlyConforming(p, a, onlyFormatMaps, s);
    case List(_, a) => if p.JArr? { AcceptsElements(p.elems, a); }
    case Set(_, a) => if p.JArr? { AcceptsElements(p.elems, a); }
    case Map(_, _, _) => if p.JArr? { AcceptsEntries(p.elems, t, onlyFormatMaps, s); }
    case Comb(_, kind, _) =>
      if p.JObj? && kind == OrKind && |p.fields| == 1 {
        var f := p.fields[0];
        var child := FindChild(t, f.name);
        if child.Some? {
          AcceptsExactlyConforming(f.value, child.value, onlyFormatMaps,
                                   if onlyFormatMaps || s.None? then None else At(s.value, f.name));
        }
      } else if kind == PairKind && onlyFormatMaps && p.JObj? {
        AcceptsFields(p.fields, t);
      } else if kind == PairKind && !onlyFormatMaps && s.Some? {
        AcceptsKeys(Keys(s.value), p, t, s.value);
      }
    case Boolean(_) => BooleansAreSaid(p);
    case _ =>
  }

  lemma {:induction false} AcceptsElements(ps: seq<Json>, t: Token)
    ensures FormatAll(ps, t).Ok? <==> forall e <- ps :: Conforms(e, t, true, None)
    decreases Size(t), 3, |ps|
  {
    if ps != [] {
      AcceptsExactlyConforming(ps[0], t, true, None);
      AcceptsElements(ps[1..], t);
      assert ps == [ps[0]] + ps[1..];
    }
  }

  lemma {:induction false} AcceptsEntries(ps: seq<Json>, t: Token, onlyFormatMaps: bool, s: Option<Schema>)
    requires t.Map?
    ensures FormatEntries(ps, t, onlyFormatMaps, s).Ok? <==>
            forall e <- ps :: ConformsEntry(e, t, onlyFormatMaps, s)
    decreases Size(t), 1, |ps|
  {
    if ps != [] {
      AcceptsEntry(ps[0], t, onlyFormatMaps, s);
      AcceptsEntries(ps[1..], t, onlyFormatMaps, s);
      assert ps == [ps[0]] + ps[1..];
    }
  }

  lemma {:induction false} AcceptsEntry(p: Json, t: Token, onlyFormatMaps: bool, s: Option<Schema>)
    requires t.Map?
    ensures FormatEntry(p, t, onlyFormatMaps, s).Ok? <==> ConformsEntry(p, t, onlyFormatMaps, s)
    decreases Size(t), 0
  {
    if IsEntry(p) && EntrySchema(s).Ok? {
      AcceptsExactlyConforming(p.fields[0].value, t.key, onlyFormatMaps, EntrySchema(s).value);
      AcceptsExactlyConforming(p.fields[1].value, t.val, onlyFormatMaps, EntrySchema(s).value);
    }
  }

  lemma {:induction false} AcceptsFields(fs: seq<Field>, t: Token)
    requires t.Comb?
    ensures FormatFields(fs, t).Ok? <==> forall i :: 0 <= i < |fs| ==> ConformsField(fs[i], t, true, None)
    decreases Size(t), 0, |fs|
  {
    if fs != [] {
      var child := FindChild(t, fs[0].name);
      if child.Some? { AcceptsExactlyConforming(fs[0].value, child.value, true, None); }
      AcceptsFields(fs[1..], t);
      assert forall i :: 0 < i < |fs| ==> fs[i] == fs[1..][i - 1];
    }
  }

  lemma {:induction false} AcceptsKeys(ks: seq<string>, p: Json, t: Token, s: Schema)
    requires t.Comb?
    ensures FormatKeys(ks, p, t, s).Ok? <==> forall k <- ks :: ConformsKey(k, p, t, s)
    decreases Size(t), 1, |ks|
  {
    if ks != [] {
      AcceptsKey(ks[0], p, t, s);
      AcceptsKeys(ks[1..], p, t, s);
      assert ks == [ks[0]] + ks[1..];
    }
  }

  lemma {:induction false} AcceptsKey(k: string, p: Json, t: Token, s: Schema)
    requires t.Comb?
    ensures FormatKey(k, p, t, s).Ok? <==> ConformsKey(k, p, t, s)
    decreases Size(t), 0
  {
    var child := FindChild(t, k);
    if p.JObj? && HasField(p.fields, k) && child.Some? {
      AcceptsExactlyConforming(GetField(p.fields, k).value, child.value, false, At(s, k));
    }
  }

  // ----- the first fault decides the error --------------------------------------------------------

  /** Of several faulty elements the first one is reported, with its own error. */
  lemma {:induction false} ReportsFirstElement(ps: seq<Json>, t: Token, i: nat)
    requires i < |ps| && !Conforms(ps[i], t, true, None)
    requires forall j :: 0 <= j < i ==> Conforms(ps[j], t, true, None)
    ensures FormatAll(ps, t) == Format(ps[i], t, true, None) && FormatAll(ps, t).Err?
    decreases i
  {
    AcceptsExactlyConforming(ps[0], t, true, None);
    if i > 0 { ReportsFirstElement(ps[1..], t, i - 1); }
  }

  lemma {:induction false} ReportsFirstEntry(ps: seq<Json>, t: Token, onlyFormatMaps: bool, s: Option<Schema>, i: nat)
    requires t.Map? && i < |ps| && !ConformsEntry(ps[i], t, onlyFormatMaps, s)
    requires forall j :: 0 <= j < i ==> ConformsEntry(ps[j], t, onlyFormatMaps, s)
    ensures var r := FormatEntries(ps, t, onlyFormatMaps, s);
            r.Err? && FormatEntry(ps[i], t, onlyFormatMaps, s) == Err(r.error)
    decreases i
  {
    AcceptsEntry(ps[0], t, onlyFormatMaps, s);
    if i > 0 { ReportsFirstEntry(ps[1..], t, onlyFormatMaps, s, i - 1); }
  }

  /** Schema mode reports the first key, in schema order, that is missing or does not fit. */
  lemma {:induction false} ReportsFirstKey(ks: seq<string>, p: Json, t: Token, s: Schema, i: nat)
    requires t.Comb? && i < |ks| && !ConformsKey(ks[i], p, t, s)
    requires forall j :: 0 <= j < i ==> ConformsKey(ks[j], p, t, s)
    ensures FormatKeys(ks, p, t, s) == FormatKey(ks[i], p, t, s) && FormatKeys(ks, p, t, s).Err?
    decreases i
  {
    AcceptsKey(ks[0], p, t, s);
    if i > 0 { ReportsFirstKey(ks[1..], p, t, s, i - 1); }
  }

  /** Shape-preserving mode reports the first given field that has no child or does not fit. */
  lemma {:induction false} ReportsFirstField(fs: seq<Field>, t: Token, i: nat)
    requires t.Comb? && i < |fs| && !ConformsField(fs[i], t, true, None)
    requires forall j :: 0 <= j < i ==> ConformsField(fs[j], t, true, None)
    ensures FormatFields(fs, t).Err?
    ensures var child := FindChild(t, fs[i].name);
            if child.None? then FormatFields(fs, t).error == InvalidParameterName(fs[i].name)
            else Format(fs[i].value, child.value, true, None) == Err(FormatFields(fs, t).error)
    decreases i
  {
    var child := FindChild(t, fs[0].name);
    if child.Some? { AcceptsExactlyConforming(fs[0].value, child.value, true, None); }
    if i > 0 { ReportsFirstField(fs[1..], t, i - 1); }
  }

  // ----- the class of the error -------------------------------------------------------------------------

  /** The position of the first false, or the length. */
  function FirstFalse(bs: seq<bool>): (i: nat)
    ensures i <= |bs| && (forall j :: 0 <= j < i ==> bs[j]) && (i < |bs| ==> !bs[i])
  {
    if bs == [] || !bs[0] then 0 else 1 + FirstFalse(bs[1..])
  }

  function FirstBadElement(ps: seq<Json>, t: Token): (n: nat)
    ensures n <= |ps| && forall i :: 0 <= i < n ==> Conforms(ps[i], t, true, None)
    ensures n < |ps| ==> !Conforms(ps[n], t, true, None)
  {
    var bs := seq(|ps|, i requires 0 <= i < |ps| => Conforms(ps[i], t, true, None));
    assert forall i :: 0 <= i < |ps| ==> bs[i] == Conforms(ps[i], t, true, None);
    FirstFalse(bs)
  }

  function FirstBadEntry(ps: seq<Json>, t: Token, m: bool, s: Option<Schema>): (n: nat)
    requires t.Map?
    ensures n <= |ps| && forall i :: 0 <= i < n ==> ConformsEntry(ps[i], t, m, s)
    ensures n < |ps| ==> !ConformsEntry(ps[n], t, m, s)
  {
    var bs := seq(|ps|, i requires 0 <= i < |ps| => ConformsEntry(ps[i], t, m, s));
    assert forall i :: 0 <= i < |ps| ==> bs[i] == ConformsEntry(ps[i], t, m, s);
    FirstFalse(bs)
  }

  function FirstBadField(fs: seq<Field>, t: Token): (n: nat)
    requires t.Comb?
    ensures n <= |fs| && forall i :: 0 <= i < n ==> ConformsField(fs[i], t, true, None)
    ensures n < |fs| ==> !ConformsField(fs[n], t, true, None)
  {
    var bs := seq(|fs|, i requires 0 <= i < |fs| => ConformsField(fs[i], t, true, None));
    assert forall i :: 0 <= i < |fs| ==> bs[i] == ConformsField(fs[i], t, true, None);
    FirstFalse(bs)
  }

  function FirstBadKey(ks: seq<string>, p: Json, t: Token, s: Schema): (n: nat)
    requires t.Comb?
    ensures n <= |ks| && forall i :: 0 <= i < n ==> ConformsKey(ks[i], p, t, s)
    ensures n < |ks| ==> !ConformsKey(ks[n], p, t, s)
  {
    var bs := seq(|ks|, i requires 0 <= i < |ks| => ConformsKey(ks[i], p, t, s));
    assert forall i :: 0 <= i < |ks| ==> bs[i] == ConformsKey(ks[i], p, t, s);
    FirstFalse(bs)
  }

  /** The class named by the first clause of the relation that the value violates, in the order in which
      a reader meets them: a collection is looked into at its first part that does not conform. */
  function FirstFault(p: Json, t: Token, onlyFormatMaps: bool, s: Option<Schema>): Option<Error>
    decreases Size(t), 2
  {
    match t
    case Optional(_, a) => if p.JNull? then None else FirstFault(p, a, onlyFormatMaps, s)
    case Boolean(_) => if !SaysBoolean(p, true) && !SaysBoolean(p, false) then Some(InvalidBooleanParameter) else None
    case Scalar(_, _) => if IsScalar(p) then None else Some(UnSupportedParameterSchema)
    case List(_, a) => ElementFault(p, a)
    case Set(_, a) => ElementFault(p, a)
    case Map(_, _, _) =>
      if IsScalar(p) then None
      else if !p.JArr? then Some(InvalidMapStructureParams)
      else
        var i := FirstBadEntry(p.elems, t, onlyFormatMaps, s);
        if i == |p.elems| then None else EntryFault(p.elems[i], t, onlyFormatMaps, s)
    case Comb(_, kind, _) =>
      if IsScalar(p) then None
      else if p.JArr? then Some(InvalidParameter("array", "object"))
      else if kind == OrKind then VariantFault(p, t, onlyFormatMaps, s)
      else RecordFault(p, t, onlyFormatMaps, s)
  }

  function ElementFault(p: Json, elem: Token): Option<Error>
    decreases Size(elem), 3
  {
    if IsScalar(p) then None
    else if !p.JArr? then Some(InvalidParameter("object", "array"))
    else
      var i := FirstBadElement(p.elems, elem);
      if i == |p.elems| then None else FirstFault(p.elems[i], elem, true, None)
  }

  /** The structure of an entry comes before its key, and its key before its value. */
  function EntryFault(e: Json, t: Token, onlyFormatMaps: bool, s: Option<Schema>): Option<Error>
    requires t.Map?
    decreases Size(t), 0
  {
    if e.JNull? then Some(TypeError)
    else if !IsKeyValue(e) then Some(InvalidMapStructureParams)
    else if EntrySchema(s).Err? then Some(TypeError)
    else
      var sub, k, v := EntrySchema(s).value, e.fields[0].value, e.fields[1].value;
      if !Conforms(k, t.key, onlyFormatMaps, sub) then FirstFault(k, t.key, onlyFormatMaps, sub)
      else FirstFault(v, t.val, onlyFormatMaps, sub)
  }

  /** One variant, which the type has, with its schema, and with a value that conforms. */
  function VariantFault(p: Json, t: Token, onlyFormatMaps: bool, s: Option<Schema>): Option<Error>
    requires t.Comb?
    decreases Size(t), 1
  {
    if !p.JObj? then Some(TypeError)
    else if |p.fields| != 1 then Some(InvalidVariantObject(|p.fields|))
    else
      var f := p.fields[0];
      var child := FindChild(t, f.name);
      if child.None? then Some(InvalidParameterName(f.name))
      else if !onlyFormatMaps && s.None? then Some(TypeError)
      else FirstFault(f.value, child.value, onlyFormatMaps, if onlyFormatMaps then None else At(s.value, f.name))
  }

  function RecordFault(p: Json, t: Token, onlyFormatMaps: bool, s: Option<Schema>): Option<Error>
    requires t.Comb?
    decreases Size(t), 1
  {
    if onlyFormatMaps then
      if !p.JObj? then Some(TypeError)
      else
        var i := FirstBadField(p.fields, t);
        if i == |p.fields| then None
        else
          var f := p.fields[i];
          var child := FindChild(t, f.name);
          if child.None? then Some(InvalidParameterName(f.name)) else FirstFault(f.value, child.value, true, None)
    else if s.None? then Some(TypeError)
    else
      var keys := Keys(s.value);
      var i := FirstBadKey(keys, p, t, s.value);
      if i == |keys| then None else KeyFault(keys[i], p, t, s.value)
  }

  /** A value without the method `hasOwnProperty`, a key it lacks, an object for a field the type does not
      have, a value that does not conform. */
  function KeyFault(k: string, p: Json, t: Token, s: Schema): Option<Error>
    requires t.Comb?
    decreases Size(t), 0
  {
    if !p.JObj? || HasField(p.fields, "hasOwnProperty") then Some(TypeError)
    else if !HasField(p.fields, k) then Some(MissingParameter(k))
    else
      var v, child := GetField(p.fields, k).value, FindChild(t, k);
      if child.Some? then FirstFault(v, child.value, false, At(s, k))
      else if !IsScalar(v) then Some(TypeError)
      else None
  }

  function ErrorOf<T>(r: Result<T, Error>): Option<Error> {
    if r.Err? then Some(r.error) else None
  }

  /** The formatter fails exactly with the class of the first fault, and not at all when there is none. */
  lemma {:induction false} FailsWithFirstFault(p: Json, t: Token, onlyFormatMaps: bool, s: Option<Schema>)
    ensures ErrorOf(Format(p, t, onlyFormatMaps, s)) == FirstFault(p, t, onlyFormatMaps, s)
    decreases Size(t), 2
  {
    hide AsBoolean, SaysBoolean;
    match t
    case Boolean(_) => BooleansAreSaid(p);
    case Optional(_, a) => FailsWithFirstFault(p, a, onlyFormatMaps, s);
    case List(_, a) => ElementsFail(p, a);
    case Set(_, a) => ElementsFail(p, a);
    case Map(_, _, _) => if p.JArr? { EntriesFail(p.elems, t, onlyFormatMaps, s); }
    case Comb(_, kind, _) =>
      if p.JObj? && kind == OrKind {
        if |p.fields| == 1 && FindChild(t, p.fields[0].name).Some? && (onlyFormatMaps || s.Some?) {
          FailsWithFirstFault(p.fields[0].value, FindChild(t, p.fields[0].name).value, onlyFormatMaps,
                              if onlyFormatMaps then None else At(s.value, p.fields[0].name));
        }
      } else if kind == PairKind && onlyFormatMaps && p.JObj? {
        FieldsFail(p.fields, t);
      } else if kind == PairKind && !onlyFormatMaps && s.Some? && !p.JArr? {
        KeysFail(Keys(s.value), p, t, s.value);
      }
    case _ =>
  }

  lemma {:induction false} ElementsFail(p: Json, elem: Token)
    ensures IsObjectType(p) ==> ErrorOf(FormatElements(p, elem)) == ElementFault(p, elem)
    decreases Size(elem), 3
  {
    if p.JArr? {
      var i := FirstBadElement(p.elems, elem);
      if i < |p.elems| {
        ReportsFirstElement(p.elems, elem, i);
        FailsWithFirstFault(p.elems[i], elem, true, None);
      } else {
        AcceptsElements(p.elems, elem);
      }
    }
  }

  lemma {:induction false} EntriesFail(ps: seq<Json>, t: Token, onlyFormatMaps: bool, s: Option<Schema>)
    requires t.Map?
    ensures var i := FirstBadEntry(ps, t, onlyFormatMaps, s);
            ErrorOf(FormatEntries(ps, t, onlyFormatMaps, s))
            == if i == |ps| then None else EntryFault(ps[i], t, onlyFormatMaps, s)
    decreases Size(t), 1
  {
    var i := FirstBadEntry(ps, t, onlyFormatMaps, s);
    if i < |ps| {
      ReportsFirstEntry(ps, t, onlyFormatMaps, s, i);
      EntryFails(ps[i], t, onlyFormatMaps, s);
    } else {
      AcceptsEntries(ps, t, onlyFormatMaps, s);
    }
  }

  lemma {:induction false} EntryFails(e: Json, t: Token, onlyFormatMaps: bool, s: Option<Schema>)
    requires t.Map?
    ensures ErrorOf(FormatEntry(e, t, onlyFormatMaps, s)) == EntryFault(e, t, onlyFormatMaps, s)
    decreases Size(t), 0
  {
    if IsEntry(e) && EntrySchema(s).Ok? {
      var sub := EntrySchema(s).value;
      AcceptsExactlyConforming(e.fields[0].value, t.key, onlyFormatMaps, sub);
      FailsWithFirstFault(e.fields[0].value, t.key, onlyFormatMaps, sub);
      FailsWithFirstFault(e.fields[1].value, t.val, onlyFormatMaps, sub);
    }
  }

  lemma {:induction false} FieldsFail(fs: seq<Field>, t: Token)
    requires IsComb(t, PairKind)
    ensures ErrorOf(FormatFields(fs, t)) == RecordFault(JObj(fs), t, true, None)
    decreases Size(t), 1
  {
    var i := FirstBadField(fs, t);
    if i < |fs| {
      ReportsFirstField(fs, t, i);
      var child := FindChild(t, fs[i].name);
      if child.Some? { FailsWithFirstFault(fs[i].value, child.value, true, None); }
    } else {
      AcceptsFields(fs, t);
    }
  }

  lemma {:induction false} KeysFail(ks: seq<string>, p: Json, t: Token, s: Schema)
    requires t.Comb?
    ensures var i := FirstBadKey(ks, p, t, s);
            ErrorOf(FormatKeys(ks, p, t, s)) == if i == |ks| then None else KeyFault(ks[i], p, t, s)
    decreases Size(t), 1
  {
    var i := FirstBadKey(ks, p, t, s);
    if i < |ks| {
      ReportsFirstKey(ks, p, t, s, i);
      if p.JObj? && HasField(p.fields, ks[i]) && FindChild(t, ks[i]).Some? {
        FailsWithFirstFault(GetField(p.fields, ks[i]).value, FindChild(t, ks[i]).value, false, At(s, ks[i]));
      }
    } else {
      AcceptsKeys(ks, p, t, s);
    }
  }
}
