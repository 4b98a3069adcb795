/** The shape-preserving mode of the formatter loses nothing but duplicate map keys. */
module RoundTrip {
  import opened Wrappers
  import opened Tokens
  import opened Formatter
  import opened Acceptance

  // ----- back to JSON -------------------------------------------------------------------------------

  /** A MichelsonMap becomes its list of {key, value} objects again. */
  function Erase(a: Arg): Json
    decreases a
  {
    match a
    case AUndefined => JNull
    case ANull => JNull
    case ABool(b) => JBool(b)
    case ANum(n) => JNum(n)
    case AStr(s) => JStr(s)
    case AArr(es) => JArr(seq(|es|, i requires 0 <= i < |es| => Erase(es[i])))
    case AObj(fs) => JObj(seq(|fs|, i requires 0 <= i < |fs| => Field(fs[i].name, Erase(fs[i].value))))
    case AMap(es) =>
      JArr(seq(|es|, i requires 0 <= i < |es| =>
        JObj([Field("key", Erase(es[i].key)), Field("value", Erase(es[i].value))])))
  }

  /** No string stands where the type has a boolean. */
  predicate NoBooleanStrings(p: Json, t: Token)
    decreases Size(t)
  {
    match t
    case Optional(_, a) => p.JNull? || NoBooleanStrings(p, a)
    case Boolean(_) => !p.JStr?
    case List(_, a) => p.JArr? ==> forall i :: 0 <= i < |p.elems| ==> NoBooleanStrings(p.elems[i], a)
    case Set(_, a) => p.JArr? ==> forall i :: 0 <= i < |p.elems| ==> NoBooleanStrings(p.elems[i], a)
    case Map(_, k, v) =>
      p.JArr? ==> forall i :: 0 <= i < |p.elems| && p.elems[i].JObj? && |p.elems[i].fields| == 2 ==>
        NoBooleanStrings(p.elems[i].fields[0].value, k) && NoBooleanStrings(p.elems[i].fields[1].value, v)
    case Comb(_, _, _) =>
      p.JObj? ==>
        forall i :: 0 <= i < |p.fields| && FindChild(t, p.fields[i].name).Some? ==>
          NoBooleanStrings(p.fields[i].value, FindChild(t, p.fields[i].name).value)
    case _ => true
  }

  /** The input itself, with the boolean strings of boolean positions turned into booleans. */
  function Booleans(p: Json, t: Token): Json
    decreases Size(t), 1
  {
    match t
    case Optional(_, a) => if p.JNull? then p else Booleans(p, a)
    case Boolean(_) =>
      if p.JStr? && IsTrueWord(p.s) then JBool(true) else if p.JStr? && IsFalseWord(p.s) then JBool(false) else p
    case List(_, a) => BooleansAll(p, a)
    case Set(_, a) => BooleansAll(p, a)
    case Map(_, k, v) =>
      if !p.JArr? then p
      else JArr(seq(|p.elems|, i requires 0 <= i < |p.elems| =>
        var e := p.elems[i];
        if IsEntry(e) then
          JObj([Field("key", Booleans(e.fields[0].value, k)), Field("value", Booleans(e.fields[1].value, v))])
        else e))
    case Comb(_, _, _) =>
      if !p.JObj? then p
      else JObj(seq(|p.fields|, i requires 0 <= i < |p.fields| => BooleansField(p.fields[i], t)))
    case Scalar(_, _) => p
  }

  function BooleansAll(p: Json, t: Token): Json
    decreases Size(t), 2
  {
    if !p.JArr? then p
    else JArr(seq(|p.elems|, i requires 0 <= i < |p.elems| => Booleans(p.elems[i], t)))
  }

  function BooleansField(f: Field, t: Token): Field
    requires t.Comb?
    decreases Size(t), 0
  {
    var child := FindChild(t, f.name);
    if child.None? then f else Field(f.name, Booleans(f.value, child.value))
  }

  // ----- distinct keys ------------------------------------------------------------------------------

  predicate Distinct(es: seq<ArgEntry>) {
    forall i, j :: 0 <= i < j < |es| ==> !SameKey(es[i].key, es[j].key)
  }

  /** No map in the value repeats a key, once its keys are formatted. */
  predicate DistinctKeys(p: Json, t: Token)
    decreases Size(t)
  {
    match t
    case Optional(_, a) => p.JNull? || DistinctKeys(p, a)
    case List(_, a) => p.JArr? ==> forall i :: 0 <= i < |p.elems| ==> DistinctKeys(p.elems[i], a)
    case Set(_, a) => p.JArr? ==> forall i :: 0 <= i < |p.elems| ==> DistinctKeys(p.elems[i], a)
    case Map(_, k, v) =>
      p.JArr? ==>
        && (var es := FormatEntries(p.elems, t, true, None); es.Ok? ==> Distinct(es.value))
        && forall i :: 0 <= i < |p.elems| && IsEntry(p.elems[i]) ==>
             DistinctKeys(p.elems[i].fields[0].value, k) && DistinctKeys(p.elems[i].fields[1].value, v)
    case Comb(_, _, _) =>
      p.JObj? ==>
        forall i :: 0 <= i < |p.fields| && FindChild(t, p.fields[i].name).Some? ==>
          DistinctKeys(p.fields[i].value, FindChild(t, p.fields[i].name).value)
    case _ => true
  }

  lemma {:induction false} MapSetLength(m: seq<ArgEntry>, e: ArgEntry)
    ensures if exists i :: 0 <= i < |m| && SameKey(m[i].key, e.key)
            then |MapSet(m, e)| == |m| else MapSet(m, e) == m + [e]
  {
    if m != [] && !SameKey(m[0].key, e.key) {
      MapSetLength(m[1..], e);
      if i :| 0 <= i < |m| && SameKey(m[i].key, e.key) {
        assert m[1..][i - 1] == m[i];
      }
      assert m == [m[0]] + m[1..];
    }
  }

  /** A MichelsonMap holds every entry it was given exactly when no key came twice. */
  lemma {:induction false} MapKeepsDistinctEntries(es: seq<ArgEntry>)
    ensures if Distinct(es) then MapOf(es) == es else |MapOf(es)| < |es|
  {
    if es != [] {
      var before, last := es[..|es| - 1], es[|es| - 1];
      MapKeepsDistinctEntries(before);
      MapSetLength(MapOf(before), last);
      assert es == before + [last];
      if Distinct(before) {
        assert Distinct(es) <==> !exists i :: 0 <= i < |before| && SameKey(before[i].key, last.key);
      } else {
        var i, j :| 0 <= i < j < |before| && SameKey(before[i].key, before[j].key);
        assert SameKey(es[i].key, es[j].key);
      }
    }
  }

  // ----- the round trip -----------------------------------------------------------------------------

  /** Every successful call in shape-preserving mode returns one argument; erased, it is the input
      with boolean strings made booleans, if and only if no map in the input repeats a key. */
  lemma {:induction false} ShapeRoundTrip(p: Json, t: Token)
    requires Format(p, t, true, None).Ok?
    ensures var r := Format(p, t, true, None).value;
            |r| == 1 && (Erase(r[0]) == Booleans(p, t) <==> DistinctKeys(p, t))
    decreases Size(t), 2, 0
  {
    match t
    case Optional(_, a) => if !p.JNull? { ShapeRoundTrip(p, a); }
    case Boolean(_) => if p.JStr? { WordsAreUpper(p.s); }
    case List(_, a) => if p.JArr? { ArrayRoundTrip(p, a); }
    case Set(_, a) => if p.JArr? { ArrayRoundTrip(p, a); }
    case Map(_, _, _) => if p.JArr? { EntriesRoundTrip(p, t); }
    case Comb(_, kind, _) =>
      if p.JObj? {
        if kind == OrKind {
          var f := p.fields[0];
          ShapeRoundTrip(f.value, FindChild(t, f.name).value);
          var r := Format(p, t, true, None).value;
          assert Erase(r[0]).fields[0] == BooleansField(f, t) <==> Erase(r[0]).fields == Booleans(p, t).fields;
        } else {
          RecordRoundTrip(p, t);
        }
      }
    case Scalar(_, _) =>
  }

  lemma {:induction false} ElementsRoundTrip(ps: seq<Json>, t: Token)
    requires FormatAll(ps, t).Ok?
    ensures var r := FormatAll(ps, t).value;
            |r| == |ps| && forall i :: 0 <= i < |ps| ==>
              (Erase(r[i]) == Booleans(ps[i], t) <==> DistinctKeys(ps[i], t))
    decreases Size(t), 3, |ps|
  {
    hide Format, Booleans, DistinctKeys, Erase;
    if ps != [] {
      ShapeRoundTrip(ps[0], t);
      ElementsRoundTrip(ps[1..], t);
    }
  }

  lemma {:induction false} ArrayRoundTrip(p: Json, t: Token)
    requires p.JArr? && FormatAll(p.elems, t).Ok?
    ensures Erase(AArr(FormatAll(p.elems, t).value)) == BooleansAll(p, t) <==>
            forall i :: 0 <= i < |p.elems| ==> DistinctKeys(p.elems[i], t)
    decreases Size(t), 4
  {
    ElementsRoundTrip(p.elems, t);
    var erased, wanted := Erase(AArr(FormatAll(p.elems, t).value)).elems, BooleansAll(p, t).elems;
    if erased == wanted {
      forall i | 0 <= i < |p.elems| ensures DistinctKeys(p.elems[i], t) {
        assert erased[i] == wanted[i];
      }
    }
  }

  lemma {:induction false} FieldsRoundTrip(p: Json, t: Token)
    requires t.Comb? && p.JObj? && FormatFields(p.fields, t).Ok?
    ensures var r := FormatFields(p.fields, t).value;
            |r| == |p.fields| && forall i :: 0 <= i < |p.fields| ==>
              FindChild(t, p.fields[i].name).Some?
              && r[i].name == p.fields[i].name
              && (Field(r[i].name, Erase(r[i].value)) == BooleansField(p.fields[i], t) <==>
                  DistinctKeys(p.fields[i].value, FindChild(t, p.fields[i].name).value))
    decreases Size(t), 0, |p.fields|
  {
    if p.fields != [] {
      var f := p.fields[0];
      ShapeRoundTrip(f.value, FindChild(t, f.name).value);
      FieldsRoundTrip(JObj(p.fields[1..]), t);
    }
  }

  lemma {:induction false} RecordRoundTrip(p: Json, t: Token)
    requires t.Comb? && p.JObj? && FormatFields(p.fields, t).Ok?
    ensures Erase(AObj(FormatFields(p.fields, t).value)) == Booleans(p, t) <==> DistinctKeys(p, t)
    decreases Size(t), 1, 0
  {
    FieldsRoundTrip(p, t);
    var erased, wanted := Erase(AObj(FormatFields(p.fields, t).value)).fields, Booleans(p, t).fields;
    if erased == wanted {
      forall i | 0 <= i < |p.fields|
        ensures DistinctKeys(p.fields[i].value, FindChild(t, p.fields[i].name).value)
      {
        assert erased[i] == wanted[i];
      }
    }
  }

  lemma {:induction false} EntryValuesRoundTrip(ps: seq<Json>, t: Token)
    requires t.Map? && FormatEntries(ps, t, true, None).Ok?
    ensures var es := FormatEntries(ps, t, true, None).value;
            |es| == |ps| && forall i :: 0 <= i < |ps| ==>
              IsEntry(ps[i])
              && (Erase(es[i].key) == Booleans(ps[i].fields[0].value, t.key) <==>
                  DistinctKeys(ps[i].fields[0].value, t.key))
              && (Erase(es[i].value) == Booleans(ps[i].fields[1].value, t.val) <==>
                  DistinctKeys(ps[i].fields[1].value, t.val))
    decreases Size(t), 0, |ps|
  {
    if ps != [] {
      ShapeRoundTrip(ps[0].fields[0].value, t.key);
      ShapeRoundTrip(ps[0].fields[1].value, t.val);
      EntryValuesRoundTrip(ps[1..], t);
    }
  }

  lemma {:induction false} EntriesRoundTrip(p: Json, t: Token)
    requires t.Map? && p.JArr? && FormatEntries(p.elems, t, true, None).Ok?
    ensures var es := FormatEntries(p.elems, t, true, None).value;
            Erase(AMap(MapOf(es))) == Booleans(p, t) <==> DistinctKeys(p, t)
    decreases Size(t), 1, 0
  {
    var es := FormatEntries(p.elems, t, true, None).value;
    EntryValuesRoundTrip(p.elems, t);
    MapKeepsDistinctEntries(es);
    var erased, wanted := Erase(AMap(MapOf(es))).elems, Booleans(p, t).elems;
    if erased == wanted {
      forall i | 0 <= i < |p.elems|
        ensures DistinctKeys(p.elems[i].fields[0].value, t.key) && DistinctKeys(p.elems[i].fields[1].value, t.val)
      {
        assert erased[i] == wanted[i];
        assert erased[i].fields[0] == wanted[i].fields[0] && erased[i].fields[1] == wanted[i].fields[1];
      }
    }
  }

  // ----- without boolean strings --------------------------------------------------------------------

  lemma {:induction false} BooleansIsItself(p: Json, t: Token)
    requires NoBooleanStrings(p, t)
    ensures Booleans(p, t) == p
    decreases Size(t), 1
  {
    match t
    case Optional(_, a) => if !p.JNull? { BooleansIsItself(p, a); }
    case List(_, a) => if p.JArr? { ElementsAreThemselves(p, a); }
    case Set(_, a) => if p.JArr? { ElementsAreThemselves(p, a); }
    case Map(_, k, v) =>
      if p.JArr? {
        forall i | 0 <= i < |p.elems| ensures Booleans(p, t).elems[i] == p.elems[i] {
          var e := p.elems[i];
          if IsEntry(e) {
            BooleansIsItself(e.fields[0].value, k);
            BooleansIsItself(e.fields[1].value, v);
            assert e.fields == [Field("key", e.fields[0].value), Field("value", e.fields[1].value)];
          }
        }
        assert Booleans(p, t).elems == p.elems;
      }
    case Comb(_, _, _) =>
      if p.JObj? {
        forall i | 0 <= i < |p.fields| ensures BooleansField(p.fields[i], t) == p.fields[i] {
          var child := FindChild(t, p.fields[i].name);
          if child.Some? { BooleansIsItself(p.fields[i].value, child.value); }
        }
        assert Booleans(p, t).fields == p.fields;
      }
    case _ =>
  }

  lemma {:induction false} ElementsAreThemselves(p: Json, a: Token)
    requires p.JArr? && forall i :: 0 <= i < |p.elems| ==> NoBooleanStrings(p.elems[i], a)
    ensures BooleansAll(p, a) == p
    decreases Size(a), 2
  {
    forall i | 0 <= i < |p.elems| ensures Booleans(p.elems[i], a) == p.elems[i] { BooleansIsItself(p.elems[i], a); }
    assert BooleansAll(p, a).elems == p.elems;
  }

  /** A body without boolean strings comes back as it is, if and only if no map in it repeats a key. */
  lemma BodyRoundTrip(p: Json, t: Token)
    requires Format(p, t, true, None).Ok? && NoBooleanStrings(p, t)
    ensures var r := Format(p, t, true, None).value; |r| == 1 && (Erase(r[0]) == p <==> DistinctKeys(p, t))
  {
    ShapeRoundTrip(p, t);
    BooleansIsItself(p, t);
  }
}
