/** Layout independence: how unnamed pairs and ors are nested changes neither what a name finds
    nor what the formatter returns, as long as nothing is called "0". */
module Layout {
  import opened Wrappers
  import opened Tokens
  import opened Formatter
  import Decimal

  // ----- types that differ only in how unnamed combs are nested -----------------------------------

  /** The fields or variants of a comb: what is left after dissolving unnamed combs of its kind. */
  function Frontier(args: seq<Token>, kind: CombKind): (r: seq<Token>)
    ensures SizeAll(r) <= SizeAll(args)
    decreases args
  {
    if args == [] then []
    else
      var head :=
        if IsComb(args[0], kind) && args[0].name.None? then Frontier(args[0].args, kind) else [args[0]];
      var tail := Frontier(args[1..], kind);
      SizeAllAppend(head, tail);
      head + tail
  }

  predicate SameType(t: Token, u: Token)
    decreases Size(t), 0
  {
    t.name == u.name
    && match t
       case Scalar(_, prim) => u.Scalar? && u.prim == prim
       case Boolean(_) => u.Boolean?
       case Optional(_, a) => u.Optional? && SameType(a, u.arg)
       case List(_, a) => u.List? && SameType(a, u.arg)
       case Set(_, a) => u.Set? && SameType(a, u.arg)
       case Map(_, k, v) => u.Map? && SameType(k, u.key) && SameType(v, u.val)
       case Comb(_, kind, args) =>
         u.Comb? && u.kind == kind && SameTypes(Frontier(args, kind), Frontier(u.args, kind))
  }

  predicate SameTypes(ts: seq<Token>, us: seq<Token>)
    decreases SizeAll(ts), 1
  {
    |ts| == |us| && (ts == [] || (SameType(ts[0], us[0]) && SameTypes(ts[1..], us[1..])))
  }

  lemma {:induction false} SameTypesAt(ts: seq<Token>, us: seq<Token>, i: nat)
    requires SameTypes(ts, us) && i < |ts|
    ensures SameType(ts[i], us[i])
  {
    if i > 0 { SameTypesAt(ts[1..], us[1..], i - 1); }
  }

  lemma {:induction false} SameTypesReflexive(ts: seq<Token>)
    ensures SameTypes(ts, ts)
    decreases SizeAll(ts), 1
  {
    if ts != [] {
      SameTypeReflexive(ts[0]);
      SameTypesReflexive(ts[1..]);
    }
  }

  lemma {:induction false} SameTypeReflexive(t: Token)
    ensures SameType(t, t)
    decreases Size(t), 0
  {
    match t
    case Optional(_, a) => SameTypeReflexive(a);
    case List(_, a) => SameTypeReflexive(a);
    case Set(_, a) => SameTypeReflexive(a);
    case Map(_, k, v) => SameTypeReflexive(k); SameTypeReflexive(v);
    case Comb(_, kind, args) => SameTypesReflexive(Frontier(args, kind));
    case _ =>
  }

  lemma {:induction false} SameTypesEquivalence(ts: seq<Token>, us: seq<Token>, vs: seq<Token>)
    ensures SameTypes(ts, us) ==> SameTypes(us, ts)
    ensures SameTypes(ts, us) && SameTypes(us, vs) ==> SameTypes(ts, vs)
    decreases SizeAll(ts), 1
  {
    if ts != [] && us != [] {
      SameTypeEquivalence(ts[0], us[0], if vs == [] then us[0] else vs[0]);
      SameTypesEquivalence(ts[1..], us[1..], if vs == [] then [] else vs[1..]);
    }
  }

  /** With SameTypeReflexive: an equivalence relation on types. */
  lemma {:induction false} SameTypeEquivalence(t: Token, u: Token, v: Token)
    ensures SameType(t, u) ==> SameType(u, t)
    ensures SameType(t, u) && SameType(u, v) ==> SameType(t, v)
    decreases Size(t), 0
  {
    if SameType(t, u) {
      match t
      case Optional(_, a) => SameTypeEquivalence(a, u.arg, if v.Optional? then v.arg else u.arg);
      case List(_, a) => SameTypeEquivalence(a, u.arg, if v.List? then v.arg else u.arg);
      case Set(_, a) => SameTypeEquivalence(a, u.arg, if v.Set? then v.arg else u.arg);
      case Map(_, k, x) =>
        SameTypeEquivalence(k, u.key, if v.Map? then v.key else u.key);
        SameTypeEquivalence(x, u.val, if v.Map? then v.val else u.val);
      case Comb(_, kind, args) =>
        SameTypesEquivalence(Frontier(args, kind), Frontier(u.args, kind),
                             if v.Comb? then Frontier(v.args, kind) else []);
      case _ =>
    }
  }

  lemma {:induction false} FrontierAppend(a: seq<Token>, b: seq<Token>, kind: CombKind)
    ensures Frontier(a + b, kind) == Frontier(a, kind) + Frontier(b, kind)
  {
    if a == [] {
      assert a + b == b;
    } else {
      assert (a + b)[1..] == a[1..] + b;
      FrontierAppend(a[1..], b, kind);
    }
  }

  /** The one re-association step: wrapping any stretch of children in an unnamed comb of the same
      kind leaves the type the same. Left combs, right combs and n-ary combs are all one type. */
  lemma {:induction false} Reassociate(
    name: Option<string>, kind: CombKind, before: seq<Token>, middle: seq<Token>, after: seq<Token>)
    ensures SameType(Comb(name, kind, before + [Comb(None, kind, middle)] + after),
                     Comb(name, kind, before + middle + after))
  {
    var wrapped := [Comb(None, kind, middle)];
    assert Frontier(wrapped, kind) == Frontier(middle, kind) by { assert wrapped[1..] == []; }
    FrontierAppend(before + wrapped, after, kind);
    FrontierAppend(before, wrapped, kind);
    FrontierAppend(before + middle, after, kind);
    FrontierAppend(before, middle, kind);
    SameTypesReflexive(Frontier(before + middle + after, kind));
  }

  // ----- the lookup -----------------------------------------------------------------------------------

  lemma {:induction false} FindInAppend(a: seq<Token>, b: seq<Token>, name: string, kind: CombKind)
    ensures FindIn(a + b, name, kind) ==
            if FindIn(a, name, kind).Some? then FindIn(a, name, kind) else FindIn(b, name, kind)
  {
    if a == [] {
      assert a + b == b;
    } else {
      assert (a + b)[1..] == a[1..] + b;
      FindInAppend(a[1..], b, name, kind);
    }
  }

  lemma {:induction false} FindInFrontier(args: seq<Token>, name: string, kind: CombKind)
    requires name != UNNAMED
    ensures FindIn(Frontier(args, kind), name, kind) == FindIn(args, name, kind)
    decreases args
  {
    if args != [] {
      var t := args[0];
      FindInFrontier(args[1..], name, kind);
      if IsComb(t, kind) && t.name.None? {
        FindInFrontier(t.args, name, kind);
        FindInAppend(Frontier(t.args, kind), Frontier(args[1..], kind), name, kind);
      } else {
        assert Frontier(args, kind)[1..] == Frontier(args[1..], kind);
      }
    }
  }

  predicate SameFinding(r: Option<Token>, q: Option<Token>) {
    r.Some? == q.Some? && (r.Some? ==> SameType(r.value, q.value))
  }

  lemma {:induction false} SameFindingIn(ts: seq<Token>, us: seq<Token>, name: string, kind: CombKind)
    requires name != UNNAMED && SameTypes(ts, us)
    ensures SameFinding(FindIn(ts, name, kind), FindIn(us, name, kind))
    decreases SizeAll(ts), 1, |ts|
  {
    if ts != [] {
      SameFindingIn(ts[1..], us[1..], name, kind);
      if IsComb(ts[0], kind) { LookupIgnoresLayout(ts[0], us[0], name); }
    }
  }

  lemma {:induction false} LookupIgnoresLayout(t: Token, u: Token, name: string)
    requires t.Comb? && SameType(t, u) && name != "0"
    ensures SameFinding(FindChild(t, name), FindChild(u, name))
    decreases Size(t), 0
  {
    SameFindingIn(Frontier(t.args, t.kind), Frontier(u.args, u.kind), name, t.kind);
    FindInFrontier(t.args, name, t.kind);
    FindInFrontier(u.args, name, t.kind);
  }

  /** Exactly one name is layout dependent: the one that every unannotated node answers to. */
  lemma {:induction false} LookupIgnoresLayoutExactly(name: string)
    ensures name != "0" <==>
            forall t: Token, u: Token | t.Comb? && SameType(t, u) ::
              SameFinding(FindChild(t, name), FindChild(u, name))
  {
    if name != UNNAMED {
      forall t: Token, u: Token | t.Comb? && SameType(t, u)
        ensures SameFinding(FindChild(t, name), FindChild(u, name))
      {
        LookupIgnoresLayout(t, u, name);
      }
    } else {
      var a, b := Boolean(Some("a")), Boolean(Some("b"));
      var nested := Comb(None, PairKind, [] + [Comb(None, PairKind, [a])] + [b]);
      var flat := Comb(None, PairKind, [] + [a] + [b]);
      Reassociate(None, PairKind, [], [a], [b]);
      assert SameType(nested, flat);
      assert FindChild(nested, name).Some?;
      assert flat.args == [a, b] && flat.args[1..] == [b] && flat.args[1..][1..] == [];
      assert "a"[0] != name[0] && "b"[0] != name[0];
      assert FindIn([b], name, PairKind).None?;
      assert FindChild(flat, name).None?;
    }
  }

  // ----- the formatter ----------------------------------------------------------------------------------

  /** No object anywhere in the value has a field called "0". */
  predicate NoUnnamedKey(p: Json)
    decreases p
  {
    match p
    case JArr(es) => forall i :: 0 <= i < |es| ==> NoUnnamedKey(es[i])
    case JObj(fs) => forall i :: 0 <= i < |fs| ==> fs[i].name != "0" && NoUnnamedKey(fs[i].value)
    case _ => true
  }

  /** The formatter returns the same arguments, or the same error, for every layout of the type,
      in both modes and under any schema. */
  lemma {:induction false} FormatIgnoresLayout(p: Json, t: Token, u: Token, onlyFormatMaps: bool, s: Option<Schema>)
    requires SameType(t, u) && NoUnnamedKey(p)
    ensures Format(p, t, onlyFormatMaps, s) == Format(p, u, onlyFormatMaps, s)
    decreases Size(t), 2, 0
  {
    match t
    case Optional(_, a) => FormatIgnoresLayout(p, a, u.arg, onlyFormatMaps, s);
    case List(_, a) => if p.JArr? { AllIgnoreLayout(p.elems, a, u.arg); }
    case Set(_, a) => if p.JArr? { AllIgnoreLayout(p.elems, a, u.arg); }
    case Map(_, _, _) => if p.JArr? { EntriesIgnoreLayout(p.elems, t, u, onlyFormatMaps, s); }
    case Comb(_, kind, _) =>
      if p.JObj? {
        if kind == OrKind {
          VariantIgnoresLayout(p, t, u, onlyFormatMaps, s);
        } else if onlyFormatMaps {
          FieldsIgnoreLayout(p.fields, t, u);
        } else if s.Some? {
          KeysIgnoreLayout(Keys(s.value), p, t, u, s.value);
        }
      } else if p.JNull? && kind == PairKind && !onlyFormatMaps && s.Some? {
        KeysIgnoreLayout(Keys(s.value), p, t, u, s.value);
      }
    case _ =>
  }

  lemma {:induction false} AllIgnoreLayout(ps: seq<Json>, t: Token, u: Token)
    requires SameType(t, u) && forall i :: 0 <= i < |ps| ==> NoUnnamedKey(ps[i])
    ensures FormatAll(ps, t) == FormatAll(ps, u)
    decreases Size(t), 3, |ps|
  {
    if ps != [] {
      FormatIgnoresLayout(ps[0], t, u, true, None);
      AllIgnoreLayout(ps[1..], t, u);
    }
  }

  lemma {:induction false} VariantIgnoresLayout(p: Json, t: Token, u: Token, onlyFormatMaps: bool, s: Option<Schema>)
    requires t.Comb? && SameType(t, u) && p.JObj? && NoUnnamedKey(p)
    ensures FormatVariant(p, t, onlyFormatMaps, s) == FormatVariant(p, u, onlyFormatMaps, s)
    decreases Size(t), 1, 0
  {
    if |p.fields| == 1 {
      var f := p.fields[0];
      LookupIgnoresLayout(t, u, f.name);
      if FindChild(t, f.name).Some? {
        var sub := if onlyFormatMaps || s.None? then None else At(s.value, f.name);
        FormatIgnoresLayout(f.value, FindChild(t, f.name).value, FindChild(u, f.name).value, onlyFormatMaps, sub);
      }
    }
  }

  lemma {:induction false} FieldsIgnoreLayout(fields: seq<Field>, t: Token, u: Token)
    requires t.Comb? && SameType(t, u) && NoUnnamedKey(JObj(fields))
    ensures FormatFields(fields, t) == FormatFields(fields, u)
    decreases Size(t), 0, |fields|
  {
    if fields != [] {
      var f := fields[0];
      LookupIgnoresLayout(t, u, f.name);
      if FindChild(t, f.name).Some? {
        FormatIgnoresLayout(f.value, FindChild(t, f.name).value, FindChild(u, f.name).value, true, None);
      }
      FieldsIgnoreLayout(fields[1..], t, u);
    }
  }

  lemma {:induction false} KeysIgnoreLayout(keys: seq<string>, p: Json, t: Token, u: Token, s: Schema)
    requires t.Comb? && SameType(t, u) && NoUnnamedKey(p)
    ensures FormatKeys(keys, p, t, s) == FormatKeys(keys, p, u, s)
    decreases Size(t), 0, |keys|
  {
    hide FormatKey;
    if keys != [] {
      KeyIgnoresLayout(keys[0], p, t, u, s);
      KeysIgnoreLayout(keys[1..], p, t, u, s);
    }
  }

  lemma {:induction false} KeyIgnoresLayout(key: string, p: Json, t: Token, u: Token, s: Schema)
    requires t.Comb? && SameType(t, u) && NoUnnamedKey(p)
    ensures FormatKey(key, p, t, s) == FormatKey(key, p, u, s)
    decreases Size(t), 0, 0
  {
    hide Format;
    if p.JObj? && HasField(p.fields, key) {
      FieldHasNoUnnamedKey(p, key);
      LookupIgnoresLayout(t, u, key);
      var given, child, other := GetField(p.fields, key).value, FindChild(t, key), FindChild(u, key);
      if child.Some? { FormatIgnoresLayout(given, child.value, other.value, false, At(s, key)); }
    }
  }

  lemma FieldHasNoUnnamedKey(p: Json, key: string)
    requires p.JObj? && HasField(p.fields, key) && NoUnnamedKey(p)
    ensures key != UNNAMED && NoUnnamedKey(GetField(p.fields, key).value)
  {
    var i :| 0 <= i < |p.fields| && p.fields[i] == Field(key, GetField(p.fields, key).value);
  }

  lemma {:induction false} EntriesIgnoreLayout(
    ps: seq<Json>, t: Token, u: Token, onlyFormatMaps: bool, s: Option<Schema>)
    requires t.Map? && SameType(t, u) && forall i :: 0 <= i < |ps| ==> NoUnnamedKey(ps[i])
    ensures FormatEntries(ps, t, onlyFormatMaps, s) == FormatEntries(ps, u, onlyFormatMaps, s)
    decreases Size(t), 1, |ps|
  {
    if ps != [] {
      if IsEntry(ps[0]) && EntrySchema(s).Ok? {
        FormatIgnoresLayout(ps[0].fields[0].value, t.key, u.key, onlyFormatMaps, EntrySchema(s).value);
        FormatIgnoresLayout(ps[0].fields[1].value, t.val, u.val, onlyFormatMaps, EntrySchema(s).value);
      }
      EntriesIgnoreLayout(ps[1..], t, u, onlyFormatMaps, s);
    }
  }
}
