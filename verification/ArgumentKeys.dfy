/** MichelsonMap as the formatter fills it: when two keys are the same, and which entries it ends up with. */
module ArgumentKeys {
  import opened Wrappers
  import opened Formatter

  // ----- places in an argument ------------------------------------------------------------------------------

  datatype Step = Index(i: nat) | Name(name: string)

  // What an argument is at one place: a primitive or map, or a list or object of a size.
  datatype Head = Primitive(a: Arg) | AList(size: nat) | AnObject(size: nat)

  predicate DistinctNames(fs: seq<ArgField>) {
    forall i, j :: 0 <= i < j < |fs| ==> fs[i].name != fs[j].name
  }

  /** Every object has each field once. */
  predicate IsJs(a: Arg)
    decreases a
  {
    match a
    case AArr(es) => forall i :: 0 <= i < |es| ==> IsJs(es[i])
    case AObj(fs) => DistinctNames(fs) && forall i :: 0 <= i < |fs| ==> IsJs(fs[i].value)
    case _ => true
  }

  function FieldOf(fs: seq<ArgField>, name: string): Option<Arg> {
    if fs == [] then None else if fs[0].name == name then Some(fs[0].value) else FieldOf(fs[1..], name)
  }

  function Below(a: Arg, step: Step): Option<Arg> {
    match (a, step)
    case (AArr(es), Index(i)) => if i < |es| then Some(es[i]) else None
    case (AObj(fs), Name(name)) => FieldOf(fs, name)
    case _ => None
  }

  function HeadOf(a: Arg): Head {
    match a
    case AArr(es) => AList(|es|)
    case AObj(fs) => AnObject(|fs|)
    case _ => Primitive(a)
  }

  /** The head at the end of a path, if the path leads anywhere. */
  function HeadAt(a: Arg, path: seq<Step>): Option<Head>
    decreases |path|
  {
    if path == [] then Some(HeadOf(a))
    else if Below(a, path[0]).None? then None
    else HeadAt(Below(a, path[0]).value, path[1..])
  }

  ghost predicate SameHeads(a: Arg, b: Arg) {
    forall path :: HeadAt(a, path) == HeadAt(b, path)
  }

  lemma HeadBelow(a: Arg, step: Step, rest: seq<Step>)
    ensures HeadAt(a, [step] + rest) == if Below(a, step).Some? then HeadAt(Below(a, step).value, rest) else None
  {
    assert ([step] + rest)[1..] == rest;
  }

  lemma SameBelow(a: Arg, b: Arg, step: Step)
    requires SameHeads(a, b) && Below(a, step).Some?
    ensures Below(b, step).Some? && SameHeads(Below(a, step).value, Below(b, step).value)
  {
    HeadBelow(a, step, []);
    HeadBelow(b, step, []);
    assert HeadAt(a, [step] + []) == HeadAt(b, [step] + []);
    forall rest ensures HeadAt(Below(a, step).value, rest) == HeadAt(Below(b, step).value, rest) {
      HeadBelow(a, step, rest);
      HeadBelow(b, step, rest);
      assert HeadAt(a, [step] + rest) == HeadAt(b, [step] + rest);
    }
  }

  lemma {:induction false} FieldIs(fs: seq<ArgField>, name: string, x: Arg)
    requires DistinctNames(fs)
    ensures FieldOf(fs, name) == Some(x) <==> ArgField(name, x) in fs
  {
    if fs != [] {
      FieldIs(fs[1..], name, x);
      assert fs == [fs[0]] + fs[1..];
    }
  }

  function Names(fs: seq<ArgField>): set<string> {
    set f <- fs :: f.name
  }

  lemma {:induction false} NamesCount(fs: seq<ArgField>)
    requires DistinctNames(fs)
    ensures |Names(fs)| == |fs|
  {
    if fs != [] {
      NamesCount(fs[1..]);
      assert fs == [fs[0]] + fs[1..];
      assert Names(fs) == {fs[0].name} + Names(fs[1..]);
      assert fs[0].name !in Names(fs[1..]);
    }
  }

  lemma SubsetOfSameSize(a: set<string>, b: set<string>)
    requires a <= b && |a| == |b|
    ensures a == b
  {
    assert b == a + (b - a) && |b| == |a| + |b - a|;
  }

  lemma SameNames(fs: seq<ArgField>, gs: seq<ArgField>)
    requires DistinctNames(fs) && DistinctNames(gs) && |fs| == |gs|
    requires forall i :: 0 <= i < |fs| ==> HasMatch(fs[i], gs)
    ensures Names(fs) == Names(gs)
  {
    forall name | name in Names(fs) ensures name in Names(gs) {
      var i :| 0 <= i < |fs| && fs[i].name == name;
      assert HasMatch(fs[i], gs);
      var j :| 0 <= j < |gs| && gs[j].name == fs[i].name && SameKey(fs[i].value, gs[j].value);
      assert gs[j] in gs;
    }
    NamesCount(fs);
    NamesCount(gs);
    SubsetOfSameSize(Names(fs), Names(gs));
  }

  lemma NameIsField(fs: seq<ArgField>, name: string)
    requires DistinctNames(fs)
    ensures FieldOf(fs, name).Some? <==> name in Names(fs)
  {
    if name in Names(fs) {
      var f :| f in fs && f.name == name;
      FieldIs(fs, name, f.value);
    }
    if FieldOf(fs, name).Some? {
      FieldIs(fs, name, FieldOf(fs, name).value);
      assert ArgField(name, FieldOf(fs, name).value) in fs;
    }
  }

  lemma FieldsMatch(fs: seq<ArgField>, gs: seq<ArgField>, name: string)
    requires DistinctNames(fs) && DistinctNames(gs) && |fs| == |gs|
    requires forall i :: 0 <= i < |fs| ==> HasMatch(fs[i], gs)
    ensures FieldOf(fs, name).Some? <==> FieldOf(gs, name).Some?
    ensures FieldOf(fs, name).Some? ==>
              && SameKey(FieldOf(fs, name).value, FieldOf(gs, name).value)
              && ArgField(name, FieldOf(fs, name).value) in fs && ArgField(name, FieldOf(gs, name).value) in gs
  {
    hide SameKey;
    SameNames(fs, gs);
    NameIsField(fs, name);
    NameIsField(gs, name);
    if FieldOf(fs, name).Some? {
      FieldIs(fs, name, FieldOf(fs, name).value);
      var i :| 0 <= i < |fs| && fs[i] == ArgField(name, FieldOf(fs, name).value);
      assert HasMatch(fs[i], gs);
      var j :| 0 <= j < |gs| && gs[j].name == fs[i].name && SameKey(fs[i].value, gs[j].value);
      assert gs[j] == ArgField(name, gs[j].value);
      FieldIs(gs, name, gs[j].value);
    }
  }

  lemma {:induction false} SameKeySameHeads(a: Arg, b: Arg, path: seq<Step>)
    requires IsJs(a) && IsJs(b) && SameKey(a, b)
    ensures HeadAt(a, path) == HeadAt(b, path)
    decreases a
  {
    if path != [] {
      match (a, path[0])
      case (AArr(xs), Index(i)) => if i < |xs| { SameKeySameHeads(xs[i], b.elems[i], path[1..]); }
      case (AObj(fs), Name(name)) =>
        FieldsMatch(fs, b.fields, name);
        if FieldOf(fs, name).Some? {
          FieldIs(fs, name, FieldOf(fs, name).value);
          SameKeySameHeads(FieldOf(fs, name).value, FieldOf(b.fields, name).value, path[1..]);
        }
      case _ =>
    }
  }

  lemma {:induction false} SameHeadsSameKey(a: Arg, b: Arg)
    requires IsJs(a) && IsJs(b) && SameHeads(a, b)
    ensures SameKey(a, b)
    decreases a
  {
    assert HeadAt(a, []) == HeadAt(b, []);
    assert HeadOf(a) == HeadOf(b);
    match a
    case AArr(xs) =>
      forall i | 0 <= i < |xs| ensures SameKey(xs[i], b.elems[i]) {
        SameBelow(a, b, Index(i));
        SameHeadsSameKey(xs[i], b.elems[i]);
      }
    case AObj(fs) =>
      forall i | 0 <= i < |fs| ensures HasMatch(fs[i], b.fields) {
        var name := fs[i].name;
        assert fs[i] in fs;
        FieldIs(fs, name, fs[i].value);
        SameBelow(a, b, Name(name));
        var x := FieldOf(b.fields, name).value;
        FieldIs(b.fields, name, x);
        var j :| 0 <= j < |b.fields| && b.fields[j] == ArgField(name, x);
        SameHeadsSameKey(fs[i].value, x);
        assert b.fields[j].name == fs[i].name && SameKey(fs[i].value, b.fields[j].value);
      }
    case _ =>
  }

  /** Two keys are the same if and only if they have the same primitives, lists and objects at the same
      places, whatever the order of their fields. */
  lemma SameKeyExactly(a: Arg, b: Arg)
    requires IsJs(a) && IsJs(b)
    ensures SameKey(a, b) <==> SameHeads(a, b)
  {
    if SameKey(a, b) {
      forall path ensures HeadAt(a, path) == HeadAt(b, path) { SameKeySameHeads(a, b, path); }
    }
    if SameHeads(a, b) { SameHeadsSameKey(a, b); }
  }

  // ----- the entries of a map -------------------------------------------------------------------------------

  predicate KeysAreJs(es: seq<ArgEntry>) {
    forall i :: 0 <= i < |es| ==> IsJs(es[i].key)
  }

  /** No later entry has the same key. */
  ghost predicate IsLast(es: seq<ArgEntry>, i: nat) {
    i < |es| && NoneAfter(es, i)
  }

  ghost predicate NoneAfter(es: seq<ArgEntry>, i: nat)
    requires i < |es|
  {
    forall j :: i < j < |es| ==> !SameHeads(es[i].key, es[j].key)
  }

  ghost predicate IsEntryOf(e: ArgEntry, es: seq<ArgEntry>) {
    exists i: nat :: IsLast(es, i) && es[i] == e
  }

  /** The map has each key once; its entries are the last ones given for their keys. */
  ghost predicate IsDictionary(m: seq<ArgEntry>, es: seq<ArgEntry>) {
    && (forall i, j :: 0 <= i < j < |m| ==> !SameHeads(m[i].key, m[j].key))
    && (forall e <- m :: IsEntryOf(e, es))
    && (forall i: nat :: IsLast(es, i) ==> es[i] in m)
  }

  lemma {:induction false} MapSetNew(m: seq<ArgEntry>, e: ArgEntry)
    requires KeysAreJs(m) && IsJs(e.key) && forall i :: 0 <= i < |m| ==> !SameHeads(m[i].key, e.key)
    ensures MapSet(m, e) == m + [e]
  {
    hide SameHeads, IsJs;
    if m != [] {
      SameKeyExactly(m[0].key, e.key);
      MapSetNew(m[1..], e);
      assert m + [e] == [m[0]] + (m[1..] + [e]);
    }
  }

  lemma {:induction false} MapSetKnown(m: seq<ArgEntry>, e: ArgEntry, k: nat)
    requires KeysAreJs(m) && IsJs(e.key) && k < |m| && SameHeads(m[k].key, e.key)
    requires forall i :: 0 <= i < k ==> !SameHeads(m[i].key, e.key)
    ensures MapSet(m, e) == m[k := e]
  {
    hide SameHeads, IsJs;
    SameKeyExactly(m[0].key, e.key);
    if k > 0 {
      MapSetKnown(m[1..], e, k - 1);
      assert m[k := e] == [m[0]] + m[1..][k - 1 := e];
    }
  }

  lemma FirstSame(m: seq<ArgEntry>, e: ArgEntry, n: nat) returns (k: nat)
    requires n < |m| && SameHeads(m[n].key, e.key)
    ensures k <= n && SameHeads(m[k].key, e.key) && forall i :: 0 <= i < k ==> !SameHeads(m[i].key, e.key)
  {
    hide SameHeads;
    k := 0;
    while !SameHeads(m[k].key, e.key)
      invariant k <= n && forall i :: 0 <= i < k ==> !SameHeads(m[i].key, e.key)
      decreases n - k
    {
      k := k + 1;
    }
  }

  lemma SameIsTransitive(a: Arg, b: Arg, c: Arg)
    ensures SameHeads(a, b) ==> (SameHeads(a, c) <==> SameHeads(b, c)) && (SameHeads(c, a) <==> SameHeads(c, b))
    ensures SameHeads(a, b) <==> SameHeads(b, a)
  {
    hide SameHeads;
    SameIsSymmetric(a, b);
    if SameHeads(a, b) {
      Chained(a, b, c);
      Chained(b, a, c);
      Chained(c, a, b);
      Chained(c, b, a);
    }
  }

  lemma SameIsSymmetric(a: Arg, b: Arg)
    ensures SameHeads(a, b) <==> SameHeads(b, a)
  {
    hide HeadAt;
  }

  lemma Chained(a: Arg, b: Arg, c: Arg)
    ensures SameHeads(a, b) && SameHeads(b, c) ==> SameHeads(a, c)
  {
    hide HeadAt;
  }

  lemma LastOfMore(es: seq<ArgEntry>, e: ArgEntry, i: nat)
    ensures IsLast(es + [e], i) <==> i == |es| || (IsLast(es, i) && !SameHeads(es[i].key, e.key))
  {
    hide SameHeads;
    var more := es + [e];
    assert forall j :: 0 <= j < |es| ==> more[j] == es[j];
    if IsLast(more, i) && i < |es| {
      assert more[|es|] == e;
      forall j | i < j < |es| ensures !SameHeads(es[i].key, es[j].key) { assert more[j] == es[j]; }
    }
  }

  /** One more entry keeps the map a dictionary. */
  lemma OneMoreEntry(m: seq<ArgEntry>, es: seq<ArgEntry>, e: ArgEntry)
    requires IsDictionary(m, es) && KeysAreJs(m) && IsJs(e.key)
    ensures IsDictionary(MapSet(m, e), es + [e]) && KeysAreJs(MapSet(m, e))
  {
    hide SameHeads, IsJs, NoneAfter;
    var m', more := MapSet(m, e), es + [e];
    forall i: nat { LastOfMore(es, e, i); }
    assert more[|es|] == e && IsLast(more, |es|);
    if n: nat :| n < |m| && SameHeads(m[n].key, e.key) {
      var k := FirstSame(m, e, n);
      forall a { SameIsTransitive(m[k].key, e.key, a); }
      MapSetKnown(m, e, k);
      KeptEntries(m, m', es, e, k);
    } else {
      MapSetNew(m, e);
      KeptAll(m, es, e);
    }
  }

  lemma KeptAll(m: seq<ArgEntry>, es: seq<ArgEntry>, e: ArgEntry)
    requires IsDictionary(m, es) && forall i :: 0 <= i < |m| ==> !SameHeads(m[i].key, e.key)
    requires forall i: nat :: IsLast(es + [e], i) <==> i == |es| || (IsLast(es, i) && !SameHeads(es[i].key, e.key))
    ensures IsDictionary(m + [e], es + [e])
  {
    hide SameHeads, NoneAfter;
    var m', more := m + [e], es + [e];
    forall x | x in m' ensures IsEntryOf(x, more) {
      if x in m {
        var i: nat :| IsLast(es, i) && es[i] == x;
        assert IsLast(more, i) && more[i] == x;
      } else {
        assert IsLast(more, |es|) && more[|es|] == x;
      }
    }
    forall i: nat | IsLast(more, i) ensures more[i] in m' {
      if i < |es| { assert es[i] in m; } else { assert m'[|m|] == e; }
    }
  }

  lemma KeptEntries(m: seq<ArgEntry>, m': seq<ArgEntry>, es: seq<ArgEntry>, e: ArgEntry, k: nat)
    requires IsDictionary(m, es) && k < |m| && m' == m[k := e] && SameHeads(m[k].key, e.key)
    requires forall a ::
               (SameHeads(m[k].key, a) <==> SameHeads(e.key, a)) && (SameHeads(a, m[k].key) <==> SameHeads(a, e.key))
    requires forall i: nat :: IsLast(es + [e], i) <==> i == |es| || (IsLast(es, i) && !SameHeads(es[i].key, e.key))
    ensures IsDictionary(m', es + [e])
  {
    hide SameHeads, NoneAfter;
    var more := es + [e];
    forall x | x in m' ensures IsEntryOf(x, more) {
      var j :| 0 <= j < |m'| && m'[j] == x;
      if j == k {
        assert IsLast(more, |es|) && more[|es|] == x;
      } else {
        assert m[j] in m && IsEntryOf(x, es);
        var i: nat :| IsLast(es, i) && es[i] == x;
        SameIsTransitive(x.key, e.key, e.key);
        assert !SameHeads(x.key, e.key);
        assert IsLast(more, i) && more[i] == x;
      }
    }
    forall i: nat | IsLast(more, i) ensures more[i] in m' {
      if i < |es| {
        assert es[i] in m;
        var j :| 0 <= j < |m| && m[j] == es[i];
        assert j != k && m'[j] == es[i];
      } else {
        assert m'[k] == e;
      }
    }
  }

  /** Whatever entries it is given, a MichelsonMap ends up as a dictionary of them: each key once, with the
      value it was given last. */
  lemma {:induction false} MapIsDictionary(es: seq<ArgEntry>)
    requires KeysAreJs(es)
    ensures IsDictionary(MapOf(es), es) && KeysAreJs(MapOf(es))
  {
    hide SameHeads, IsJs, IsDictionary;
    if es == [] {
      EmptyIsDictionary();
    } else {
      var before, e := es[..|es| - 1], es[|es| - 1];
      assert es == before + [e];
      MapIsDictionary(before);
      OneMoreEntry(MapOf(before), before, e);
    }
  }

  lemma EmptyIsDictionary()
    ensures IsDictionary([], [])
  {
  }
}
