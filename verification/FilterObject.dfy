/** Replacing nested objects by their children (src/helpers/filter-object.ts). */
module FilterObject {
  import opened Wrappers
  import Decimal

  // A JSON value; a primitive keeps its text if it is a string. An object lists its fields in
  // enumeration order.
  datatype Node = Primitive(id: int, text: Option<string>) | Arr(elems: seq<Node>) | Obj(fields: seq<Field>)
  datatype Field = Field(name: string, value: Node)

  function Get(fs: seq<Field>, name: string): Option<Node> {
    if fs == [] then None else if fs[0].name == name then Some(fs[0].value) else Get(fs[1..], name)
  }

  /** Assigning a property: in place if it is there, at the end if not. */
  function Put(fs: seq<Field>, f: Field): seq<Field> {
    if fs == [] then [f] else if fs[0].name == f.name then [f] + fs[1..] else [fs[0]] + Put(fs[1..], f)
  }

  function Delete(fs: seq<Field>, name: string): seq<Field> {
    if fs == [] then [] else if fs[0].name == name then fs[1..] else [fs[0]] + Delete(fs[1..], name)
  }

  /** {...base, ...more} */
  function Spread(base: seq<Field>, more: seq<Field>): seq<Field> {
    if more == [] then base else Put(Spread(base, more[..|more| - 1]), more[|more| - 1])
  }

  /** The own enumerable fields of any value. */
  function FieldsOf(n: Node): seq<Field> {
    match n
    case Obj(fs) => fs
    case Arr(es) => seq(|es|, i requires 0 <= i < |es| => Field(Decimal.Print(i), es[i]))
    case Primitive(id, text) =>
      var chars := if text.Some? then text.value else "";
      seq(|chars|, i requires 0 <= i < |chars| => Field(Decimal.Print(i), Primitive(id, Some([chars[i]]))))
  }

  function Clean(n: Node, keys: set<string>): Node
    decreases n, 1
  {
    if n.Obj? then Obj(Visit(n.fields, n.fields, keys)) else n
  }

  /** The loop over the original fields; `obj` is what they have been turned into so far. */
  function Visit(fs: seq<Field>, obj: seq<Field>, keys: set<string>): seq<Field>
    decreases fs
  {
    if fs == [] then obj else Visit(fs[1..], VisitOne(fs[0], obj, keys), keys)
  }

  function VisitOne(f: Field, obj: seq<Field>, keys: set<string>): seq<Field>
    decreases f
  {
    var value := Clean(f.value, keys);
    var obj' := Put(obj, Field(f.name, value));
    if f.name in keys then Delete(Spread(FieldsOf(value), obj'), f.name) else obj'
  }

  predicate Distinct(fs: seq<Field>) {
    forall i, j :: 0 <= i < j < |fs| ==> fs[i].name != fs[j].name
  }

  /** Every object has each field once. */
  predicate IsJs(n: Node)
    decreases n
  {
    match n
    case Obj(fs) => Distinct(fs) && forall i :: 0 <= i < |fs| ==> IsJs(fs[i].value)
    case Arr(es) => forall i :: 0 <= i < |es| ==> IsJs(es[i])
    case _ => true
  }

  // ----- reading what was written -------------------------------------------------------------------------------

  lemma {:induction false} GetPut(fs: seq<Field>, f: Field, name: string)
    ensures Get(Put(fs, f), name) == if name == f.name then Some(f.value) else Get(fs, name)
  {
    if fs != [] && fs[0].name != f.name { GetPut(fs[1..], f, name); }
  }

  lemma {:induction false} GetDelete(fs: seq<Field>, gone: string, name: string)
    requires Distinct(fs)
    ensures Get(Delete(fs, gone), name) == if name == gone then None else Get(fs, name)
  {
    if fs != [] {
      if fs[0].name != gone { GetDelete(fs[1..], gone, name); } else { GetMissing(fs[1..], gone); }
    }
  }

  lemma {:induction false} GetMissing(fs: seq<Field>, name: string)
    ensures Get(fs, name).None? <==> forall i :: 0 <= i < |fs| ==> fs[i].name != name
  {
    if fs != [] {
      GetMissing(fs[1..], name);
      assert forall i :: 0 < i < |fs| ==> fs[i] == fs[1..][i - 1];
    }
  }

  lemma {:induction false} GetAt(fs: seq<Field>, i: nat)
    requires Distinct(fs) && i < |fs|
    ensures Get(fs, fs[i].name) == Some(fs[i].value)
  {
    if i > 0 { GetAt(fs[1..], i - 1); }
  }

  lemma {:induction false} GetSpread(base: seq<Field>, more: seq<Field>, name: string)
    requires Distinct(more)
    ensures Get(Spread(base, more), name) == if Get(more, name).Some? then Get(more, name) else Get(base, name)
    decreases |more|
  {
    if more != [] {
      var before, last := more[..|more| - 1], more[|more| - 1];
      GetSpread(base, before, name);
      GetPut(Spread(base, before), last, name);
      if name == last.name {
        GetAt(more, |more| - 1);
      } else {
        GetPrefix(before, last, name);
        assert more == before + [last];
      }
    }
  }

  lemma {:induction false} GetPrefix(before: seq<Field>, last: Field, name: string)
    requires name != last.name
    ensures Get(before + [last], name) == Get(before, name)
  {
    if before != [] {
      assert (before + [last])[1..] == before[1..] + [last];
      GetPrefix(before[1..], last, name);
    }
  }

  lemma {:induction false} PutDistinct(fs: seq<Field>, f: Field)
    requires Distinct(fs)
    ensures Distinct(Put(fs, f))
    ensures forall i :: 0 <= i < |Put(fs, f)| ==> Put(fs, f)[i] == f || Put(fs, f)[i] in fs
  {
    if fs != [] && fs[0].name != f.name {
      PutDistinct(fs[1..], f);
    }
  }

  lemma {:induction false} DeleteDistinct(fs: seq<Field>, name: string)
    requires Distinct(fs)
    ensures Distinct(Delete(fs, name)) && forall i :: 0 <= i < |Delete(fs, name)| ==> Delete(fs, name)[i] in fs
  {
    if fs != [] && fs[0].name != name {
      DeleteDistinct(fs[1..], name);
    }
  }

  // ----- what every visit keeps ---------------------------------------------------------------------------------

  predicate AllJs(fs: seq<Field>) {
    Distinct(fs) && forall i :: 0 <= i < |fs| ==> IsJs(fs[i].value)
  }

  lemma PutAllJs(fs: seq<Field>, f: Field)
    requires AllJs(fs) && IsJs(f.value)
    ensures AllJs(Put(fs, f))
  {
    PutDistinct(fs, f);
  }

  lemma {:induction false} SpreadAllJs(base: seq<Field>, more: seq<Field>)
    requires AllJs(base) && AllJs(more)
    ensures AllJs(Spread(base, more))
  {
    if more != [] {
      SpreadAllJs(base, more[..|more| - 1]);
      PutAllJs(Spread(base, more[..|more| - 1]), more[|more| - 1]);
    }
  }

  lemma FieldsAreJs(n: Node)
    requires IsJs(n)
    ensures AllJs(FieldsOf(n))
  {
    forall i: nat, j: nat | i < j ensures Decimal.Print(i) != Decimal.Print(j) {
      Decimal.ValueOfPrint(i);
      Decimal.ValueOfPrint(j);
    }
  }

  lemma {:induction false} CleanIsJs(n: Node, keys: set<string>)
    requires IsJs(n)
    ensures IsJs(Clean(n, keys))
    decreases n, 1
  {
    if n.Obj? { VisitIsJs(n.fields, n.fields, keys); }
  }

  lemma {:induction false} VisitIsJs(fs: seq<Field>, obj: seq<Field>, keys: set<string>)
    requires AllJs(fs) && AllJs(obj)
    ensures AllJs(Visit(fs, obj, keys))
    decreases fs
  {
    if fs != [] {
      VisitOneIsJs(fs[0], obj, keys);
      VisitIsJs(fs[1..], VisitOne(fs[0], obj, keys), keys);
    }
  }

  lemma {:induction false} VisitOneIsJs(f: Field, obj: seq<Field>, keys: set<string>)
    requires IsJs(f.value) && AllJs(obj)
    ensures AllJs(VisitOne(f, obj, keys))
    decreases f
  {
    var value := Clean(f.value, keys);
    CleanIsJs(f.value, keys);
    PutAllJs(obj, Field(f.name, value));
    if f.name in keys {
      FieldsAreJs(value);
      SpreadAllJs(FieldsOf(value), Put(obj, Field(f.name, value)));
      DeleteDistinct(Spread(FieldsOf(value), Put(obj, Field(f.name, value))), f.name);
    }
  }

  /** What one visit leaves under each name: the visited field cleaned or gone, every other field as it
      was, and under a name that was free the field of the child. */
  lemma GetVisitOne(f: Field, obj: seq<Field>, keys: set<string>, name: string)
    requires IsJs(f.value) && AllJs(obj)
    ensures Get(VisitOne(f, obj, keys), name) ==
            if name == f.name then (if f.name in keys then None else Some(Clean(f.value, keys)))
            else if Get(obj, name).Some? || f.name !in keys then Get(obj, name)
            else Get(FieldsOf(Clean(f.value, keys)), name)
  {
    var value := Clean(f.value, keys);
    var put := Put(obj, Field(f.name, value));
    GetPut(obj, Field(f.name, value), name);
    PutDistinct(obj, Field(f.name, value));
    if f.name in keys {
      CleanIsJs(f.value, keys);
      FieldsAreJs(value);
      CleanIsJs(f.value, keys);
      PutAllJs(obj, Field(f.name, value));
      SpreadAllJs(FieldsOf(value), put);
      GetSpread(FieldsOf(value), put, name);
      GetDelete(Spread(FieldsOf(value), put), f.name, name);
    }
  }

  // ----- the helper as it runs ----------------------------------------------------------------------------------

  lemma {:induction false} PutSame(fs: seq<Field>, name: string)
    requires Get(fs, name).Some?
    ensures Put(fs, Field(name, Get(fs, name).value)) == fs
  {
    if fs[0].name != name { PutSame(fs[1..], name); }
  }

  const HAS_OWN := "hasOwnProperty"

  /** The object, or one nested in it outside lists, has a field of its own called `hasOwnProperty`, which
      hides the method that the loop calls. */
  predicate HidesMethod(n: Node)
    decreases n
  {
    n.Obj? && exists i :: 0 <= i < |n.fields| && (n.fields[i].name == HAS_OWN || HidesMethod(n.fields[i].value))
  }

  /** The helper's result; None is a thrown TypeError. */
  function Removed(n: Node, keys: set<string>): Option<Node> {
    if HidesMethod(n) then None else Some(Clean(n, keys))
  }

  lemma IndexIsNoMethod(i: nat)
    ensures Decimal.Print(i) != HAS_OWN
  {
    Decimal.ValueOfPrint(i);
    assert Decimal.IsDigit(Decimal.Print(i)[0]) && HAS_OWN[0] == 'h';
  }

  lemma {:induction false} CleanHasMethod(n: Node, keys: set<string>)
    requires IsJs(n) && !HidesMethod(n)
    ensures Get(FieldsOf(Clean(n, keys)), HAS_OWN).None?
    decreases n, 1
  {
    if n.Obj? {
      GetMissing(n.fields, HAS_OWN);
      VisitHasMethod(n.fields, n.fields, keys);
    } else {
      forall i: nat { IndexIsNoMethod(i); }
      GetMissing(FieldsOf(n), HAS_OWN);
    }
  }

  lemma {:induction false} VisitHasMethod(fs: seq<Field>, obj: seq<Field>, keys: set<string>)
    requires AllJs(fs) && AllJs(obj) && Get(obj, HAS_OWN).None?
    requires forall i :: 0 <= i < |fs| ==> fs[i].name != HAS_OWN && !HidesMethod(fs[i].value)
    ensures Get(Visit(fs, obj, keys), HAS_OWN).None?
    decreases fs
  {
    if fs != [] {
      VisitOneHasMethod(fs[0], obj, keys);
      VisitOneIsJs(fs[0], obj, keys);
      VisitHasMethod(fs[1..], VisitOne(fs[0], obj, keys), keys);
    }
  }

  lemma {:induction false} VisitOneHasMethod(f: Field, obj: seq<Field>, keys: set<string>)
    requires IsJs(f.value) && AllJs(obj) && Get(obj, HAS_OWN).None? && f.name != HAS_OWN && !HidesMethod(f.value)
    ensures Get(VisitOne(f, obj, keys), HAS_OWN).None?
    decreases f
  {
    CleanHasMethod(f.value, keys);
    GetVisitOne(f, obj, keys, HAS_OWN);
  }

  /** The loop goes over the fields the object had at first, while the variable moves on to new objects;
      and it asks each of these objects for its method. */
  method DeleteObjectSubLevel(n: Node, keys: set<string>) returns (r: Option<seq<Field>>)
    requires n.Obj? && IsJs(n)
    ensures if HidesMethod(n) then r == None else r == Some(Visit(n.fields, n.fields, keys))
    decreases n
  {
    var obj := n.fields;
    assert n.fields[0..] == n.fields;
    forall j | 0 <= j < |n.fields| ensures Get(obj, n.fields[j].name) == Some(n.fields[j].value) { GetAt(obj, j); }
    for i := 0 to |n.fields|
      invariant AllJs(obj) && Visit(n.fields, n.fields, keys) == Visit(n.fields[i..], obj, keys)
      invariant forall j :: i <= j < |n.fields| ==> Get(obj, n.fields[j].name) == Some(n.fields[j].value)
      invariant if i == 0 then obj == n.fields else Get(obj, HAS_OWN).None?
      invariant forall j :: 0 <= j < i ==> n.fields[j].name != HAS_OWN && !HidesMethod(n.fields[j].value)
    {
      if Get(obj, HAS_OWN).Some? {
        GetIsField(obj, HAS_OWN);
        return None;
      }
      var f := n.fields[i];
      assert n.fields[i..][0] == f && n.fields[i..][1..] == n.fields[i + 1..];
      VisitOneIsJs(f, obj, keys);
      forall j | i < j < |n.fields| ensures Get(VisitOne(f, obj, keys), n.fields[j].name) == Some(n.fields[j].value) {
        GetVisitOne(f, obj, keys, n.fields[j].name);
      }
      ghost var before := obj;
      var value := Get(obj, f.name).value;
      if value.Obj? {
        var cleaned := DeleteObjectSubLevel(value, keys);
        if cleaned.None? { return None; }
        value := Obj(cleaned.value);
        obj := Put(obj, Field(f.name, value));
      } else {
        PutSame(obj, f.name);
      }
      GetMissing(before, HAS_OWN);
      VisitOneHasMethod(f, before, keys);
      if f.name in keys {
        obj := Delete(Spread(FieldsOf(value), obj), f.name);
      }
      assert obj == VisitOne(f, before, keys);
    }
    return Some(obj);
  }

  // ----- what the result holds --------------------------------------------------------------------------------------

  /** Under every removed name, at every object depth outside lists, there is an object. */
  predicate Hoistable(n: Node, keys: set<string>)
    decreases n
  {
    match n
    case Obj(fs) =>
      forall i :: 0 <= i < |fs| ==> (fs[i].name in keys ==> fs[i].value.Obj?) && Hoistable(fs[i].value, keys)
    case _ => true
  }

  /** No removed name is left at any object depth outside lists. */
  predicate NoneLeft(n: Node, keys: set<string>)
    decreases n
  {
    match n
    case Obj(fs) => forall i :: 0 <= i < |fs| ==> fs[i].name !in keys && NoneLeft(fs[i].value, keys)
    case _ => true
  }

  /** The first removed field whose cleaned value has a field of that name supplies it. */
  function Hoisted(fs: seq<Field>, keys: set<string>, name: string): Option<Node> {
    if fs == [] then None
    else
      var child := if fs[0].name in keys then Get(FieldsOf(Clean(fs[0].value, keys)), name) else None;
      if child.Some? then child else Hoisted(fs[1..], keys, name)
  }

  ghost predicate ChildrenClean(fs: seq<Field>, keys: set<string>) {
    forall i :: 0 <= i < |fs| ==>
      NoneLeft(Clean(fs[i].value, keys), keys) && (fs[i].name in keys ==> Clean(fs[i].value, keys).Obj?)
  }

  lemma {:induction false} HoistedIsClean(fs: seq<Field>, keys: set<string>, name: string)
    requires ChildrenClean(fs, keys) && Hoisted(fs, keys, name).Some?
    ensures name !in keys && NoneLeft(Hoisted(fs, keys, name).value, keys)
  {
    var child := Clean(fs[0].value, keys);
    if fs[0].name in keys && Get(FieldsOf(child), name).Some? {
      GetIsField(child.fields, name);
    } else {
      HoistedIsClean(fs[1..], keys, name);
    }
  }

  lemma {:induction false} GetIsField(fs: seq<Field>, name: string)
    requires Get(fs, name).Some?
    ensures exists i :: 0 <= i < |fs| && fs[i] == Field(name, Get(fs, name).value)
  {
    if fs[0].name == name {
      assert fs[0] == Field(name, Get(fs, name).value);
    } else {
      GetIsField(fs[1..], name);
      var i :| 0 <= i < |fs[1..]| && fs[1..][i] == Field(name, Get(fs, name).value);
      assert fs[i + 1] == fs[1..][i];
    }
  }

  lemma {:induction false} GetVisit(fs: seq<Field>, obj: seq<Field>, keys: set<string>, name: string)
    requires AllJs(fs) && AllJs(obj) && ChildrenClean(fs, keys)
    ensures Get(Visit(fs, obj, keys), name) ==
            if Get(fs, name).Some? then (if name in keys then None else Some(Clean(Get(fs, name).value, keys)))
            else if Get(obj, name).Some? then Get(obj, name)
            else Hoisted(fs, keys, name)
    decreases |fs|
  {
    hide Clean, VisitOne, IsJs, NoneLeft;
    if fs != [] {
      var f, more := fs[0], fs[1..];
      GetVisitOne(f, obj, keys, name);
      VisitOneIsJs(f, obj, keys);
      GetVisit(more, VisitOne(f, obj, keys), keys, name);
      if name == f.name {
        GetMissing(more, name);
        if name in keys && Hoisted(more, keys, name).Some? { HoistedIsClean(more, keys, name); }
      }
    }
  }

  /** The result, name by name: a removed name is gone; a field that stays has its value cleaned, and
      wins over whatever would be hoisted under its name; any other name comes from the first removed
      field that has it. */
  lemma {:induction false} ResultNameByName(n: Node, keys: set<string>, name: string)
    requires n.Obj? && IsJs(n) && Hoistable(n, keys) && Removed(n, keys).Some?
    ensures Get(FieldsOf(Removed(n, keys).value), name) ==
            if name in keys then None
            else if Get(n.fields, name).Some? then Removed(Get(n.fields, name).value, keys)
            else Hoisted(n.fields, keys, name)
  {
    forall i | 0 <= i < |n.fields| ensures NoneLeft(Clean(n.fields[i].value, keys), keys) {
      CleanLeavesNone(n.fields[i].value, keys);
    }
    GetVisit(n.fields, n.fields, keys, name);
    if name in keys && Hoisted(n.fields, keys, name).Some? { HoistedIsClean(n.fields, keys, name); }
    if Get(n.fields, name).Some? { GetIsField(n.fields, name); }
  }

  lemma {:induction false} GetVisitKept(fs: seq<Field>, obj: seq<Field>, keys: set<string>, name: string)
    requires AllJs(fs) && AllJs(obj) && name !in keys
    ensures Get(Visit(fs, obj, keys), name) ==
            if Get(fs, name).Some? then Some(Clean(Get(fs, name).value, keys))
            else if Get(obj, name).Some? then Get(obj, name)
            else Hoisted(fs, keys, name)
    decreases |fs|
  {
    hide Clean, VisitOne, IsJs;
    if fs != [] {
      var f, more := fs[0], fs[1..];
      GetVisitOne(f, obj, keys, name);
      VisitOneIsJs(f, obj, keys);
      GetVisitKept(more, VisitOne(f, obj, keys), keys, name);
      if name == f.name { GetMissing(more, name); }
    }
  }

  /** A name that is not removed, whatever stands under the removed names: a list or a string there is hoisted
      like an object, under its indices. */
  lemma KeptNames(n: Node, keys: set<string>, name: string)
    requires n.Obj? && IsJs(n) && name !in keys && Removed(n, keys).Some?
    ensures Removed(n, keys).value.Obj?
    ensures Get(Removed(n, keys).value.fields, name) ==
            if Get(n.fields, name).Some? then Removed(Get(n.fields, name).value, keys)
            else Hoisted(n.fields, keys, name)
  {
    GetVisitKept(n.fields, n.fields, keys, name);
    if Get(n.fields, name).Some? { GetIsField(n.fields, name); }
  }

  /** What a removed value would hoist under a name: a field, an element under its index, or a character under
      its index; numbers, booleans and null hoist nothing. */
  lemma HoistsByIndex(n: Node, name: string, x: Node)
    requires IsJs(n)
    ensures Get(FieldsOf(n), name) == Some(x) <==>
            match n
            case Obj(fs) => Field(name, x) in fs
            case Arr(es) => exists i :: 0 <= i < |es| && Decimal.Print(i) == name && es[i] == x
            case Primitive(id, text) =>
              text.Some? && exists i :: 0 <= i < |text.value| && Decimal.Print(i) == name
                                        && x == Primitive(id, Some([text.value[i]]))
  {
    var fs := FieldsOf(n);
    FieldsAreJs(n);
    if Get(fs, name) == Some(x) { GetIsField(fs, name); }
    if i :| 0 <= i < |fs| && fs[i] == Field(name, x) { GetAt(fs, i); }
    match n
    case Obj(_) =>
    case Arr(es) =>
      if i :| 0 <= i < |es| && Decimal.Print(i) == name && es[i] == x { assert fs[i] == Field(name, x); }
    case Primitive(id, text) =>
      if text.Some? {
        if i :| 0 <= i < |text.value| && Decimal.Print(i) == name && x == Primitive(id, Some([text.value[i]])) {
          assert fs[i] == Field(name, x);
        }
      }
  }

  /** No removed name survives at any object depth outside lists. */
  lemma NoRemovedNameSurvives(n: Node, keys: set<string>)
    requires IsJs(n) && Hoistable(n, keys) && Removed(n, keys).Some?
    ensures NoneLeft(Removed(n, keys).value, keys)
  {
    CleanLeavesNone(n, keys);
  }

  lemma {:induction false} CleanLeavesNone(n: Node, keys: set<string>)
    requires IsJs(n) && Hoistable(n, keys)
    ensures NoneLeft(Clean(n, keys), keys)
    decreases n
  {
    if n.Obj? {
      forall i | 0 <= i < |n.fields| ensures NoneLeft(Clean(n.fields[i].value, keys), keys) {
        CleanLeavesNone(n.fields[i].value, keys);
      }
      VisitIsJs(n.fields, n.fields, keys);
      var result := Visit(n.fields, n.fields, keys);
      forall i | 0 <= i < |result| ensures result[i].name !in keys && NoneLeft(result[i].value, keys) {
        GetAt(result, i);
        FieldOfResult(n.fields, keys, result[i].name);
      }
    }
  }

  lemma FieldOfResult(fs: seq<Field>, keys: set<string>, name: string)
    requires AllJs(fs) && ChildrenClean(fs, keys) && Get(Visit(fs, fs, keys), name).Some?
    ensures name !in keys && NoneLeft(Get(Visit(fs, fs, keys), name).value, keys)
  {
    GetVisit(fs, fs, keys, name);
    if Get(fs, name).Some? {
      GetIsField(fs, name);
    } else {
      HoistedIsClean(fs, keys, name);
    }
  }

  // ----- once is enough ---------------------------------------------------------------------------------------------

  lemma {:induction false} NothingToRemove(n: Node, keys: set<string>)
    requires IsJs(n) && NoneLeft(n, keys)
    ensures Clean(n, keys) == n
    decreases n, 1
  {
    if n.Obj? {
      forall i | 0 <= i < |n.fields| ensures Get(n.fields, n.fields[i].name) == Some(n.fields[i].value) {
        GetAt(n.fields, i);
      }
      NothingToVisit(n.fields, n.fields, keys);
    }
  }

  lemma {:induction false} NothingToVisit(fs: seq<Field>, obj: seq<Field>, keys: set<string>)
    requires AllJs(fs) && forall i :: 0 <= i < |fs| ==> fs[i].name !in keys && NoneLeft(fs[i].value, keys)
    requires forall i :: 0 <= i < |fs| ==> Get(obj, fs[i].name) == Some(fs[i].value)
    ensures Visit(fs, obj, keys) == obj
    decreases fs
  {
    if fs != [] {
      NothingInField(fs[0], keys);
      PutSame(obj, fs[0].name);
      NothingToVisit(fs[1..], obj, keys);
    }
  }

  lemma {:induction false} NothingInField(f: Field, keys: set<string>)
    requires IsJs(f.value) && NoneLeft(f.value, keys)
    ensures Clean(f.value, keys) == f.value
    decreases f
  {
    NothingToRemove(f.value, keys);
  }

  ghost predicate NoneHides(fs: seq<Field>) {
    forall i :: 0 <= i < |fs| ==> fs[i].name != HAS_OWN && !HidesMethod(fs[i].value)
  }

  lemma {:induction false} PutNoneHides(fs: seq<Field>, f: Field)
    requires NoneHides(fs) && NoneHides([f])
    ensures NoneHides(Put(fs, f))
  {
    assert [f][0] == f;
    if fs != [] && fs[0].name != f.name { PutNoneHides(fs[1..], f); }
  }

  lemma {:induction false} SpreadNoneHides(base: seq<Field>, more: seq<Field>)
    requires NoneHides(base) && NoneHides(more)
    ensures NoneHides(Spread(base, more))
  {
    if more != [] {
      SpreadNoneHides(base, more[..|more| - 1]);
      PutNoneHides(Spread(base, more[..|more| - 1]), more[|more| - 1]);
    }
  }

  lemma {:induction false} DeleteNoneHides(fs: seq<Field>, name: string)
    requires NoneHides(fs)
    ensures NoneHides(Delete(fs, name))
  {
    if fs != [] && fs[0].name != name { DeleteNoneHides(fs[1..], name); }
  }

  lemma {:induction false} CleanHidesNothing(n: Node, keys: set<string>)
    requires Hoistable(n, keys) && !HidesMethod(n)
    ensures !HidesMethod(Clean(n, keys))
    decreases n, 1
  {
    if n.Obj? { VisitHidesNothing(n.fields, n.fields, keys); }
  }

  lemma {:induction false} VisitHidesNothing(fs: seq<Field>, obj: seq<Field>, keys: set<string>)
    requires NoneHides(fs) && NoneHides(obj)
    requires forall i :: 0 <= i < |fs| ==> (fs[i].name in keys ==> fs[i].value.Obj?) && Hoistable(fs[i].value, keys)
    ensures NoneHides(Visit(fs, obj, keys))
    decreases fs
  {
    if fs != [] {
      VisitOneHidesNothing(fs[0], obj, keys);
      VisitHidesNothing(fs[1..], VisitOne(fs[0], obj, keys), keys);
    }
  }

  lemma {:induction false} VisitOneHidesNothing(f: Field, obj: seq<Field>, keys: set<string>)
    requires NoneHides([f]) && NoneHides(obj) && (f.name in keys ==> f.value.Obj?) && Hoistable(f.value, keys)
    ensures NoneHides(VisitOne(f, obj, keys))
    decreases f
  {
    assert [f][0] == f;
    var value := Clean(f.value, keys);
    CleanHidesNothing(f.value, keys);
    PutNoneHides(obj, Field(f.name, value));
    if f.name in keys {
      SpreadNoneHides(FieldsOf(value), Put(obj, Field(f.name, value)));
      DeleteNoneHides(Spread(FieldsOf(value), Put(obj, Field(f.name, value))), f.name);
    }
  }

  /** A second application changes nothing, and does not throw either. */
  lemma SecondTimeChangesNothing(n: Node, keys: set<string>)
    requires IsJs(n) && Hoistable(n, keys) && Removed(n, keys).Some?
    ensures Removed(Removed(n, keys).value, keys) == Removed(n, keys)
  {
    CleanLeavesNone(n, keys);
    CleanIsJs(n, keys);
    CleanHidesNothing(n, keys);
    NothingToRemove(Clean(n, keys), keys);
  }

  // ----- nothing is lost --------------------------------------------------------------------------------------------

  /** The primitives and lists of a value, at any object depth. */
  function Leaves(n: Node): multiset<Node>
    decreases n, 1
  {
    if n.Obj? then LeavesOf(n.fields) else multiset{n}
  }

  function LeavesOf(fs: seq<Field>): multiset<Node>
    decreases fs
  {
    if fs == [] then multiset{} else FieldLeaves(fs[0]) + LeavesOf(fs[1..])
  }

  function FieldLeaves(f: Field): multiset<Node>
    decreases f
  {
    Leaves(f.value)
  }

  lemma Reorder(a: multiset<Node>, b: multiset<Node>, c: multiset<Node>)
    ensures a + b + c == a + (b + c) && a + multiset{} == a
  {
  }

  lemma {:induction false} LeavesOfPut(fs: seq<Field>, f: Field)
    ensures if Get(fs, f.name).Some?
            then LeavesOf(Put(fs, f)) + Leaves(Get(fs, f.name).value) == LeavesOf(fs) + Leaves(f.value)
            else LeavesOf(Put(fs, f)) == LeavesOf(fs) + Leaves(f.value)
  {
    hide Leaves;
    if fs == [] {
      assert [f][1..] == [];
    } else if fs[0].name == f.name {
      assert ([f] + fs[1..])[1..] == fs[1..];
    } else {
      var more := fs[1..];
      LeavesOfPut(more, f);
      assert ([fs[0]] + Put(more, f))[1..] == Put(more, f);
      Reorder(FieldLeaves(fs[0]), LeavesOf(Put(more, f)),
              if Get(more, f.name).Some? then Leaves(Get(more, f.name).value) else multiset{});
      Reorder(FieldLeaves(fs[0]), LeavesOf(more), Leaves(f.value));
    }
  }

  lemma {:induction false} LeavesOfDelete(fs: seq<Field>, name: string)
    requires Get(fs, name).Some?
    ensures LeavesOf(Delete(fs, name)) + Leaves(Get(fs, name).value) == LeavesOf(fs)
  {
    hide Leaves;
    if fs[0].name != name { LeavesOfDelete(fs[1..], name); }
  }

  lemma NoLeaves()
    ensures LeavesOf([]) == multiset{}
  {
  }

  lemma {:induction false} LeavesOfSpread(base: seq<Field>, more: seq<Field>)
    requires Distinct(more) && forall i :: 0 <= i < |more| ==> Get(base, more[i].name).None?
    ensures LeavesOf(Spread(base, more)) == LeavesOf(base) + LeavesOf(more)
    decreases |more|
  {
    hide Leaves, LeavesOf, Put;
    if more == [] {
      assert LeavesOf(more) == multiset{} by { NoLeaves(); }
    } else {
      var before, last := more[..|more| - 1], more[|more| - 1];
      LeavesOfSpread(base, before);
      GetSpread(base, before, last.name);
      GetMissing(before, last.name);
      LeavesOfPut(Spread(base, before), last);
      LeavesOfLast(before, last);
      Reorder(LeavesOf(base), LeavesOf(before), Leaves(last.value));
      assert more == before + [last];
    }
  }

  lemma {:induction false} LeavesOfLast(before: seq<Field>, last: Field)
    ensures LeavesOf(before + [last]) == LeavesOf(before) + Leaves(last.value)
  {
    hide Leaves;
    if before == [] {
      assert [] + [last] == [last] && [last][1..] == [];
    } else {
      assert (before + [last])[1..] == before[1..] + [last];
      LeavesOfLast(before[1..], last);
    }
  }

  /** The fields that the i-th field would hoist. */
  function ChildFields(fs: seq<Field>, keys: set<string>, i: nat): seq<Field>
    requires i < |fs|
  {
    if fs[i].name in keys then FieldsOf(Clean(fs[i].value, keys)) else []
  }

  /** No hoisted name meets a name of the object or of another hoisted child. */
  ghost predicate Apart(fs: seq<Field>, keys: set<string>) {
    && (forall i, name :: 0 <= i < |fs| && Get(ChildFields(fs, keys, i), name).Some? ==> Get(fs, name).None?)
    && (forall i, j, name :: 0 <= i < j < |fs| && Get(ChildFields(fs, keys, i), name).Some? ==>
          Get(ChildFields(fs, keys, j), name).None?)
  }

  ghost predicate NoCollisions(n: Node, keys: set<string>)
    decreases n
  {
    n.Obj? ==> Apart(n.fields, keys) && forall i :: 0 <= i < |n.fields| ==> NoCollisions(n.fields[i].value, keys)
  }

  /** Before the i-th visit: names come from the object or from the children hoisted so far, and the
      fields still to visit are as they were. */
  ghost predicate Before(fs: seq<Field>, obj: seq<Field>, keys: set<string>, i: nat)
    requires i <= |fs|
  {
    && (forall name :: Get(obj, name).Some? ==>
          Get(fs, name).Some? || exists j :: 0 <= j < i && Get(ChildFields(fs, keys, j), name).Some?)
    && (forall j :: i <= j < |fs| ==> Get(obj, fs[j].name) == Some(fs[j].value))
  }

  lemma StillBefore(fs: seq<Field>, obj: seq<Field>, keys: set<string>, i: nat)
    requires AllJs(fs) && AllJs(obj) && i < |fs| && Before(fs, obj, keys, i)
    ensures Before(fs, VisitOne(fs[i], obj, keys), keys, i + 1)
  {
    hide Clean, VisitOne, FieldsOf;
    var obj' := VisitOne(fs[i], obj, keys);
    GetAt(fs, i);
    forall name | Get(obj', name).Some?
      ensures Get(fs, name).Some? || exists j :: 0 <= j < i + 1 && Get(ChildFields(fs, keys, j), name).Some?
    {
      GetVisitOne(fs[i], obj, keys, name);
      if Get(obj, name).None? && name != fs[i].name {
        assert Get(ChildFields(fs, keys, i), name).Some?;
      }
    }
    forall j | i + 1 <= j < |fs| ensures Get(obj', fs[j].name) == Some(fs[j].value) {
      GetVisitOne(fs[i], obj, keys, fs[j].name);
    }
  }

  /** One visit moves leaves up, and loses none. */
  lemma VisitOneKeepsLeaves(fs: seq<Field>, obj: seq<Field>, keys: set<string>, i: nat)
    requires AllJs(fs) && AllJs(obj) && i < |fs| && Before(fs, obj, keys, i) && Apart(fs, keys)
    requires fs[i].name in keys ==> fs[i].value.Obj?
    requires Leaves(Clean(fs[i].value, keys)) == Leaves(fs[i].value)
    ensures LeavesOf(VisitOne(fs[i], obj, keys)) == LeavesOf(obj)
  {
    var f := fs[i];
    var value := Clean(f.value, keys);
    var put := Put(obj, Field(f.name, value));
    LeavesOfPut(obj, Field(f.name, value));
    Cancel(LeavesOf(put), LeavesOf(obj), Leaves(value));
    if f.name in keys {
      var child := FieldsOf(value);
      assert child == ChildFields(fs, keys, i);
      CleanIsJs(f.value, keys);
      FieldsAreJs(value);
      PutAllJs(obj, Field(f.name, value));
      GetAt(fs, i);
      forall k | 0 <= k < |put| ensures Get(child, put[k].name).None? {
        GetAt(put, k);
        GetPut(obj, Field(f.name, value), put[k].name);
        NameIsFree(fs, obj, keys, i, put[k].name);
      }
      LeavesOfSpread(child, put);
      GetSpread(child, put, f.name);
      GetPut(obj, Field(f.name, value), f.name);
      LeavesOfDelete(Spread(child, put), f.name);
      Cancel(LeavesOf(VisitOne(f, obj, keys)), LeavesOf(put), Leaves(value));
    }
  }

  lemma Cancel(a: multiset<Node>, b: multiset<Node>, c: multiset<Node>)
    requires a + c == b + c
    ensures a == b
  {
    forall n ensures a[n] == b[n] {
      assert (a + c)[n] == (b + c)[n];
    }
  }

  lemma NameIsFree(fs: seq<Field>, obj: seq<Field>, keys: set<string>, i: nat, name: string)
    requires i < |fs| && Before(fs, obj, keys, i) && Apart(fs, keys) && (Get(obj, name).Some? || Get(fs, name).Some?)
    ensures Get(ChildFields(fs, keys, i), name).None?
  {
    if Get(fs, name).None? {
      var j :| 0 <= j < i && Get(ChildFields(fs, keys, j), name).Some?;
    }
  }

  lemma {:induction false} VisitKeepsLeaves(fs: seq<Field>, obj: seq<Field>, keys: set<string>, i: nat)
    requires AllJs(fs) && AllJs(obj) && i <= |fs| && Before(fs, obj, keys, i) && Apart(fs, keys)
    requires forall k :: 0 <= k < |fs| ==>
               (fs[k].name in keys ==> fs[k].value.Obj?) && Leaves(Clean(fs[k].value, keys)) == Leaves(fs[k].value)
    ensures LeavesOf(Visit(fs[i..], obj, keys)) == LeavesOf(obj)
    decreases |fs| - i
  {
    hide Clean, VisitOne, IsJs, Leaves, LeavesOf, Before, Apart;
    if i < |fs| {
      assert fs[i..][0] == fs[i] && fs[i..][1..] == fs[i + 1..];
      VisitOneKeepsLeaves(fs, obj, keys, i);
      StillBefore(fs, obj, keys, i);
      VisitOneIsJs(fs[i], obj, keys);
      VisitKeepsLeaves(fs, VisitOne(fs[i], obj, keys), keys, i + 1);
    }
  }

  lemma {:induction false} CleanKeepsLeaves(n: Node, keys: set<string>)
    requires IsJs(n) && Hoistable(n, keys) && NoCollisions(n, keys)
    ensures Leaves(Clean(n, keys)) == Leaves(n)
    decreases n
  {
    if n.Obj? {
      var fs := n.fields;
      forall k | 0 <= k < |fs| ensures Leaves(Clean(fs[k].value, keys)) == Leaves(fs[k].value) {
        CleanKeepsLeaves(fs[k].value, keys);
      }
      forall j | 0 <= j < |fs| ensures Get(fs, fs[j].name) == Some(fs[j].value) { GetAt(fs, j); }
      VisitKeepsLeaves(fs, fs, keys, 0);
      assert fs[0..] == fs;
    }
  }

  /** When names do not collide, the result has the same leaves, each as often. */
  lemma LeavesAreConserved(n: Node, keys: set<string>)
    requires IsJs(n) && Hoistable(n, keys) && NoCollisions(n, keys) && Removed(n, keys).Some?
    ensures Leaves(Removed(n, keys).value) == Leaves(n)
  {
    CleanKeepsLeaves(n, keys);
  }
}
