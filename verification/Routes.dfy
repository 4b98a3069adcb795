/** The routes generated for the entry points of a contract (src/lib/generate-path-object/index.ts),
    how they are told apart (src/helpers/extract-arrays.ts) and read back
    (src/helpers/generate-transaction-details.ts). */
module Routes {

  predicate IncludesAt(s: string, sub: string, i: nat) {
    i + |sub| <= |s| && s[i..i + |sub|] == sub
  }

  predicate Includes(s: string, sub: string) {
    exists i :: 0 <= i <= |s| && IncludesAt(s, sub, i)
  }

  function Forge(name: string): string { "/forge/" + name }
  function Send(name: string): string { "/send/" + name }
  function AsyncSend(name: string): string { "/async/send/" + name }

  function PathsOf(names: seq<string>): (paths: seq<string>)
    ensures |paths| == 3 * |names|
  {
    if names == [] then []
    else
      var name := names[|names| - 1];
      PathsOf(names[..|names| - 1]) + [Forge(name), Send(name), AsyncSend(name)]
  }

  /** Assigning a property of the path object: a new key goes to the end, a known one stays where it is. */
  function WithKey(keys: seq<string>, key: string): seq<string> {
    if key in keys then keys else keys + [key]
  }

  /** The path object is filled entry point by entry point; no two paths ever coincide. */
  method GeneratePathObject(names: seq<string>) returns (keys: seq<string>)
    requires forall i, j :: 0 <= i < j < |names| ==> names[i] != names[j]
    ensures keys == PathsOf(names)
  {
    keys := [];
    for n := 0 to |names|
      invariant keys == PathsOf(names[..n])
    {
      var name := names[n];
      assert names[..n + 1][..n] == names[..n];
      forall p | p in PathsOf(names[..n]) ensures p != Forge(name) && p != Send(name) && p != AsyncSend(name) {
        OnlyItsOwnPaths(names[..n], name, p);
      }
      Apart(name, name);
      keys := WithKey(keys, Forge(name));
      keys := WithKey(keys, Send(name));
      keys := WithKey(keys, AsyncSend(name));
    }
    assert names[..|names|] == names;
  }

  lemma Apart(m: string, n: string)
    ensures Forge(m) != Send(n) && Forge(m) != AsyncSend(n) && Send(m) != AsyncSend(n)
    ensures (Forge(m) == Forge(n) || Send(m) == Send(n) || AsyncSend(m) == AsyncSend(n)) ==> m == n
  {
    assert Forge(m)[1] == 'f' && Send(m)[1] == 's' && AsyncSend(m)[1] == 'a';
    assert Forge(n)[1] == 'f' && Send(n)[1] == 's' && AsyncSend(n)[1] == 'a';
    assert Forge(m)[7..] == m && Forge(n)[7..] == n;
    assert Send(m)[6..] == m && Send(n)[6..] == n;
    assert AsyncSend(m)[12..] == m && AsyncSend(n)[12..] == n;
  }

  lemma {:induction false} OnlyItsOwnPaths(names: seq<string>, name: string, p: string)
    requires name !in names && p in PathsOf(names)
    ensures p != Forge(name) && p != Send(name) && p != AsyncSend(name)
  {
    var last := names[|names| - 1];
    Apart(last, name);
    Apart(name, last);
    if p !in [Forge(last), Send(last), AsyncSend(last)] {
      OnlyItsOwnPaths(names[..|names| - 1], name, p);
    }
  }

  /** The paths of the entry points one after another, each with its three in this order. */
  lemma {:induction false} PathsInOrder(names: seq<string>, i: nat)
    requires i < |names|
    ensures PathsOf(names)[3 * i] == "/forge/" + names[i]
    ensures PathsOf(names)[3 * i + 1] == "/send/" + names[i]
    ensures PathsOf(names)[3 * i + 2] == "/async/send/" + names[i]
  {
    if i < |names| - 1 { PathsInOrder(names[..|names| - 1], i); }
  }

  // ----- three classes ----------------------------------------------------------------------------------------

  function Filter(paths: seq<string>, keep: string -> bool): seq<string> {
    if paths == [] then []
    else
      Filter(paths[..|paths| - 1], keep) + if keep(paths[|paths| - 1]) then [paths[|paths| - 1]] else []
  }

  const IS_FORGE: string -> bool := p => Includes(p, "/forge/")
  const IS_SEND: string -> bool := p => Includes(p, "/send/") && !Includes(p, "async")
  const IS_ASYNC_SEND: string -> bool := p => Includes(p, "/send/") && Includes(p, "async")

  function All(names: seq<string>, path: string -> string): seq<string> {
    if names == [] then [] else All(names[..|names| - 1], path) + [path(names[|names| - 1])]
  }

  predicate IsSegment(name: string) {
    '/' !in name
  }

  lemma EndsOf(s: string, sub: string, i: nat)
    requires IncludesAt(s, sub, i) && |sub| > 1
    ensures s[i] == sub[0] && s[i + 1] == sub[1] && s[i + |sub| - 1] == sub[|sub| - 1]
  {
    var part := s[i..i + |sub|];
    assert part[0] == s[i] && part[1] == s[i + 1] && part[|sub| - 1] == s[i + |sub| - 1];
  }

  lemma ForgeClass(name: string)
    requires IsSegment(name)
    ensures IS_FORGE(Forge(name)) && !Includes(Forge(name), "/send/")
  {
    var s := Forge(name);
    assert IncludesAt(s, "/forge/", 0);
    forall i | 0 <= i <= |s| ensures !IncludesAt(s, "/send/", i) {
      if IncludesAt(s, "/send/", i) {
        EndsOf(s, "/send/", i);
      }
    }
  }

  lemma SendClass(name: string)
    requires IsSegment(name)
    ensures !IS_FORGE(Send(name)) && Includes(Send(name), "/send/")
    ensures Includes(Send(name), "async") <==> Includes(name, "async")
  {
    var s := Send(name);
    assert IncludesAt(s, "/send/", 0);
    forall i | 0 <= i <= |s| ensures !IncludesAt(s, "/forge/", i) {
      if IncludesAt(s, "/forge/", i) {
        EndsOf(s, "/forge/", i);
      }
    }
    AsyncInSend(name);
  }

  lemma AsyncInSend(name: string)
    ensures Includes(Send(name), "async") <==> Includes(name, "async")
  {
    var s := Send(name);
    if i :| 0 <= i <= |name| && IncludesAt(name, "async", i) {
      assert s[i + 6..i + 11] == name[i..i + 5];
      assert IncludesAt(s, "async", i + 6);
    }
    if i :| 0 <= i <= |s| && IncludesAt(s, "async", i) {
      if i < 6 {
        EndsOf(s, "async", i);
      } else {
        assert name[i - 6..i - 1] == s[i..i + 5];
        assert IncludesAt(name, "async", i - 6);
      }
    }
  }

  lemma AsyncSendClass(name: string)
    requires IsSegment(name)
    ensures !IS_FORGE(AsyncSend(name)) && IS_ASYNC_SEND(AsyncSend(name))
  {
    var s := AsyncSend(name);
    assert IncludesAt(s, "/send/", 6) && IncludesAt(s, "async", 1);
    forall i | 0 <= i <= |s| ensures !IncludesAt(s, "/forge/", i) {
      if IncludesAt(s, "/forge/", i) {
        EndsOf(s, "/forge/", i);
      }
    }
  }

  lemma FilterOne(paths: seq<string>, a: string, keep: string -> bool)
    ensures Filter(paths + [a], keep) == Filter(paths, keep) + if keep(a) then [a] else []
  {
    assert (paths + [a])[..|paths|] == paths;
  }

  lemma FilterThree(paths: seq<string>, a: string, b: string, c: string, keep: string -> bool)
    ensures Filter(paths + [a, b, c], keep) ==
            Filter(paths, keep)
            + (if keep(a) then [a] else []) + (if keep(b) then [b] else []) + (if keep(c) then [c] else [])
  {
    FilterOne(paths, a, keep);
    FilterOne(paths + [a], b, keep);
    FilterOne(paths + [a] + [b], c, keep);
    assert paths + [a, b, c] == paths + [a] + [b] + [c];
  }

  lemma {:induction false} FilterHas(paths: seq<string>, keep: string -> bool, p: string)
    ensures p in Filter(paths, keep) <==> p in paths && keep(p)
  {
    if paths != [] {
      var before, last := paths[..|paths| - 1], paths[|paths| - 1];
      FilterHas(before, keep, p);
      assert paths == before + [last];
    }
  }

  ghost predicate NoneIsAsync(names: seq<string>) {
    forall i :: 0 <= i < |names| ==> !Includes(names[i], "async")
  }

  lemma {:induction false} ForgePathsAreForge(names: seq<string>)
    requires forall i :: 0 <= i < |names| ==> IsSegment(names[i])
    ensures Filter(PathsOf(names), IS_FORGE) == All(names, Forge)
  {
    if names != [] {
      var before, name := names[..|names| - 1], names[|names| - 1];
      ForgePathsAreForge(before);
      FilterThree(PathsOf(before), Forge(name), Send(name), AsyncSend(name), IS_FORGE);
      Classes(name);
    }
  }

  /** How the three paths of one more entry point are classed. */
  lemma Classes(name: string)
    requires IsSegment(name)
    ensures IS_FORGE(Forge(name)) && !IS_FORGE(Send(name)) && !IS_FORGE(AsyncSend(name))
    ensures !IS_SEND(Forge(name)) && !IS_SEND(AsyncSend(name)) && IS_ASYNC_SEND(AsyncSend(name))
    ensures IS_SEND(Send(name)) <==> !Includes(name, "async")
    ensures !IS_ASYNC_SEND(Forge(name)) && (IS_ASYNC_SEND(Send(name)) <==> Includes(name, "async"))
  {
    hide Includes;
    ForgeClass(name);
    SendClass(name);
    AsyncSendClass(name);
  }

  lemma NoneIsAsyncStep(names: seq<string>)
    requires names != []
    ensures NoneIsAsync(names) <==> NoneIsAsync(names[..|names| - 1]) && !Includes(names[|names| - 1], "async")
  {
    hide Includes;
    var before := names[..|names| - 1];
    assert NoneIsAsync(names) ==> forall i :: 0 <= i < |before| ==> before[i] == names[i];
    forall i | 0 <= i < |names| - 1 ensures names[i] == before[i] {}
  }

  lemma {:induction false} SendPathsAreSend(names: seq<string>)
    requires forall i :: 0 <= i < |names| ==> IsSegment(names[i])
    ensures |Filter(PathsOf(names), IS_SEND)| <= |names|
    ensures NoneIsAsync(names) ==> Filter(PathsOf(names), IS_SEND) == All(names, Send)
    ensures !NoneIsAsync(names) ==> |Filter(PathsOf(names), IS_SEND)| < |names|
  {
    hide Filter, Includes, NoneIsAsync, IS_SEND;
    if names == [] {
      NoPaths(IS_SEND);
    } else {
      var before, name := names[..|names| - 1], names[|names| - 1];
      SendPathsAreSend(before);
      FilterThree(PathsOf(before), Forge(name), Send(name), AsyncSend(name), IS_SEND);
      Classes(name);
      NoneIsAsyncStep(names);
    }
  }

  lemma {:induction false} AsyncSendPathsAreAsync(names: seq<string>)
    requires forall i :: 0 <= i < |names| ==> IsSegment(names[i])
    ensures NoneIsAsync(names) ==> Filter(PathsOf(names), IS_ASYNC_SEND) == All(names, AsyncSend)
  {
    hide Filter, Includes, NoneIsAsync, IS_ASYNC_SEND;
    if names == [] {
      NoPaths(IS_ASYNC_SEND);
    } else {
      var before, name := names[..|names| - 1], names[|names| - 1];
      AsyncSendPathsAreAsync(before);
      FilterThree(PathsOf(before), Forge(name), Send(name), AsyncSend(name), IS_ASYNC_SEND);
      Classes(name);
      NoneIsAsyncStep(names);
    }
  }

  lemma NoPaths(keep: string -> bool)
    ensures Filter([], keep) == [] && NoneIsAsync([])
  {
  }

  lemma {:induction false} OnePathOneClass(names: seq<string>, p: string)
    requires p in PathsOf(names) && forall i :: 0 <= i < |names| ==> IsSegment(names[i])
    ensures IS_FORGE(p) || IS_SEND(p) || IS_ASYNC_SEND(p)
    ensures !(IS_FORGE(p) && IS_SEND(p)) && !(IS_FORGE(p) && IS_ASYNC_SEND(p)) && !(IS_SEND(p) && IS_ASYNC_SEND(p))
  {
    hide Includes;
    var before, name := names[..|names| - 1], names[|names| - 1];
    Classes(name);
    if p !in [Forge(name), Send(name), AsyncSend(name)] { OnePathOneClass(before, p); }
  }

  lemma {:induction false} AllHasLength(names: seq<string>, path: string -> string)
    ensures |All(names, path)| == |names|
  {
    if names != [] { AllHasLength(names[..|names| - 1], path); }
  }

  /** Classes of which each path is in exactly one have the size of the whole together. */
  lemma {:induction false} ClassSizes(paths: seq<string>, a: string -> bool, b: string -> bool, c: string -> bool)
    requires forall p <- paths :: (a(p) || b(p) || c(p)) && !(a(p) && b(p)) && !(a(p) && c(p)) && !(b(p) && c(p))
    ensures |Filter(paths, a)| + |Filter(paths, b)| + |Filter(paths, c)| == |paths|
  {
    if paths != [] {
      assert paths[|paths| - 1] in paths;
      ClassSizes(paths[..|paths| - 1], a, b, c);
    }
  }

  lemma SizesOfClasses(names: seq<string>)
    requires forall i :: 0 <= i < |names| ==> IsSegment(names[i])
    ensures var paths := PathsOf(names);
            |Filter(paths, IS_FORGE)| + |Filter(paths, IS_SEND)| + |Filter(paths, IS_ASYNC_SEND)| == |paths|
  {
    hide Filter, PathsOf, Includes, IS_FORGE, IS_SEND, IS_ASYNC_SEND;
    forall p <- PathsOf(names)
      ensures IS_FORGE(p) || IS_SEND(p) || IS_ASYNC_SEND(p)
      ensures !(IS_FORGE(p) && IS_SEND(p)) && !(IS_FORGE(p) && IS_ASYNC_SEND(p)) && !(IS_SEND(p) && IS_ASYNC_SEND(p))
    {
      OnePathOneClass(names, p);
    }
    ClassSizes(PathsOf(names), IS_FORGE, IS_SEND, IS_ASYNC_SEND);
  }

  predicate InOneOf<T(==)>(x: T, a: seq<T>, b: seq<T>, c: seq<T>) {
    || (x in a && x !in b && x !in c)
    || (x !in a && x in b && x !in c)
    || (x !in a && x !in b && x in c)
  }

  /** For entry points whose names are path segments, each of the 3n paths falls into exactly one of three
      classes, and nothing else does; the forge class is the n forge paths in order, and the others are the
      n send and the n asynchronous send paths exactly when no name contains `async`. */
  lemma PathsFallIntoThreeClasses(names: seq<string>)
    requires forall i :: 0 <= i < |names| ==> IsSegment(names[i])
    ensures var paths := PathsOf(names);
            var forge, send, asyncSend :=
              Filter(paths, IS_FORGE), Filter(paths, IS_SEND), Filter(paths, IS_ASYNC_SEND);
            && (forall p <- paths :: InOneOf(p, forge, send, asyncSend))
            && (forall p <- forge + send + asyncSend :: p in paths)
            && |forge| + |send| + |asyncSend| == |paths| == 3 * |names|
            && forge == All(names, Forge)
            && (send == All(names, Send) && asyncSend == All(names, AsyncSend) <==> NoneIsAsync(names))
  {
    hide Filter, PathsOf, Includes, NoneIsAsync, IsSegment;
    var paths := PathsOf(names);
    ForgePathsAreForge(names);
    SendPathsAreSend(names);
    AsyncSendPathsAreAsync(names);
    AllHasLength(names, Send);
    forall p ensures p in Filter(paths, IS_FORGE) <==> p in paths && IS_FORGE(p) { FilterHas(paths, IS_FORGE, p); }
    forall p ensures p in Filter(paths, IS_SEND) <==> p in paths && IS_SEND(p) { FilterHas(paths, IS_SEND, p); }
    forall p ensures p in Filter(paths, IS_ASYNC_SEND) <==> p in paths && IS_ASYNC_SEND(p) {
      FilterHas(paths, IS_ASYNC_SEND, p);
    }
    forall p <- paths
      ensures InOneOf(p, Filter(paths, IS_FORGE), Filter(paths, IS_SEND), Filter(paths, IS_ASYNC_SEND))
    {
      OnePathOneClass(names, p);
    }
    SizesOfClasses(names);
  }

  // ----- reading a path back ------------------------------------------------------------------------------------

  /** What comes after the last slash. */
  function LastSegment(path: string): string {
    if '/' in path then LastSegment(path[1..]) else path
  }

  function BeforeQuery(s: string): string {
    if s == "" || s[0] == '?' then "" else [s[0]] + BeforeQuery(s[1..])
  }

  function EntryPointOf(path: string): string {
    BeforeQuery(LastSegment(path))
  }

  lemma {:induction false} SlashAndSegment(prefix: string, name: string)
    requires IsSegment(name)
    ensures LastSegment(prefix + "/" + name) == name
    decreases |prefix|
  {
    var s := prefix + "/" + name;
    assert s[|prefix|] == '/';
    if prefix == "" {
      assert s[1..] == name;
    } else {
      assert s[1..] == prefix[1..] + "/" + name;
      SlashAndSegment(prefix[1..], name);
    }
  }

  lemma {:induction false} LastSegmentHasNoSlash(path: string)
    ensures '/' !in LastSegment(path)
  {
    if '/' in path { LastSegmentHasNoSlash(path[1..]); }
  }

  lemma {:induction false} BeforeQueryKeeps(s: string)
    ensures BeforeQuery(s) == s <==> '?' !in s
    ensures '?' !in BeforeQuery(s) && forall c :: c in BeforeQuery(s) ==> c in s
  {
    if s != "" && s[0] != '?' {
      BeforeQueryKeeps(s[1..]);
      assert BeforeQuery(s)[1..] == BeforeQuery(s[1..]);
    }
  }

  /** Each of the three paths of an entry point is read back as the entry point exactly when its name
      contains neither `/` nor `?`. */
  lemma PathsReadBack(name: string)
    ensures EntryPointOf(Forge(name)) == name <==> IsSegment(name) && '?' !in name
    ensures EntryPointOf(Send(name)) == name <==> IsSegment(name) && '?' !in name
    ensures EntryPointOf(AsyncSend(name)) == name <==> IsSegment(name) && '?' !in name
  {
    ReadsBackAfter("/forge", name);
    ReadsBackAfter("/send", name);
    ReadsBackAfter("/async/send", name);
    assert Forge(name) == "/forge" + "/" + name && Send(name) == "/send" + "/" + name;
    assert AsyncSend(name) == "/async/send" + "/" + name;
  }

  lemma ReadsBackAfter(prefix: string, name: string)
    ensures EntryPointOf(prefix + "/" + name) == name <==> IsSegment(name) && '?' !in name
  {
    var last := LastSegment(prefix + "/" + name);
    LastSegmentHasNoSlash(prefix + "/" + name);
    BeforeQueryKeeps(last);
    if IsSegment(name) { SlashAndSegment(prefix, name); }
  }
}
