/**
 The stylesheets a route's chunk brings: a depth-first walk over the bundler's manifest, whose import
 graph may be cyclic and may name chunks the manifest does not list.
 */
module Stylesheets {
  import opened Options

  type Name = string

  datatype Chunk = Chunk(css: seq<string>, imports: seq<Name>)

  /** The manifest's keys in their own order, and its chunks. */
  datatype Manifest = Manifest(keys: seq<Name>, chunks: map<Name, Chunk>)

  function Imports(m: Manifest, name: Name): seq<Name> {
    if name in m.chunks then m.chunks[name].imports else []
  }

  function Css(m: Manifest, name: Name): seq<string> {
    if name in m.chunks then m.chunks[name].css else []
  }

  /** An insertion-ordered set. */
  predicate NoDuplicates<T(==)>(s: seq<T>) {
    forall i, j :: 0 <= i < j < |s| ==> s[i] != s[j]
  }

  function Elements<T>(s: seq<T>): set<T> {
    set x | x in s
  }

  // ----- reachability

  ghost predicate IsPath(m: Manifest, path: seq<Name>) {
    path != [] && forall i :: 0 < i < |path| ==> path[i] in Imports(m, path[i - 1])
  }

  ghost predicate PathBetween(m: Manifest, path: seq<Name>, from: Name, to: Name) {
    IsPath(m, path) && path[0] == from && path[|path| - 1] == to
  }

  ghost predicate Reachable(m: Manifest, from: Name, to: Name) {
    exists path :: PathBetween(m, path, from, to)
  }

  lemma ReachableSelf(m: Manifest, name: Name)
    ensures Reachable(m, name, name)
  {
    assert PathBetween(m, [name], name, name);
  }

  lemma ReachableThrough(m: Manifest, name: Name, imported: Name, to: Name)
    requires imported in Imports(m, name) && Reachable(m, imported, to)
    ensures Reachable(m, name, to)
  {
    var path :| PathBetween(m, path, imported, to);
    assert PathBetween(m, [name] + path, name, to);
  }

  // ----- the walk

  /** Every name the manifest mentions, and one more. */
  function Universe(m: Manifest, root: Name): set<Name> {
    {root} + m.chunks.Keys + set n, i | n in m.chunks && i in m.chunks[n].imports :: i
  }

  ghost predicate Closed(m: Manifest, all: set<Name>) {
    forall n, i :: n in m.chunks && i in m.chunks[n].imports ==> i in all
  }

  lemma CountDrops(all: set<Name>, seen: seq<Name>, name: Name)
    requires name in all && name !in seen
    ensures |all - Elements(seen + [name])| < |all - Elements(seen)|
  {
    assert all - Elements(seen + [name]) == (all - Elements(seen)) - {name};
  }

  lemma CountShrinks(all: set<Name>, seen: seq<Name>, more: seq<Name>)
    requires seen <= more
    ensures |all - Elements(more)| <= |all - Elements(seen)|
  {
    SubsetCount(all - Elements(more), all - Elements(seen));
  }

  lemma {:induction false} SubsetCount(a: set<Name>, b: set<Name>)
    requires a <= b
    ensures |a| <= |b|
  {
    if a != {} {
      var x :| x in a;
      SubsetCount(a - {x}, b - {x});
    }
  }

  /** The names seen once the walk of `name` is over, in the order of their first visit. */
  ghost function Visit(m: Manifest, all: set<Name>, name: Name, seen: seq<Name>): (r: seq<Name>)
    requires Closed(m, all) && name in all
    ensures seen <= r
    decreases |all - Elements(seen)|, 0
  {
    if name in seen then seen
    else
      CountDrops(all, seen, name);
      VisitAll(m, all, Imports(m, name), seen + [name])
  }

  ghost function VisitAll(m: Manifest, all: set<Name>, names: seq<Name>, seen: seq<Name>): (r: seq<Name>)
    requires Closed(m, all) && forall n :: n in names ==> n in all
    ensures seen <= r
    decreases |all - Elements(seen)|, |names|
  {
    if names == [] then seen
    else
      var next := Visit(m, all, names[0], seen);
      CountShrinks(all, seen, next);
      VisitAll(m, all, names[1..], next)
  }

  function Added(css: seq<string>, files: seq<string>, entryCss: set<string>): seq<string>
    decreases |files|
  {
    if files == [] then css
    else Added(if files[0] in entryCss || files[0] in css then css else css + [files[0]], files[1..], entryCss)
  }

  /** The css set after visiting these names in this order. */
  function Collected(m: Manifest, entryCss: set<string>, seen: seq<Name>): seq<string> {
    if seen == [] then []
    else Added(Collected(m, entryCss, seen[..|seen| - 1]), Css(m, seen[|seen| - 1]), entryCss)
  }

  // ----- the walk visits exactly what is reachable

  /** Every new name is reachable from one of the roots. */
  ghost predicate Rooted(m: Manifest, roots: seq<Name>, seen: seq<Name>, r: seq<Name>) {
    forall n :: n in r && n !in seen ==> exists root :: root in roots && Reachable(m, root, n)
  }

  /** All imports of the new names were visited too. */
  ghost predicate Followed(m: Manifest, seen: seq<Name>, r: seq<Name>) {
    forall n :: n in r && n !in seen ==> forall i :: i in Imports(m, n) ==> i in r
  }

  ghost predicate Grown(m: Manifest, roots: seq<Name>, seen: seq<Name>, r: seq<Name>) {
    && seen <= r && NoDuplicates(r) && (forall n :: n in roots ==> n in r)
    && Rooted(m, roots, seen, r) && Followed(m, seen, r)
  }

  lemma RootedAt(m: Manifest, name: Name, seen: seq<Name>, r: seq<Name>)
    requires Rooted(m, Imports(m, name), seen + [name], r)
    ensures Rooted(m, [name], seen, r)
  {
    forall n | n in r && n !in seen ensures exists root :: root in [name] && Reachable(m, root, n) {
      assert name in [name];
      if n == name {
        ReachableSelf(m, name);
      } else {
        assert n !in seen + [name];
        var root :| root in Imports(m, name) && Reachable(m, root, n);
        ReachableThrough(m, name, root, n);
      }
    }
  }

  lemma FollowedAt(m: Manifest, name: Name, seen: seq<Name>, r: seq<Name>)
    requires Followed(m, seen + [name], r) && forall i :: i in Imports(m, name) ==> i in r
    ensures Followed(m, seen, r)
  {
    forall n | n in r && n !in seen ensures forall i :: i in Imports(m, n) ==> i in r {
      if n != name { assert n !in seen + [name]; }
    }
  }

  lemma RootedThen(m: Manifest, names: seq<Name>, seen: seq<Name>, next: seq<Name>, r: seq<Name>)
    requires names != [] && Rooted(m, [names[0]], seen, next) && Rooted(m, names[1..], next, r)
    ensures Rooted(m, names, seen, r)
  {
    forall n | n in r && n !in seen ensures exists root :: root in names && Reachable(m, root, n) {
      if n in next {
        var root :| root in [names[0]] && Reachable(m, root, n);
        assert root in names;
      } else {
        var root :| root in names[1..] && Reachable(m, root, n);
        assert root in names;
      }
    }
  }

  lemma FollowedThen(m: Manifest, seen: seq<Name>, next: seq<Name>, r: seq<Name>)
    requires Followed(m, seen, next) && Followed(m, next, r) && next <= r
    ensures Followed(m, seen, r)
  {
    forall n | n in r && n !in seen ensures forall i :: i in Imports(m, n) ==> i in r {
      if n in next { assert forall i :: i in Imports(m, n) ==> i in next; }
    }
  }

  lemma {:induction false} VisitGrows(m: Manifest, all: set<Name>, name: Name, seen: seq<Name>)
    requires Closed(m, all) && name in all && NoDuplicates(seen)
    ensures Grown(m, [name], seen, Visit(m, all, name, seen))
    decreases |all - Elements(seen)|, 0
  {
    if name !in seen {
      CountDrops(all, seen, name);
      var start := seen + [name];
      var r := VisitAll(m, all, Imports(m, name), start);
      VisitAllGrows(m, all, Imports(m, name), start);
      RootedAt(m, name, seen, r);
      FollowedAt(m, name, seen, r);
      assert start[|seen|] == name && name in r;
    }
  }

  lemma {:induction false} VisitAllGrows(m: Manifest, all: set<Name>, names: seq<Name>, seen: seq<Name>)
    requires Closed(m, all) && (forall n :: n in names ==> n in all) && NoDuplicates(seen)
    ensures Grown(m, names, seen, VisitAll(m, all, names, seen))
    decreases |all - Elements(seen)|, |names|
  {
    if names != [] {
      var next := Visit(m, all, names[0], seen);
      VisitGrows(m, all, names[0], seen);
      CountShrinks(all, seen, next);
      VisitAllGrows(m, all, names[1..], next);
      var r := VisitAll(m, all, names[1..], next);
      RootedThen(m, names, seen, next, r);
      FollowedThen(m, seen, next, r);
      forall n | n in names ensures n in r {
        if n == names[0] { assert n in [names[0]] && n in next; } else { assert n in names[1..]; }
      }
    }
  }

  lemma {:induction false} PathStaysSeen(m: Manifest, path: seq<Name>, r: seq<Name>)
    requires IsPath(m, path) && path[0] in r
    requires forall n, i :: n in r && i in Imports(m, n) ==> i in r
    ensures path[|path| - 1] in r
    decreases |path|
  {
    if |path| > 1 {
      var front := path[..|path| - 1];
      PathStaysSeen(m, front, r);
      assert path[|path| - 1] in Imports(m, path[|path| - 2]);
    }
  }

  /** The walk terminates on any graph and visits exactly the reachable names, each once. */
  lemma VisitsReachable(m: Manifest, all: set<Name>, root: Name)
    requires Closed(m, all) && root in all
    ensures var r := Visit(m, all, root, []);
      NoDuplicates(r) && forall n :: n in r <==> Reachable(m, root, n)
  {
    VisitGrows(m, all, root, []);
    var r := Visit(m, all, root, []);
    forall n ensures n in r <==> Reachable(m, root, n) {
      if Reachable(m, root, n) {
        var path :| PathBetween(m, path, root, n);
        assert root in [root];
        assert forall k, i :: k in r && i in Imports(m, k) ==> k !in [] && i in r;
        PathStaysSeen(m, path, r);
      }
    }
  }

  // ----- the stylesheets collected

  lemma {:induction false} AddedExact(css: seq<string>, files: seq<string>, entryCss: set<string>)
    requires NoDuplicates(css)
    ensures var r := Added(css, files, entryCss);
      NoDuplicates(r) && forall f :: f in r <==> f in css || (f in files && f !in entryCss)
    decreases |files|
  {
    if files != [] {
      var next := if files[0] in entryCss || files[0] in css then css else css + [files[0]];
      AddedExact(next, files[1..], entryCss);
    }
  }

  lemma {:induction false} CollectedExact(m: Manifest, entryCss: set<string>, seen: seq<Name>)
    ensures var r := Collected(m, entryCss, seen);
      NoDuplicates(r) && forall f :: f in r <==> f !in entryCss && exists n :: n in seen && f in Css(m, n)
  {
    if seen != [] {
      var front, last := seen[..|seen| - 1], seen[|seen| - 1];
      CollectedExact(m, entryCss, front);
      AddedExact(Collected(m, entryCss, front), Css(m, last), entryCss);
      assert forall n :: n in seen <==> n in front || n == last;
    }
  }

  predicate EndsWith(s: string, tail: string) {
    |tail| <= |s| && s[|s| - |tail|..] == tail
  }

  /** The first key that is the module or ends in it. */
  function FindKey(keys: seq<Name>, module_: string): Option<Name> {
    if keys == [] then None
    else if keys[0] == module_ || EndsWith(keys[0], "/" + module_) then Some(keys[0])
    else FindKey(keys[1..], module_)
  }

  /** A key is the module's if it is the module itself, or ends in a slash and the module. */
  predicate KeyOf(key: Name, module_: string) {
    key == module_ || exists k :: 0 <= k <= |key| && key[k..] == "/" + module_
  }

  /** The first of the manifest's keys that is the module's, if any is. */
  lemma {:induction false} FindKeyIsFirst(keys: seq<Name>, module_: string)
    ensures match FindKey(keys, module_)
      case None => forall k :: 0 <= k < |keys| ==> !KeyOf(keys[k], module_)
      case Some(key) => exists i :: 0 <= i < |keys| && keys[i] == key && KeyOf(key, module_)
                                    && forall k :: 0 <= k < i ==> !KeyOf(keys[k], module_)
  {
    if keys != [] {
      EndsWithIff(keys[0], "/" + module_);
      if !KeyOf(keys[0], module_) {
        FindKeyIsFirst(keys[1..], module_);
        var rest := FindKey(keys[1..], module_);
        assert FindKey(keys, module_) == rest;
        if rest.Some? {
          var i :| 0 <= i < |keys[1..]| && keys[1..][i] == rest.value && KeyOf(rest.value, module_)
                   && forall k :: 0 <= k < i ==> !KeyOf(keys[1..][k], module_);
          assert keys[i + 1] == rest.value;
          assert forall k :: 1 <= k < i + 1 ==> keys[k] == keys[1..][k - 1];
        } else {
          assert forall k :: 1 <= k < |keys| ==> keys[k] == keys[1..][k - 1];
        }
      }
    }
  }

  lemma EndsWithIff(s: string, end: string)
    ensures EndsWith(s, end) <==> exists k :: 0 <= k <= |s| && s[k..] == end
  {
    if EndsWith(s, end) { assert s[|s| - |end|..] == end; }
  }

  function EntryCss(m: Manifest): set<string> {
    Elements(Css(m, "index.html"))
  }

  lemma UniverseClosed(m: Manifest, root: Name)
    ensures Closed(m, Universe(m, root)) && root in Universe(m, root)
  {}

  ghost function Route(m: Manifest, module_: Option<string>): seq<string> {
    if module_.None? || module_.value == "" then []
    else match FindKey(m.keys, module_.value)
      case None => []
      case Some(key) =>
        UniverseClosed(m, key);
        Collected(m, EntryCss(m), Visit(m, Universe(m, key), key, []))
  }

  /**
   Without duplicates, exactly the css files of the chunks reachable from the route's chunk, less the
   entry's own, however the imports loop.
   */
  lemma RouteIsExact(m: Manifest, module_: string, key: Name)
    requires module_ != "" && FindKey(m.keys, module_) == Some(key)
    ensures var r := Route(m, Some(module_));
      && NoDuplicates(r)
      && forall f :: f in r <==>
           f !in Css(m, "index.html") && exists n :: Reachable(m, key, n) && f in Css(m, n)
  {
    var all := Universe(m, key);
    UniverseClosed(m, key);
    VisitsReachable(m, all, key);
    CollectedExact(m, EntryCss(m), Visit(m, all, key, []));
  }

  // ----- the program

  /** The closure of `routeStylesheets`; both of its sets keep the order of insertion. */
  class Walker {
    const manifest: Manifest
    const entryCss: set<string>
    ghost const all: set<Name>
    var seen: seq<Name>
    var css: seq<string>

    ghost predicate Valid()
      reads this
    {
      Closed(manifest, all) && css == Collected(manifest, entryCss, seen)
    }

    constructor (manifest: Manifest, ghost root: Name)
      ensures Valid() && this.manifest == manifest && entryCss == EntryCss(manifest)
      ensures all == Universe(manifest, root) && seen == []
    {
      UniverseClosed(manifest, root);
      this.manifest, entryCss, all := manifest, EntryCss(manifest), Universe(manifest, root);
      seen, css := [], [];
    }

    method Walk(name: Name)
      requires Valid() && name in all
      modifies this
      ensures Valid() && seen == Visit(manifest, all, name, old(seen))
      decreases |all - Elements(seen)|
    {
      if name in seen { return; }
      CountDrops(all, seen, name);
      ghost var files := Css(manifest, name);
      seen := seen + [name];
      ghost var before := css;
      assert seen[..|seen| - 1] == old(seen);
      var k := 0;
      while k < |Css(manifest, name)|
        invariant k <= |files| && seen == old(seen) + [name]
        invariant Added(css, files[k..], entryCss) == Added(before, files, entryCss)
      {
        var file := Css(manifest, name)[k];
        assert files[k..][1..] == files[k + 1..];
        if file !in entryCss && file !in css { css := css + [file]; }
        k := k + 1;
      }
      assert Valid();
      ghost var start := seen;
      var imports := Imports(manifest, name);
      assert imports[0..] == imports;
      for i := 0 to |imports|
        invariant Valid() && start <= seen
        invariant VisitAll(manifest, all, imports[i..], seen) == VisitAll(manifest, all, imports, start)
      {
        assert imports[i..][1..] == imports[i + 1..];
        CountShrinks(all, start, seen);
        Walk(imports[i]);
      }
    }
  }

  method RouteStylesheets(m: Manifest, module_: Option<string>) returns (css: seq<string>)
    ensures css == Route(m, module_)
  {
    if module_.None? || module_.value == "" { return []; }
    var key := FindKey(m.keys, module_.value);
    if key.None? { return []; }
    var walker := new Walker(m, key.value);
    walker.Walk(key.value);
    return walker.css;
  }
}
