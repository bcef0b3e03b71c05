/**
  `exportRoutes` of the legacy router (src/export-routes.ts): the JSON view of
  `routesSwitch` turned into one sorted list of URL patterns per method, the
  routes of `context` and `any` handlers spread over the methods their paths
  name.
 */
module RouteExport {
  import opened Wrappers
  import opened Strings
  import opened Sorting
  import opened Objects
  import opened Legacy
  import opened JsonExport
  import opened ExportJson
  import opened ExportPaths

  /** An exported object: a list of URL patterns per method. */
  type PathTable = seq<Prop<seq<string>>>

  /** `acc[key] || []` on a path table (an array is always truthy). */
  function ListOf(o: PathTable, key: string): (r: seq<string>)
    ensures ValueOf(o, key).Some? ==> r == ValueOf(o, key).value
    ensures ValueOf(o, key).None? ==> r == []
  {
    match ValueOf(o, key)
    case Some(l) => l
    case None => []
  }


  /** The class `[a-zA-z_]`: `A-z` runs from 'A' to 'z', which holds `a-z` and `_`. */
  predicate NameChar(c: char) {
    'A' <= c <= 'z'
  }

  /** The length of the longest run of name characters `s` starts with. */
  function NameRun(s: string): (n: nat)
    ensures n <= |s|
    decreases |s|
  {
    if s != [] && NameChar(s[0]) then 1 + NameRun(s[1..]) else 0
  }

  /** The run is made of name characters and stops at the first other one. */
  lemma {:induction false} NameRunSpec(s: string)
    ensures forall i :: 0 <= i < NameRun(s) ==> NameChar(s[i])
    ensures NameRun(s) < |s| ==> !NameChar(s[NameRun(s)])
    decreases |s|
  {
    if s != [] && NameChar(s[0]) {
      NameRunSpec(s[1..]);
      forall i | 1 <= i < NameRun(s) ensures NameChar(s[i]) {
        assert s[i] == s[1..][i - 1];
      }
    }
  }

  /**
    `normalizeMatcher(url)`, a global replace of the pattern `:[a-zA-z_]`
    repeated any number of times by `:match`: every `:` together with the
    longest run of name characters after it becomes `:match`; the scan goes on
    after the replaced text.
   */
  function NormalizeMatcher(url: string): string
    decreases |url|
  {
    if url == [] then []
    else if url[0] == ':' then ":match" + NormalizeMatcher(url[1 + NameRun(url[1..])..])
    else [url[0]] + NormalizeMatcher(url[1..])
  }

  /** A URL without parameters is its own normal form. */
  lemma {:induction false} NormalizeNoParam(url: string)
    requires ':' !in url
    ensures NormalizeMatcher(url) == url
    decreases |url|
  {
    if url != [] {
      assert ':' !in url[1..] by {
        forall i | 0 <= i < |url[1..]| ensures url[1..][i] != ':' {
          assert url[1..][i] == url[i + 1];
        }
      }
      NormalizeNoParam(url[1..]);
    }
  }

  /** A `:` stops a run of name characters. */
  lemma {:induction false} NameRunColon(a: string, b: string)
    ensures NameRun(a + ":" + b) == NameRun(a)
    decreases |a|
  {
    if a != [] && NameChar(a[0]) {
      assert (a + ":" + b)[1..] == a[1..] + ":" + b;
      NameRunColon(a[1..], b);
    } else if a == [] {
      assert (a + ":" + b)[0] == ':';
    } else {
      assert (a + ":" + b)[0] == a[0];
    }
  }

  /** A run of name characters followed by anything else is read whole. */
  lemma {:induction false} NameRunWhole(name: string, rest: string)
    requires forall i :: 0 <= i < |name| ==> NameChar(name[i])
    requires rest == [] || !NameChar(rest[0])
    ensures NameRun(name + rest) == |name|
    decreases |name|
  {
    if name == [] {
      assert name + rest == rest;
    } else {
      assert (name + rest)[0] == name[0];
      assert (name + rest)[1..] == name[1..] + rest;
      NameRunWhole(name[1..], rest);
    }
  }

  /** Normalizing splits at every `:`: what precedes it normalizes on its own. */
  lemma {:induction false} NormalizeSplit(p: string, rest: string)
    ensures NormalizeMatcher(p + ":" + rest) == NormalizeMatcher(p) + NormalizeMatcher(":" + rest)
    decreases |p|
  {
    var u := p + ":" + rest;
    if p == [] {
      assert u == ":" + rest;
    } else if p[0] == ':' {
      var m := NameRun(p[1..]);
      assert u[1..] == p[1..] + ":" + rest;
      NameRunColon(p[1..], rest);
      assert u[1 + m..] == p[1 + m..] + ":" + rest;
      NormalizeSplit(p[1 + m..], rest);
    } else {
      assert u[0] == p[0];
      assert u[1..] == p[1..] + ":" + rest;
      NormalizeSplit(p[1..], rest);
    }
  }

  /** A parameter `:name` normalizes to `:match`, whatever its name. */
  lemma NormalizeParam(name: string, rest: string)
    requires forall i :: 0 <= i < |name| ==> NameChar(name[i])
    requires rest == [] || !NameChar(rest[0])
    ensures NormalizeMatcher(":" + name + rest) == ":match" + NormalizeMatcher(rest)
  {
    var u := ":" + name + rest;
    assert u[1..] == name + rest;
    NameRunWhole(name, rest);
    assert u[1 + |name|..] == rest;
  }

  /** A route with a parameter, read as the text before the `:` and the text after it. */
  lemma Regroup(p: string, a: string, q: string)
    ensures p + ":" + a + q == p + ":" + (a + q)
    ensures ":" + (a + q) == ":" + a + q
  {
  }

  /**
    Two routes that differ only in the name of one parameter normalize alike,
    which is how the export recognises a route a context already matches.
   */
  lemma NormalizeRename(p: string, a: string, b: string, q: string)
    requires forall i :: 0 <= i < |a| ==> NameChar(a[i])
    requires forall i :: 0 <= i < |b| ==> NameChar(b[i])
    requires q == [] || !NameChar(q[0])
    ensures NormalizeMatcher(p + ":" + a + q) == NormalizeMatcher(p + ":" + b + q)
  {
    Regroup(p, a, q);
    Regroup(p, b, q);
    NormalizeSplit(p, a + q);
    NormalizeSplit(p, b + q);
    NormalizeParam(a, q);
    NormalizeParam(b, q);
  }

  /** A normalized URL never starts with a name character unless the URL does. */
  lemma {:induction false} NormalizeHead(url: string)
    requires url == [] || !NameChar(url[0])
    ensures NormalizeMatcher(url) == [] || !NameChar(NormalizeMatcher(url)[0])
  {
  }

  /** Normalizing twice is normalizing once: `:match` normalizes to itself. */
  lemma {:induction false} NormalizeIdempotent(url: string)
    ensures NormalizeMatcher(NormalizeMatcher(url)) == NormalizeMatcher(url)
    decreases |url|
  {
    if url != [] {
      if url[0] == ':' {
        var tail := url[1 + NameRun(url[1..])..];
        NormalizeIdempotent(tail);
        AfterName(url);
        NormalizeHead(tail);
        MatchNormal(NormalizeMatcher(tail));
      } else {
        NormalizeIdempotent(url[1..]);
        NormalizeCons(url[0], NormalizeMatcher(url[1..]));
      }
    }
  }

  /** What follows a `:` and its name does not start with a name character. */
  lemma AfterName(url: string)
    requires url != [] && url[0] == ':'
    ensures var tail := url[1 + NameRun(url[1..])..];
      tail == [] || !NameChar(tail[0])
  {
    var m := NameRun(url[1..]);
    NameRunSpec(url[1..]);
    assert url[1 + m..] == url[1..][m..];
  }

  /** `:match` normalizes to itself. */
  lemma MatchNormal(rest: string)
    requires rest == [] || !NameChar(rest[0])
    ensures NormalizeMatcher(":match" + rest) == ":match" + NormalizeMatcher(rest)
  {
    assert forall i :: 0 <= i < |"match"| ==> NameChar("match"[i]);
    NormalizeParam("match", rest);
    assert ":match" + rest == ":" + "match" + rest;
  }

  /** A character other than `:` is kept in front. */
  lemma NormalizeCons(c: char, rest: string)
    requires c != ':'
    ensures NormalizeMatcher([c] + rest) == [c] + NormalizeMatcher(rest)
  {
    var n := [c] + rest;
    assert n[0] == c && n[1..] == rest;
  }


  /** `VERBS`, in the order `findVerb` tries them. */
  const Verbs: seq<string> := ["GET", "POST", "PATCH", "PUT", "DELETE", "OPTIONS", "ANY"]

  lemma VerbsDistinct()
    ensures forall i, j :: 0 <= i < j < |Verbs| ==> Verbs[i] != Verbs[j]
    ensures Verbs[|Verbs| - 1] == "ANY"
  {
  }

  /**
    The position in `VERBS` of the verb `findVerb` picks: the first verb the
    route contains, or the last one, `ANY`, when it contains none before it.
   */
  function VerbIndexFrom(route: string, i: nat): (r: nat)
    requires i < |Verbs|
    ensures i <= r < |Verbs|
    decreases |Verbs| - i
  {
    if i == |Verbs| - 1 || Contains(route, Verbs[i]) then i else VerbIndexFrom(route, i + 1)
  }

  lemma {:induction false} VerbIndexSpec(route: string, i: nat)
    requires i < |Verbs|
    ensures forall j :: i <= j < VerbIndexFrom(route, i) ==> !Contains(route, Verbs[j])
    ensures VerbIndexFrom(route, i) < |Verbs| - 1 ==> Contains(route, Verbs[VerbIndexFrom(route, i)])
    decreases |Verbs| - i
  {
    if !(i == |Verbs| - 1 || Contains(route, Verbs[i])) {
      VerbIndexSpec(route, i + 1);
    }
  }

  /** `findVerb(route)` */
  function FindVerb(route: string): (r: string)
    ensures r in Verbs
  {
    Verbs[VerbIndexFrom(route, 0)]
  }

  /**
    `findVerb` picks the first verb of `VERBS` the route contains, and `ANY`
    exactly when it contains none of the others.
   */
  lemma FindVerbFirst(route: string)
    ensures FindVerb(route) != "ANY" ==> Contains(route, FindVerb(route))
    ensures FindVerb(route) == "ANY" <==> forall j :: 0 <= j < |Verbs| - 1 ==> !Contains(route, Verbs[j])
    ensures forall j :: 0 <= j < |Verbs| && Verbs[j] == FindVerb(route) ==>
      forall k :: 0 <= k < j ==> !Contains(route, Verbs[k])
  {
    VerbsDistinct();
    VerbIndexSpec(route, 0);
  }

  /** The path filed under `findVerb(route)`: its verb segment and every `ANY/` dropped. */
  function StripVerb(route: string): (r: string)
    ensures |r| <= |route|
    ensures Contains(route, FindVerb(route) + "/") ==> |r| + |FindVerb(route)| + 1 <= |route|
    ensures !Contains(route, FindVerb(route) + "/") && !Contains(route, "ANY/") ==> r == route
  {
    RemoveAll(ReplaceFirst(route, FindVerb(route) + "/", ""), "ANY/")
  }

  /** The reduce of `groupByVerb` from a given accumulator. */
  function GroupFrom(acc: PathTable, paths: seq<string>): PathTable
    decreases |paths|
  {
    if paths == [] then acc
    else
      var verb := FindVerb(paths[0]);
      GroupFrom(WithProp(acc, verb, ListOf(acc, verb) + [StripVerb(paths[0])]), paths[1..])
  }

  /** The paths of `paths` that belong to `verb`, stripped, in order. */
  function Picked(paths: seq<string>, verb: string): seq<string>
    decreases |paths|
  {
    if paths == [] then []
    else (if FindVerb(paths[0]) == verb then [StripVerb(paths[0])] else []) + Picked(paths[1..], verb)
  }

  lemma {:induction false} GroupFromList(acc: PathTable, paths: seq<string>, v: string)
    ensures ListOf(GroupFrom(acc, paths), v) == ListOf(acc, v) + Picked(paths, v)
    decreases |paths|
  {
    if paths != [] {
      var verb := FindVerb(paths[0]);
      var s0 := StripVerb(paths[0]);
      var next := WithProp(acc, verb, ListOf(acc, verb) + [s0]);
      assert GroupFrom(acc, paths) == GroupFrom(next, paths[1..]);
      GroupFromList(next, paths[1..], v);
      GroupStep(acc, verb, s0, v);
      PickedStep(paths, v);
      Regroup3(ListOf(acc, v), if verb == v then [s0] else [], Picked(paths[1..], v));
    }
  }

  /** The grouped list so far, the path just filed, and the rest, read as the list and its extension. */
  lemma Regroup3(a: seq<string>, b: seq<string>, c: seq<string>)
    ensures a + b + c == a + (b + c)
  {
  }

  lemma PickedStep(paths: seq<string>, v: string)
    requires paths != []
    ensures Picked(paths, v) == (if FindVerb(paths[0]) == v then [StripVerb(paths[0])] else []) + Picked(paths[1..], v)
  {
  }

  /** One step of `groupByVerb`: only the list of the path's own verb grows. */
  lemma GroupStep(acc: PathTable, verb: string, path: string, v: string)
    ensures ListOf(WithProp(acc, verb, ListOf(acc, verb) + [path]), v) ==
      ListOf(acc, v) + (if verb == v then [path] else [])
  {
    if v != verb {
      WithPropOthers(acc, verb, ListOf(acc, verb) + [path], v);
    }
  }

  lemma {:induction false} GroupFromKeys(acc: PathTable, paths: seq<string>)
    ensures forall k :: k in Keys(GroupFrom(acc, paths)) ==> k in Keys(acc) || k in Verbs
    decreases |paths|
  {
    if paths != [] {
      var verb := FindVerb(paths[0]);
      GroupFromKeys(WithProp(acc, verb, ListOf(acc, verb) + [StripVerb(paths[0])]), paths[1..]);
    }
  }

  lemma GroupFromLists(acc: PathTable, paths: seq<string>)
    ensures forall v :: ListOf(GroupFrom(acc, paths), v) == ListOf(acc, v) + Picked(paths, v)
    ensures forall k :: k in Keys(GroupFrom(acc, paths)) ==> k in Keys(acc) || k in Verbs
  {
    forall v ensures ListOf(GroupFrom(acc, paths), v) == ListOf(acc, v) + Picked(paths, v) {
      GroupFromList(acc, paths, v);
    }
    GroupFromKeys(acc, paths);
  }

  /**
    `groupByVerb({ ANY })`: every path lands under the verb it names, in
    order, with that verb's segment removed; only verbs of `VERBS` appear.
   */
  function GroupByVerb(paths: seq<string>): (r: PathTable)
    ensures forall v :: ListOf(r, v) == Picked(paths, v)
    ensures forall k :: k in Keys(r) ==> k in Verbs
  {
    GroupFromLists([], paths);
    GroupFrom([], paths)
  }


  /** `acc.map(normalizeMatcher).includes(normalizeMatcher(route))` */
  predicate Covered(acc: seq<string>, route: string) {
    exists i :: 0 <= i < |acc| && NormalizeMatcher(acc[i]) == NormalizeMatcher(route)
  }

  lemma CoveredMore(a: seq<string>, b: seq<string>, route: string)
    requires Covered(a, route)
    ensures Covered(a + b, route)
  {
    var i :| 0 <= i < |a| && NormalizeMatcher(a[i]) == NormalizeMatcher(route);
    assert (a + b)[i] == a[i];
  }

  /**
    The inner reduce of `mergeRoutes`: starting from the context routes, each
    direct route is appended unless a route already there normalizes alike.
   */
  function Finals(acc: seq<string>, routes: seq<string>): (r: seq<string>)
    ensures |acc| <= |r| && r[..|acc|] == acc
    ensures forall i :: |acc| <= i < |r| ==> r[i] in routes
    decreases |routes|
  {
    if routes == [] then acc
    else
      var next := if Covered(acc, routes[0]) then acc else acc + [routes[0]];
      var r := Finals(next, routes[1..]);
      assert r[..|acc|] == next[..|acc|];
      r
  }

  /**
    What `Finals` keeps: every direct route is matched by a route of the
    result, and no appended route normalizes like one before it.
   */
  lemma {:induction false} FinalsSpec(acc: seq<string>, routes: seq<string>)
    ensures forall x :: x in routes ==> Covered(Finals(acc, routes), x)
    ensures forall x :: Covered(acc, x) ==> Covered(Finals(acc, routes), x)
    ensures forall i, j :: |acc| <= j < |Finals(acc, routes)| && 0 <= i < j ==>
      NormalizeMatcher(Finals(acc, routes)[i]) != NormalizeMatcher(Finals(acc, routes)[j])
    decreases |routes|
  {
    if routes != [] {
      var next := if Covered(acc, routes[0]) then acc else acc + [routes[0]];
      FinalsSpec(next, routes[1..]);
      var r := Finals(acc, routes);
      forall x | Covered(acc, x) ensures Covered(next, x) {
        if next != acc {
          CoveredMore(acc, [routes[0]], x);
        }
      }
      assert Covered(next, routes[0]) by {
        if next != acc {
          assert next[|acc|] == routes[0];
        }
      }
      forall i, j | |acc| <= j < |r| && 0 <= i < j
        ensures NormalizeMatcher(r[i]) != NormalizeMatcher(r[j])
      {
        if j == |acc| && next != acc {
          assert r[..|next|] == next;
          assert r[j] == routes[0];
          assert r[i] == acc[i];
        }
      }
    }
  }

  /** A route already covered leaves `Finals` as if it were not there. */
  lemma {:induction false} FinalsSkipsCovered(acc: seq<string>, routes: seq<string>, i: nat)
    requires i < |routes| && Covered(acc, routes[i])
    ensures Finals(acc, routes) == Finals(acc, routes[..i] + routes[i + 1..])
    decreases |routes|
  {
    var without := routes[..i] + routes[i + 1..];
    if i == 0 {
      assert without == routes[1..];
    } else {
      var next := if Covered(acc, routes[0]) then acc else acc + [routes[0]];
      if next != acc {
        CoveredMore(acc, [routes[0]], routes[i]);
      }
      assert routes[1..][i - 1] == routes[i];
      FinalsSkipsCovered(next, routes[1..], i - 1);
      assert without[0] == routes[0];
      assert without[1..] == routes[1..][..i - 1] + routes[1..][i..];
    }
  }

  /** The reduce of `mergeRoutes` over `verbs`, from a given accumulator. */
  function MergeFrom(acc: PathTable, cat: PathTable, verbs: seq<string>): PathTable
    decreases |verbs|
  {
    if verbs == [] then acc
    else
      var v := verbs[0];
      MergeFrom(WithProp(acc, v, MergedFor(acc, cat, v)), cat, verbs[1..])
  }

  /** The verbs still to merge do not include the one being merged. */
  lemma DistinctTail(verbs: seq<string>)
    requires verbs != [] && forall i, j :: 0 <= i < j < |verbs| ==> verbs[i] != verbs[j]
    ensures verbs[0] !in verbs[1..]
    ensures forall i, j :: 0 <= i < j < |verbs[1..]| ==> verbs[1..][i] != verbs[1..][j]
  {
    forall i, j | 0 <= i < j < |verbs[1..]| ensures verbs[1..][i] != verbs[1..][j] {
      assert verbs[1..][i] == verbs[i + 1] && verbs[1..][j] == verbs[j + 1];
    }
    forall j | 0 <= j < |verbs[1..]| ensures verbs[1..][j] != verbs[0] {
      assert verbs[1..][j] == verbs[j + 1];
    }
  }

  /** The merged list of one method. */
  function MergedFor(acc: PathTable, cat: PathTable, v: string): seq<string> {
    Sort(Finals(ListOf(cat, v), ListOf(acc, v)))
  }

  lemma {:induction false} MergeFromValue(acc: PathTable, cat: PathTable, verbs: seq<string>, k: string)
    requires forall i, j :: 0 <= i < j < |verbs| ==> verbs[i] != verbs[j]
    ensures k in verbs ==> ValueOf(MergeFrom(acc, cat, verbs), k) == Some(MergedFor(acc, cat, k))
    ensures k !in verbs ==> ValueOf(MergeFrom(acc, cat, verbs), k) == ValueOf(acc, k)
    decreases |verbs|
  {
    if verbs != [] {
      var w := verbs[0];
      var next := WithProp(acc, w, MergedFor(acc, cat, w));
      assert MergeFrom(acc, cat, verbs) == MergeFrom(next, cat, verbs[1..]);
      DistinctTail(verbs);
      MergeFromValue(next, cat, verbs[1..], k);
      if k != w {
        WithPropOthers(acc, w, MergedFor(acc, cat, w), k);
        assert MergedFor(next, cat, k) == MergedFor(acc, cat, k);
        assert k in verbs <==> k in verbs[1..];
      } else {
        assert ValueOf(next, k) == Some(MergedFor(acc, cat, k));
      }
    }
  }

  lemma {:induction false} MergeFromUnique(acc: PathTable, cat: PathTable, verbs: seq<string>)
    requires UniqueKeys(acc)
    ensures UniqueKeys(MergeFrom(acc, cat, verbs))
    decreases |verbs|
  {
    if verbs != [] {
      var w := verbs[0];
      WithPropUnique(acc, w, MergedFor(acc, cat, w));
      MergeFromUnique(WithProp(acc, w, MergedFor(acc, cat, w)), cat, verbs[1..]);
    }
  }

  lemma MergeFromSpec(acc: PathTable, cat: PathTable, verbs: seq<string>)
    requires forall i, j :: 0 <= i < j < |verbs| ==> verbs[i] != verbs[j]
    ensures forall v :: v in verbs ==> ValueOf(MergeFrom(acc, cat, verbs), v) == Some(MergedFor(acc, cat, v))
    ensures forall k :: k !in verbs ==> ValueOf(MergeFrom(acc, cat, verbs), k) == ValueOf(acc, k)
    ensures UniqueKeys(acc) ==> UniqueKeys(MergeFrom(acc, cat, verbs))
  {
    forall k ensures k in verbs ==> ValueOf(MergeFrom(acc, cat, verbs), k) == Some(MergedFor(acc, cat, k))
      ensures k !in verbs ==> ValueOf(MergeFrom(acc, cat, verbs), k) == ValueOf(acc, k)
    {
      MergeFromValue(acc, cat, verbs, k);
    }
    if UniqueKeys(acc) {
      MergeFromUnique(acc, cat, verbs);
    }
  }

  /**
    `mergeRoutes(routes, categorized)`: every verb of `VERBS` gets the sorted
    merge of its context routes and its direct routes; every other method
    keeps its list.
   */
  function MergeRoutes(routes: PathTable, cat: PathTable): (r: PathTable)
    ensures forall v :: v in Verbs ==> ValueOf(r, v) == Some(MergedFor(routes, cat, v))
    ensures forall k :: k !in Verbs ==> ValueOf(r, k) == ValueOf(routes, k)
    ensures UniqueKeys(routes) ==> UniqueKeys(r)
  {
    VerbsDistinct();
    MergeFromSpec(routes, cat, Verbs);
    MergeFrom(routes, cat, Verbs)
  }

  /**
    A merged list is sorted, keeps every context route, holds only context
    and direct routes, and matches every direct route.
   */
  lemma MergedList(cat: seq<string>, direct: seq<string>)
    ensures Sorted(Sort(Finals(cat, direct)))
    ensures forall x :: x in cat ==> x in Sort(Finals(cat, direct))
    ensures forall x :: x in Sort(Finals(cat, direct)) ==> x in cat || x in direct
    ensures forall x :: x in direct ==> Covered(Sort(Finals(cat, direct)), x)
  {
    var f := Finals(cat, direct);
    SortSameElements(f);
    FinalsSpec(cat, direct);
    forall x | x in cat ensures x in f {
      var i :| 0 <= i < |cat| && cat[i] == x;
      assert f[..|cat|][i] == x;
    }
    forall x | x in f ensures x in cat || x in direct {
      var i :| 0 <= i < |f| && f[i] == x;
      if i < |cat| {
        assert f[..|cat|][i] == x;
      }
    }
    forall x | x in direct ensures Covered(Sort(f), x) {
      CoveredPermuted(f, Sort(f), x);
    }
  }

  /** Sorting keeps the elements. */
  lemma SortSameElements(s: seq<string>)
    ensures forall x :: x in Sort(s) <==> x in s
  {
    var m := Sort(s);
    forall x ensures x in m <==> x in s {
      assert x in m <==> x in multiset(m);
      assert x in s <==> x in multiset(s);
    }
  }

  /** Coverage depends only on the elements, not on their order. */
  lemma CoveredPermuted(a: seq<string>, b: seq<string>, route: string)
    requires Covered(a, route)
    requires forall x :: x in a ==> x in b
    ensures Covered(b, route)
  {
    var i :| 0 <= i < |a| && NormalizeMatcher(a[i]) == NormalizeMatcher(route);
    assert a[i] in b;
    var j :| 0 <= j < |b| && b[j] == a[i];
  }

  /** The routes of `direct` that `warnForSimilarRoutes` names for one verb. */
  function WarnedFor(direct: seq<string>, cat: seq<string>): (r: seq<string>)
    ensures forall x :: x in r <==> x in direct && Covered(cat, x)
    decreases |direct|
  {
    if direct == [] then []
    else
      var rest := WarnedFor(direct[1..], cat);
      assert forall x :: x in direct <==> x == direct[0] || x in direct[1..];
      (if Covered(cat, direct[0]) then [direct[0]] else []) + rest
  }

  function WarnFrom(routes: PathTable, cat: PathTable, verbs: seq<string>): (r: seq<string>)
    ensures forall x :: x in r <==>
      exists i :: 0 <= i < |verbs| && x in ListOf(routes, verbs[i]) && Covered(ListOf(cat, verbs[i]), x)
    decreases |verbs|
  {
    if verbs == [] then []
    else
      var rest := WarnFrom(routes, cat, verbs[1..]);
      assert forall i :: 1 <= i < |verbs| ==> verbs[i] == verbs[1..][i - 1];
      WarnedFor(ListOf(routes, verbs[0]), ListOf(cat, verbs[0])) + rest
  }

  /**
    `warnForSimilarRoutes(routes, categorized)`: the routes it warns about,
    in order. A direct route is named exactly when a context route of the
    same verb normalizes like it.
   */
  function Warnings(routes: PathTable, cat: PathTable): (r: seq<string>)
    ensures forall x :: x in r <==>
      exists i :: 0 <= i < |Verbs| && x in ListOf(routes, Verbs[i]) && Covered(ListOf(cat, Verbs[i]), x)
  {
    WarnFrom(routes, cat, Verbs)
  }

  /**
    The warning tells the truth: a route it names is left out of the merged
    list, which is the same as if that route had never been declared.
   */
  lemma WarnedUnreachable(routes: PathTable, cat: PathTable, v: string, i: nat)
    requires v in Verbs
    requires i < |ListOf(routes, v)| && ListOf(routes, v)[i] in Warnings(routes, cat)
    requires Covered(ListOf(cat, v), ListOf(routes, v)[i])
    ensures ValueOf(MergeRoutes(routes, cat), v) ==
      Some(Sort(Finals(ListOf(cat, v), ListOf(routes, v)[..i] + ListOf(routes, v)[i + 1..])))
  {
    FinalsSkipsCovered(ListOf(cat, v), ListOf(routes, v), i);
  }


  /** Which `getAllPaths` the export uses: as written, or corrected. */
  datatype Lister = AsWritten | Corrected

  function ListPaths(l: Lister, prefix: string, v: Option<Json>): (r: Run<seq<string>>)
    ensures l.AsWritten? ==> r == AllPaths(prefix, v)
    ensures l.Corrected? ==> r == Done(FixedPaths(prefix, v))
  {
    match l
    case AsWritten => AllPaths(prefix, v)
    case Corrected => Done(FixedPaths(prefix, v))
  }

  lemma WithPropKeepsUnique(o: PathTable, key: string, value: seq<string>)
    ensures UniqueKeys(o) ==> UniqueKeys(WithProp(o, key, value))
  {
    if UniqueKeys(o) {
      WithPropUnique(o, key, value);
    }
  }

  /** The reduce of `computePaths` from a given accumulator. */
  function ComputeFrom(acc: PathTable, rest: seq<Prop<Json>>, l: Lister): (r: Run<PathTable>)
    ensures r.Done? <==> forall i :: 0 <= i < |rest| ==> ListPaths(l, "", Some(rest[i].value)).Done?
    ensures r.Done? ==> forall k :: k in Keys(r.value) <==> k in Keys(acc) || k in Keys(rest)
    ensures r.Done? && UniqueKeys(acc) ==> UniqueKeys(r.value)
    decreases |rest|
  {
    if rest == [] then Done(acc)
    else
      assert forall i :: 1 <= i < |rest| ==> rest[i] == rest[1..][i - 1];
      assert forall k :: k in Keys(rest) <==> k == rest[0].key || k in Keys(rest[1..]);
      match ListPaths(l, "", Some(rest[0].value))
      case Done(paths) =>
        WithPropKeepsUnique(acc, rest[0].key, paths);
        ComputeFrom(WithProp(acc, rest[0].key, paths), rest[1..], l)
      case Failed(e) => Failed(e)
      case Diverges => Diverges
  }

  /**
    `computePaths(rest)`: each method's paths, or the first failure; the
    corrected listing never fails.
   */
  function ComputePaths(rest: seq<Prop<Json>>, l: Lister): (r: Run<PathTable>)
    ensures l.Corrected? ==> r.Done?
    ensures r.Done? <==> forall i :: 0 <= i < |rest| ==> ListPaths(l, "", Some(rest[i].value)).Done?
    ensures r.Done? ==> (forall k :: k in Keys(r.value) <==> k in Keys(rest)) && UniqueKeys(r.value)
    ensures r.Done? && UniqueKeys(rest) ==>
      forall i :: 0 <= i < |rest| ==> ValueOf(r.value, rest[i].key) == Some(ListPaths(l, "", Some(rest[i].value)).value)
  {
    ComputeFromValues([], rest, l);
    ComputeFrom([], rest, l)
  }

  /** Each method of a table with distinct keys ends up holding its own listing. */
  lemma ComputeFromValues(acc: PathTable, rest: seq<Prop<Json>>, l: Lister)
    ensures ComputeFrom(acc, rest, l).Done? && UniqueKeys(rest) ==>
      forall i :: 0 <= i < |rest| ==>
        ValueOf(ComputeFrom(acc, rest, l).value, rest[i].key) == Some(ListPaths(l, "", Some(rest[i].value)).value)
  {
    if ComputeFrom(acc, rest, l).Done? && UniqueKeys(rest) {
      forall i | 0 <= i < |rest|
        ensures ValueOf(ComputeFrom(acc, rest, l).value, rest[i].key) == Some(ListPaths(l, "", Some(rest[i].value)).value)
      {
        ComputeFromValue(acc, rest, l, i);
      }
    }
  }

  lemma {:induction false} ComputeFromValue(acc: PathTable, rest: seq<Prop<Json>>, l: Lister, i: nat)
    requires UniqueKeys(rest) && i < |rest| && ComputeFrom(acc, rest, l).Done?
    ensures ValueOf(ComputeFrom(acc, rest, l).value, rest[i].key) == Some(ListPaths(l, "", Some(rest[i].value)).value)
    decreases |rest|
  {
    var paths := ListPaths(l, "", Some(rest[0].value)).value;
    var next := WithProp(acc, rest[0].key, paths);
    assert ComputeFrom(acc, rest, l) == ComputeFrom(next, rest[1..], l);
    assert UniqueKeys(rest[1..]) by {
      forall a, b | 0 <= a < b < |rest[1..]| ensures rest[1..][a].key != rest[1..][b].key {
        assert rest[1..][a] == rest[a + 1] && rest[1..][b] == rest[b + 1];
      }
    }
    if i == 0 {
      assert rest[0].key !in Keys(rest[1..]) by {
        KeysAt(rest[1..]);
        forall j | 0 <= j < |rest[1..]| ensures Keys(rest[1..])[j] != rest[0].key {
          assert rest[1..][j] == rest[j + 1];
        }
      }
      ComputeFromOther(next, rest[1..], l, rest[0].key);
    } else {
      assert rest[1..][i - 1] == rest[i];
      ComputeFromValue(next, rest[1..], l, i - 1);
    }
  }

  /** A key the remaining entries do not mention keeps its accumulated value. */
  lemma {:induction false} ComputeFromOther(acc: PathTable, rest: seq<Prop<Json>>, l: Lister, k: string)
    requires k !in Keys(rest) && ComputeFrom(acc, rest, l).Done?
    ensures ValueOf(ComputeFrom(acc, rest, l).value, k) == ValueOf(acc, k)
    decreases |rest|
  {
    if rest != [] {
      var paths := ListPaths(l, "", Some(rest[0].value)).value;
      var next := WithProp(acc, rest[0].key, paths);
      assert Keys(rest) == [rest[0].key] + Keys(rest[1..]);
      WithPropOthers(acc, rest[0].key, paths, k);
      ComputeFromOther(next, rest[1..], l, k);
    }
  }

  /** The final `reduce` of `transform`: the methods whose list is not empty. */
  function KeepNonEmpty(o: PathTable): (r: PathTable)
    ensures forall i :: 0 <= i < |r| ==> r[i].value != [] && r[i] in o
    ensures forall i :: 0 <= i < |o| && o[i].value != [] ==> o[i] in r
    ensures forall k :: k in Keys(r) ==> k in Keys(o)
    decreases |o|
  {
    if o == [] then []
    else
      var rest := KeepNonEmpty(o[1..]);
      assert forall i :: 1 <= i < |o| ==> o[i] == o[1..][i - 1];
      assert forall k :: k in Keys(o) <==> k == o[0].key || k in Keys(o[1..]);
      if o[0].value == [] then rest
      else
        assert ([o[0]] + rest)[1..] == rest;
        [o[0]] + rest
  }

  lemma {:induction false} KeepNonEmptyValue(o: PathTable, k: string)
    requires UniqueKeys(o)
    ensures ValueOf(KeepNonEmpty(o), k) ==
      if ValueOf(o, k).Some? && ValueOf(o, k).value != [] then ValueOf(o, k) else None
    decreases |o|
  {
    if o != [] {
      assert UniqueKeys(o[1..]) by {
        forall i, j | 0 <= i < j < |o[1..]| ensures o[1..][i].key != o[1..][j].key {
          assert o[1..][i] == o[i + 1] && o[1..][j] == o[j + 1];
        }
      }
      KeepNonEmptyValue(o[1..], k);
      if o[0].key == k {
        KeysAt(o[1..]);
        assert k !in Keys(o[1..]) by {
          forall i | 0 <= i < |o[1..]| ensures Keys(o[1..])[i] != k {
            assert o[1..][i] == o[i + 1];
          }
        }
      }
    }
  }

  /** `const { ANY, ...rest } = ...`; `ANY || {}` */
  function AnyHandler(props: seq<Prop<Json>>): (r: Json)
    ensures Truthy(ValueOf(props, "ANY")) ==> Some(r) == ValueOf(props, "ANY")
    ensures !Truthy(ValueOf(props, "ANY")) ==> r == JsonObj([])
  {
    if Truthy(ValueOf(props, "ANY")) then ValueOf(props, "ANY").value else JsonObj([])
  }

  /**
    `transform(allRoutes)` after the JSON round trip: direct routes per
    method, context and `any` routes spread over the verbs they name, merged,
    and the empty lists dropped.
   */
  function Transform(props: seq<Prop<Json>>, l: Lister): (r: Run<PathTable>)
    ensures l.Corrected? ==> r.Done?
    ensures r.Done? ==> forall i :: 0 <= i < |r.value| ==> r.value[i].value != []
    ensures r.Done? ==> forall k :: k in Keys(r.value) ==> k in Verbs || (k in Keys(props) && k != "ANY")
  {
    match ComputePaths(Without(props, "ANY"), l)
    case Failed(e) => Failed(e)
    case Diverges => Diverges
    case Done(routes) =>
      match ListPaths(l, "", Some(AnyHandler(props)))
      case Failed(e) => Failed(e)
      case Diverges => Diverges
      case Done(anyPaths) =>
        var merged := MergeRoutes(routes, GroupByVerb(anyPaths));
        assert forall k :: k in Keys(merged) ==> k in Verbs || k in Keys(routes) by {
          forall k | k in Keys(merged) ensures k in Verbs || k in Keys(routes) {
            if k !in Verbs {
              assert ValueOf(merged, k).Some?;
            }
          }
        }
        Done(KeepNonEmpty(merged))
  }

  /**
    What the export lists for a verb: the sorted merge of the paths of the
    `ANY` trie that name it and the method's own paths, or nothing when that
    merge is empty.
   */
  lemma TransformVerb(props: seq<Prop<Json>>, l: Lister, routes: PathTable, anyPaths: seq<string>, v: string)
    requires ComputePaths(Without(props, "ANY"), l) == Done(routes)
    requires ListPaths(l, "", Some(AnyHandler(props))) == Done(anyPaths)
    requires v in Verbs
    ensures var m := Sort(Finals(Picked(anyPaths, v), ListOf(routes, v)));
      ValueOf(Transform(props, l).value, v) == if m == [] then None else Some(m)
  {
    var merged := MergeRoutes(routes, GroupByVerb(anyPaths));
    KeepNonEmptyValue(merged, v);
  }

  /**
    `exportRoutes(routesSwitch)()`: `jsonify` the table, take its JSON
    round trip, and transform it.
   */
  function ExportRoutes(table: Table): (r: Run<PathTable>)
    ensures var j := Jsonify(TableValue(table));
      j.Ok? && RoundTrip(j.value).Some? && RoundTrip(j.value).value.JsonObj? &&
      r == Transform(RoundTrip(j.value).value.props, AsWritten)
  {
    TableRoundTrip(table);
    Transform(TableJson(table).props, AsWritten)
  }

  /** The export with the corrected listing: it always returns. */
  function ExportRoutesFixed(table: Table): (r: Run<PathTable>)
    ensures var j := Jsonify(TableValue(table));
      j.Ok? && RoundTrip(j.value).Some? && RoundTrip(j.value).value.JsonObj? &&
      r == Transform(RoundTrip(j.value).value.props, Corrected)
    ensures r.Done?
  {
    TableRoundTrip(table);
    Transform(TableJson(table).props, Corrected)
  }
}
