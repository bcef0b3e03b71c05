/**
  Request resolution of the current router (src/router.ts): `findHandler`'s
  exact match with parameter binding, its not-found fallback, and the body of
  the callable `Router` that injects the context and calls the handler.
 */
module Dispatch {
  import opened Wrappers
  import opened Strings
  import opened Paths
  import opened Routes
  import opened Flatten
  import opened Numerals

  /**
    A bound parameter: the number a run of decimal digits denotes, another
    numeral (a fraction, a signed or exponent form, hexadecimal, `Infinity`,
    padding), kept as its text, or the raw text when `Number` gives `NaN`.
   */
  datatype Value = Num(n: nat) | Numeral(s: string) | Str(s: string)

  type Context = map<string, Value>

  /**
    The request fields the router reads: `method`, `location.pathname` (either
    may be absent) and the context it replaces.
   */
  datatype Request = Request(verb: Option<string>, pathname: Option<string>, context: Context)

  /** A resolved handler with the context to install (`FindHandler` in the source). */
  datatype Found = Found(context: Context, handler: Handler)

  /** `isNaN(Number(value)) ? value : Number(value)` */
  function Coerce(segment: string): (v: Value)
    ensures v.Num? <==> IsDecimal(segment)
    ensures v.Num? ==> v.n == DecimalValue(segment)
    ensures v.Str? <==> !IsNumeral(segment)
    ensures !v.Num? ==> v.s == segment
  {
    if IsDecimal(segment) then
      DecimalIsNumeral(segment);
      Num(DecimalValue(segment))
    else if IsNumeral(segment) then Numeral(segment)
    else Str(segment)
  }

  /** A pattern segment accepts a request segment that equals it, and a parameter accepts anything. */
  predicate Accepts(pattern: string, part: string) {
    part == pattern || IsParam(pattern)
  }

  /** A parameter segment binds only when it is not literally equal to the request segment. */
  predicate Binds(pattern: string, part: string) {
    part != pattern && IsParam(pattern)
  }

  /** The names bound by matching `patterns` against `parts`. */
  function BoundNames(patterns: seq<string>, parts: seq<string>): set<string>
    requires |patterns| == |parts|
  {
    set i | 0 <= i < |patterns| && Binds(patterns[i], parts[i]) :: ParamName(patterns[i])
  }

  /** No later position binds the same name as position `i`. */
  predicate LastBinding(patterns: seq<string>, parts: seq<string>, i: int)
    requires |patterns| == |parts| && 0 <= i < |patterns|
  {
    forall j :: i < j < |patterns| && Binds(patterns[j], parts[j]) ==> ParamName(patterns[j]) != ParamName(patterns[i])
  }

  /**
    The `p.reduce(...)` of the exact match: left to right, a literal-equal
    segment binds nothing, a parameter binds its name to the coerced request
    segment (a later binding of a name overrides an earlier one), and any
    other mismatch rejects the pattern.
   */
  function Bind(patterns: seq<string>, parts: seq<string>, acc: Context): (r: Option<Context>)
    requires |patterns| == |parts|
    ensures r.Some? <==> forall i :: 0 <= i < |patterns| ==> Accepts(patterns[i], parts[i])
    ensures r.Some? ==> r.value.Keys == acc.Keys + BoundNames(patterns, parts)
    ensures r.Some? ==> forall k :: k in acc && k !in BoundNames(patterns, parts) ==> r.value[k] == acc[k]
    ensures r.Some? ==> forall i :: (0 <= i < |patterns| && Binds(patterns[i], parts[i]) && LastBinding(patterns, parts, i)
      ==> r.value[ParamName(patterns[i])] == Coerce(parts[i]))
    decreases |patterns|
  {
    if patterns == [] then Some(acc)
    else
      var p, part := patterns[0], parts[0];
      if part == p then
        var r := Bind(patterns[1..], parts[1..], acc);
        BindShift(patterns, parts);
        r
      else if IsParam(p) then
        var r := Bind(patterns[1..], parts[1..], acc[ParamName(p) := Coerce(part)]);
        BindShift(patterns, parts);
        r
      else
        None
  }

  /** How the facts about `patterns` relate to those about their tails. */
  lemma BindShift(patterns: seq<string>, parts: seq<string>)
    requires |patterns| == |parts| > 0
    ensures (forall i :: 0 <= i < |patterns| ==> Accepts(patterns[i], parts[i])) <==>
      Accepts(patterns[0], parts[0]) && forall i :: 0 <= i < |patterns[1..]| ==> Accepts(patterns[1..][i], parts[1..][i])
    ensures BoundNames(patterns, parts) ==
      BoundNames(patterns[1..], parts[1..]) + (if Binds(patterns[0], parts[0]) then {ParamName(patterns[0])} else {})
    ensures forall i :: 0 < i < |patterns| ==>
      (LastBinding(patterns, parts, i) <==> LastBinding(patterns[1..], parts[1..], i - 1))
    ensures Binds(patterns[0], parts[0]) && LastBinding(patterns, parts, 0) ==>
      ParamName(patterns[0]) !in BoundNames(patterns[1..], parts[1..])
  {
    var tailNames := BoundNames(patterns[1..], parts[1..]);
    forall n | n in BoundNames(patterns, parts)
      ensures n in tailNames || (Binds(patterns[0], parts[0]) && n == ParamName(patterns[0]))
    {
      var i :| 0 <= i < |patterns| && Binds(patterns[i], parts[i]) && n == ParamName(patterns[i]);
      if i > 0 {
        assert patterns[1..][i - 1] == patterns[i] && parts[1..][i - 1] == parts[i];
      }
    }
    forall n | n in tailNames ensures n in BoundNames(patterns, parts) {
      var i :| 0 <= i < |patterns[1..]| && Binds(patterns[1..][i], parts[1..][i]) && n == ParamName(patterns[1..][i]);
      assert patterns[i + 1] == patterns[1..][i] && parts[i + 1] == parts[1..][i];
    }
    if Binds(patterns[0], parts[0]) && LastBinding(patterns, parts, 0) {
      forall i | 0 <= i < |patterns[1..]| && Binds(patterns[1..][i], parts[1..][i])
        ensures ParamName(patterns[1..][i]) != ParamName(patterns[0])
      {
        assert patterns[i + 1] == patterns[1..][i] && parts[i + 1] == parts[1..][i];
      }
    }
  }

  /** Every pattern matches a request made of its own segments, binding nothing. */
  lemma {:induction false} BindOwnSegments(patterns: seq<string>, acc: Context)
    ensures Bind(patterns, patterns, acc) == Some(acc)
    decreases |patterns|
  {
    if patterns != [] {
      BindOwnSegments(patterns[1..], acc);
    }
  }

  /**
    The exact-match test of one table entry: equal lower-cased methods, equal
    segment counts, and every segment accepted.
   */
  predicate EntryMatches(e: Entry, verb: Option<string>, parts: seq<string>) {
    && verb.Some?
    && ToLower(e.verb) == ToLower(verb.value)
    && |Segments(e.path)| == |parts|
    && Bind(Segments(e.path), parts, map[]).Some?
  }

  /** The first entry of `founds` that matches, in table order. */
  function FirstMatch(founds: seq<Entry>, verb: Option<string>, parts: seq<string>): (r: Option<nat>)
    ensures r.Some? ==> r.value < |founds| && EntryMatches(founds[r.value], verb, parts)
    ensures r.Some? ==> forall j :: 0 <= j < r.value ==> !EntryMatches(founds[j], verb, parts)
    ensures r.None? <==> forall j :: 0 <= j < |founds| ==> !EntryMatches(founds[j], verb, parts)
    decreases |founds|
  {
    if founds == [] then None
    else if EntryMatches(founds[0], verb, parts) then Some(0)
    else
      match FirstMatch(founds[1..], verb, parts)
      case None =>
        assert forall j :: 1 <= j < |founds| ==> founds[j] == founds[1..][j - 1];
        None
      case Some(k) =>
        assert founds[k + 1] == founds[1..][k];
        assert forall j :: 1 <= j <= k ==> founds[j] == founds[1..][j - 1];
        Some(k + 1)
  }

  /** The exact match: the first matching entry's handler with the parameters it binds. */
  function FindExact(founds: seq<Entry>, verb: Option<string>, parts: seq<string>): (r: Option<Found>)
    ensures r.Some? <==> exists j :: 0 <= j < |founds| && EntryMatches(founds[j], verb, parts)
    ensures r.Some? ==> exists i :: (0 <= i < |founds| && EntryMatches(founds[i], verb, parts)
      && (forall j :: 0 <= j < i ==> !EntryMatches(founds[j], verb, parts))
      && r.value == Found(Bind(Segments(founds[i].path), parts, map[]).value, founds[i].handler))
  {
    match FirstMatch(founds, verb, parts)
    case None => None
    case Some(i) => Some(Found(Bind(Segments(founds[i].path), parts, map[]).value, founds[i].handler))
  }

  /**
    Position `i` of a not-found pattern counts toward its score: the request
    segment there equals it, or it is a parameter (a parameter counts even
    past the end of the request).
   */
  predicate Agrees(pattern: seq<string>, parts: seq<string>, i: int)
    requires 0 <= i < |pattern|
  {
    (i < |parts| && parts[i] == pattern[i]) || IsParam(pattern[i])
  }

  /** The number of leading pattern segments, from `from` on, that agree with the request. */
  function ScoreFrom(pattern: seq<string>, parts: seq<string>, from: nat): (r: nat)
    requires from <= |pattern|
    ensures from + r <= |pattern|
    ensures forall i :: from <= i < from + r ==> Agrees(pattern, parts, i)
    ensures from + r < |pattern| ==> !Agrees(pattern, parts, from + r)
    decreases |pattern| - from
  {
    if from == |pattern| then 0
    else if Agrees(pattern, parts, from) then 1 + ScoreFrom(pattern, parts, from + 1)
    else 0
  }

  /** The not-found score: the longest agreeing prefix of the pattern. */
  function Score(pattern: seq<string>, parts: seq<string>): (r: nat)
    ensures r <= |pattern|
    ensures forall i :: 0 <= i < r ==> Agrees(pattern, parts, i)
    ensures r < |pattern| ==> !Agrees(pattern, parts, r)
  {
    ScoreFrom(pattern, parts, 0)
  }

  /**
    Candidate `a` replaces candidate `b`: strictly more agreeing segments,
    or as many with a strictly shorter pattern.
   */
  predicate Better(a: Entry, b: Entry, parts: seq<string>) {
    var sa, sb := Score(Segments(a.path), parts), Score(Segments(b.path), parts);
    sa > sb || (sa == sb && |Segments(a.path)| < |Segments(b.path)|)
  }

  /** A candidate better than the kept one is better than all it beat. */
  lemma BetterStep(a: Entry, b: Entry, c: Entry, parts: seq<string>)
    requires Better(a, b, parts) && !Better(c, b, parts)
    ensures Better(a, c, parts) && !Better(c, a, parts)
  {
  }

  /** The not-found loop from position `i` on, `best` being the candidate kept so far. */
  function SelectFrom(notFounds: seq<Entry>, parts: seq<string>, i: nat, best: nat): (r: nat)
    requires best < i <= |notFounds|
    requires forall j :: 0 <= j < i ==> !Better(notFounds[j], notFounds[best], parts)
    requires forall j :: 0 <= j < best ==> Better(notFounds[best], notFounds[j], parts)
    ensures r < |notFounds|
    ensures forall j :: 0 <= j < |notFounds| ==> !Better(notFounds[j], notFounds[r], parts)
    ensures forall j :: 0 <= j < r ==> Better(notFounds[r], notFounds[j], parts)
    decreases |notFounds| - i
  {
    if i == |notFounds| then best
    else if Better(notFounds[i], notFounds[best], parts) then
      forall j | 0 <= j < i ensures Better(notFounds[i], notFounds[j], parts) && !Better(notFounds[j], notFounds[i], parts) {
        BetterStep(notFounds[i], notFounds[best], notFounds[j], parts);
      }
      SelectFrom(notFounds, parts, i + 1, i)
    else SelectFrom(notFounds, parts, i + 1, best)
  }

  /**
    The not-found resolution: the first candidate is kept until a better one
    appears, so the result has the highest score, the shortest pattern among
    those, and is the first of its kind in table order.
   */
  function SelectNotFound(notFounds: seq<Entry>, parts: seq<string>): (r: Option<nat>)
    ensures r.Some? <==> notFounds != []
    ensures r.Some? ==> r.value < |notFounds|
    ensures r.Some? ==> forall j :: 0 <= j < |notFounds| ==> !Better(notFounds[j], notFounds[r.value], parts)
    ensures r.Some? ==> forall j :: 0 <= j < r.value ==> Better(notFounds[r.value], notFounds[j], parts)
  {
    if notFounds == [] then None else Some(SelectFrom(notFounds, parts, 1, 0))
  }

  /** The request path split into its non-empty segments (`pathname ?? ''`). */
  function RequestParts(request: Request): seq<string> {
    Segments(match request.pathname case Some(p) => p case None => "")
  }

  /** `findHandler(founds, notFounds, request)` */
  function FindHandler(founds: seq<Entry>, notFounds: seq<Entry>, request: Request): (r: Option<Found>)
    ensures r.None? <==> FindExact(founds, request.verb, RequestParts(request)).None? && notFounds == []
    ensures FindExact(founds, request.verb, RequestParts(request)).Some? ==>
      r == FindExact(founds, request.verb, RequestParts(request))
    ensures FindExact(founds, request.verb, RequestParts(request)).None? && notFounds != [] ==>
      r.Some? && r.value.context == map[] &&
      exists i :: 0 <= i < |notFounds| && r.value.handler == notFounds[i].handler
        && (forall j :: 0 <= j < |notFounds| ==> !Better(notFounds[j], notFounds[i], RequestParts(request)))
        && (forall j :: 0 <= j < i ==> Better(notFounds[i], notFounds[j], RequestParts(request)))
  {
    var parts := RequestParts(request);
    match FindExact(founds, request.verb, parts)
    case Some(found) => Some(found)
    case None =>
      match SelectNotFound(notFounds, parts)
      case None => None
      case Some(i) => Some(Found(map[], notFounds[i].handler))
  }

  /** The entries that are not `NOT_FOUND`, in table order. */
  function Founds(table: seq<Entry>): (r: seq<Entry>)
    ensures forall e :: e in r <==> e in table && e.verb != "NOT_FOUND"
  {
    if table == [] then []
    else (if table[0].verb != "NOT_FOUND" then [table[0]] else []) + Founds(table[1..])
  }

  /** The `NOT_FOUND` entries, in table order. */
  function NotFounds(table: seq<Entry>): (r: seq<Entry>)
    ensures forall e :: e in r <==> e in table && e.verb == "NOT_FOUND"
  {
    if table == [] then []
    else (if table[0].verb == "NOT_FOUND" then [table[0]] else []) + NotFounds(table[1..])
  }

  /**
    Both filters keep table order: filtering a concatenation is concatenating
    the filtered parts.
   */
  lemma {:induction false} FoundsAppend(a: seq<Entry>, b: seq<Entry>)
    ensures Founds(a + b) == Founds(a) + Founds(b)
    decreases |a|
  {
    if a == [] {
      assert a + b == b;
    } else {
      FoundsUnfold(a, b);
      FoundsAppend(a[1..], b);
      var head: seq<Entry> := if a[0].verb != "NOT_FOUND" then [a[0]] else [];
      assert head + (Founds(a[1..]) + Founds(b)) == (head + Founds(a[1..])) + Founds(b);
    }
  }

  lemma {:induction false} NotFoundsAppend(a: seq<Entry>, b: seq<Entry>)
    ensures NotFounds(a + b) == NotFounds(a) + NotFounds(b)
    decreases |a|
  {
    if a == [] {
      assert a + b == b;
    } else {
      NotFoundsUnfold(a, b);
      NotFoundsAppend(a[1..], b);
      var head: seq<Entry> := if a[0].verb == "NOT_FOUND" then [a[0]] else [];
      assert head + (NotFounds(a[1..]) + NotFounds(b)) == (head + NotFounds(a[1..])) + NotFounds(b);
    }
  }

  /** One step of `Founds` over a concatenation with a non-empty left part. */
  lemma FoundsUnfold(a: seq<Entry>, b: seq<Entry>)
    requires a != []
    ensures Founds(a + b) == (if a[0].verb != "NOT_FOUND" then [a[0]] else []) + Founds(a[1..] + b)
  {
    assert (a + b)[0] == a[0] && (a + b)[1..] == a[1..] + b;
  }

  /** One step of `NotFounds` over a concatenation with a non-empty left part. */
  lemma NotFoundsUnfold(a: seq<Entry>, b: seq<Entry>)
    requires a != []
    ensures NotFounds(a + b) == (if a[0].verb == "NOT_FOUND" then [a[0]] else []) + NotFounds(a[1..] + b)
  {
    assert (a + b)[0] == a[0] && (a + b)[1..] == a[1..] + b;
  }

  /** A single entry is kept by `Founds` exactly when `NotFounds` drops it. */
  lemma FoundsSingle(e: Entry)
    ensures Founds([e]) == (if e.verb == "NOT_FOUND" then [] else [e])
    ensures NotFounds([e]) == (if e.verb == "NOT_FOUND" then [e] else [])
  {
    assert [e][1..] == [];
  }

  /** What calling a `Router` does with a request. */
  datatype Call = InternalError | Invoke(handler: Handler, request: Request)

  /**
    The callable `Router(routes)`: resolve the request against the exported
    table, replace the request's context with the resolved one and call the
    handler; with nothing resolved, answer with an internal error.
   */
  function Dispatch(routes: seq<Route>, request: Request): (r: Call)
    ensures r.InternalError? <==>
      FindExact(Founds(Export(routes)), request.verb, RequestParts(request)).None?
      && NotFounds(Export(routes)) == []
    ensures NotFounds(Export(routes)) != [] ==> r.Invoke?
    ensures r.Invoke? ==> r.request.verb == request.verb && r.request.pathname == request.pathname
    ensures FindExact(Founds(Export(routes)), request.verb, RequestParts(request)).Some? ==>
      var f := FindExact(Founds(Export(routes)), request.verb, RequestParts(request)).value;
      r == Invoke(f.handler, request.(context := f.context))
    ensures FindExact(Founds(Export(routes)), request.verb, RequestParts(request)).None? && r.Invoke? ==>
      var nfs, parts := NotFounds(Export(routes)), RequestParts(request);
      r.request.context == map[] &&
      exists i :: 0 <= i < |nfs| && r.handler == nfs[i].handler
        && (forall j :: 0 <= j < |nfs| ==> !Better(nfs[j], nfs[i], parts))
        && (forall j :: 0 <= j < i ==> Better(nfs[i], nfs[j], parts))
  {
    var table := Export(routes);
    match FindHandler(Founds(table), NotFounds(table), request)
    case None => InternalError
    case Some(found) => Invoke(found.handler, request.(context := found.context))
  }

  /**
    A declared endpoint is reachable at its own path: a request with the
    entry's method (in any letter case) and the entry's path string is
    resolved to that entry or to an earlier entry that also matches.
   */
  lemma OwnPathResolves(founds: seq<Entry>, i: nat, verb: string)
    requires i < |founds| && ToLower(verb) == ToLower(founds[i].verb)
    ensures FirstMatch(founds, Some(verb), Segments(founds[i].path)).Some?
    ensures FirstMatch(founds, Some(verb), Segments(founds[i].path)).value <= i
  {
    BindOwnSegments(Segments(founds[i].path), map[]);
    assert EntryMatches(founds[i], Some(verb), Segments(founds[i].path));
  }

  /** `/user/2` binds the number 2. */
  lemma CoerceExamples()
    ensures Coerce("2") == Num(2)
  {
    assert IsDecimal("2");
    assert "2"[..0] == [];
  }

  /** A segment `Number` rejects stays text; another numeral is kept as a numeral. */
  lemma CoerceNonDecimal()
    ensures Coerce("2a") == Str("2a")
    ensures Coerce("1.5") == Numeral("1.5")
  {
    NotNumerals();
    FractionNumerals();
    assert !IsDigit("2a"[1]) && !IsDigit("1.5"[1]);
  }

  /**
    With a `NOT_FOUND` entry under `/post` declared before the top-level one
    under `/`, `/post/anything` falls back to the former (one agreeing
    segment against none) and `/users/anyting` to the latter (no agreeing
    segment for either, and the shorter pattern wins).
   */
  lemma NotFoundFallbacks(post: Handler, main: Handler)
    ensures var nfs := [Entry("NOT_FOUND", "/post", post), Entry("NOT_FOUND", "/", main)];
      && SelectNotFound(nfs, ["post", "anything"]) == Some(0)
      && SelectNotFound(nfs, ["users", "anyting"]) == Some(1)
  {
    SegmentsLeadingSlash("post");
    SegmentsLeadingSlash("");
    SplitNoSeparator("post", '/');
    SplitNoSeparator("", '/');
    assert Segments("/post") == ["post"];
    assert Segments("/") == [];
    assert !IsParam("post") by {
      assert "post"[0] == 'p';
    }
  }
}
