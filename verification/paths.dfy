/**
  Path helpers of the current router: trailing-slash removal
  (src/helpers/request/route.ts) and the segment view both routers match on.
 */
module Paths {
  import opened Strings

  /**
    `removeTrailingSlash`: the root `/` is kept; any other path ending in `/`
    loses exactly that last character; everything else is returned as is.
   */
  function RemoveTrailingSlash(route: string): (r: string)
    ensures |r| <= |route| <= |r| + 1 && r == route[..|r|]
    ensures |r| < |route| <==> route != "/" && EndsWith(route, "/")
    ensures !EndsWith(route, "//") ==> r == "/" || !EndsWith(r, "/")
  {
    if route == "/" then route
    else if EndsWith(route, "/") then route[..|route| - 1]
    else route
  }

  /**
    The path segments a request or pattern is matched on:
    `path.split('/').filter(v => v !== '')`.
   */
  function Segments(path: string): (r: seq<string>)
    ensures forall x :: x in r ==> x != "" && '/' !in x
  {
    var parts := Split(path, '/');
    assert forall x :: x in parts ==> '/' !in x;
    NonEmpty(parts)
  }

  /** A `:name` segment, which matches any request segment. */
  predicate IsParam(segment: string) {
    StartsWith(segment, ":")
  }

  /** `segment.slice(1)`: the name a parameter segment binds. */
  function ParamName(segment: string): (r: string)
    ensures IsParam(segment) ==> segment == ":" + r
  {
    if segment == [] then segment else segment[1..]
  }

  /** Joining two paths at a slash concatenates their segments. */
  lemma SegmentsAround(a: string, b: string)
    ensures Segments(a + "/" + b) == Segments(a) + Segments(b)
  {
    SplitAround(a, b, '/');
    NonEmptyAppend(Split(a, '/'), Split(b, '/'));
  }

  /** A leading slash adds no segment. */
  lemma SegmentsLeadingSlash(b: string)
    ensures Segments("/" + b) == Segments(b)
  {
    SegmentsAround("", b);
    assert "" + "/" + b == "/" + b;
    assert Segments("") == [];
  }

  /** Concatenating two paths when the second starts with `/` concatenates segments. */
  lemma SegmentsConcat(a: string, b: string)
    requires StartsWith(b, "/")
    ensures Segments(a + b) == Segments(a) + Segments(b)
  {
    assert b == "/" + b[1..];
    assert a + b == a + "/" + b[1..];
    SegmentsAround(a, b[1..]);
    SegmentsLeadingSlash(b[1..]);
  }

  /** Trailing-slash removal never changes the segments of a path. */
  lemma RemoveTrailingSlashSegments(route: string)
    ensures Segments(RemoveTrailingSlash(route)) == Segments(route)
  {
    var r := RemoveTrailingSlash(route);
    if r != route {
      assert route == r + "/" + "";
      SegmentsAround(r, "");
      assert Segments("") == [];
    }
  }

  /** A `/`-prefixed join of slash-free, non-empty segments splits back into them. */
  lemma SegmentsOfJoin(segs: seq<string>)
    requires forall i :: 0 <= i < |segs| ==> segs[i] != "" && '/' !in segs[i]
    ensures Segments("/" + Join(segs, '/')) == segs
  {
    SegmentsLeadingSlash(Join(segs, '/'));
    if segs == [] {
      assert Segments("") == [];
    } else {
      SplitJoin(segs, '/');
      NonEmptyKeepsAll(segs);
    }
  }

  lemma {:induction false} NonEmptyKeepsAll(parts: seq<string>)
    requires forall i :: 0 <= i < |parts| ==> parts[i] != ""
    ensures NonEmpty(parts) == parts
    decreases |parts|
  {
    if parts != [] {
      NonEmptyKeepsAll(parts[1..]);
    }
  }
}
