/**
  The JavaScript string operations the routers rely on (`startsWith`, `endsWith`,
  `includes`, `split`, `replace`, `toLowerCase`), written over `seq<char>`.
 */
module Strings {
  import opened Wrappers

  predicate StartsWith(s: string, p: string) {
    |p| <= |s| && s[..|p|] == p
  }

  predicate EndsWith(s: string, p: string) {
    |p| <= |s| && s[|s| - |p|..] == p
  }

  /** A one-character prefix is decided by the first character. */
  lemma StartsWithChar(s: string, c: char)
    ensures StartsWith(s, [c]) <==> s != [] && s[0] == c
  {
    if s != [] {
      assert s[..1] == [s[0]];
    }
  }

  /** A one-character suffix is decided by the last character. */
  lemma EndsWithChar(s: string, c: char)
    ensures EndsWith(s, [c]) <==> s != [] && s[|s| - 1] == c
  {
    if s != [] {
      assert s[|s| - 1..] == [s[|s| - 1]];
    }
  }

  /** `sub` occurs in `s` starting at index `i`. */
  predicate OccursAt(s: string, sub: string, i: int) {
    0 <= i && i + |sub| <= |s| && s[i..i + |sub|] == sub
  }

  /** `s.includes(sub)` */
  predicate Contains(s: string, sub: string) {
    exists i | 0 <= i <= |s| :: OccursAt(s, sub, i)
  }

  /** `s.indexOf(sub)`, with `None` for -1: the first occurrence of `sub`. */
  function IndexOf(s: string, sub: string): (r: Option<nat>)
    ensures r.Some? ==> OccursAt(s, sub, r.value)
    ensures r.Some? ==> forall j :: 0 <= j < r.value ==> !OccursAt(s, sub, j)
    ensures r.None? <==> !Contains(s, sub)
    decreases |s|
  {
    if |s| < |sub| then None
    else if s[..|sub|] == sub then
      assert OccursAt(s, sub, 0);
      Some(0)
    else
      var rest := IndexOf(s[1..], sub);
      ShiftOccurrence(s, sub);
      match rest
      case None => None
      case Some(k) =>
        assert OccursAt(s, sub, k + 1);
        Some(k + 1)
  }

  /** Occurrences in `s[1..]` are the occurrences in `s` after its first character. */
  lemma ShiftOccurrence(s: string, sub: string)
    requires |s| > 0
    ensures forall i :: 1 <= i ==> (OccursAt(s, sub, i) <==> OccursAt(s[1..], sub, i - 1))
  {
    forall i | 1 <= i
      ensures OccursAt(s, sub, i) <==> OccursAt(s[1..], sub, i - 1)
    {
      if i + |sub| <= |s| {
        assert s[1..][i - 1..i - 1 + |sub|] == s[i..i + |sub|];
      }
    }
  }

  /**
    `s.replace(pattern, replacement)` with a string pattern: only the first
    occurrence is replaced.
   */
  function ReplaceFirst(s: string, pattern: string, replacement: string): (r: string)
    ensures !Contains(s, pattern) ==> r == s
    ensures Contains(s, pattern) ==>
      exists i :: OccursAt(s, pattern, i) && (forall j :: 0 <= j < i ==> !OccursAt(s, pattern, j))
        && r == s[..i] + replacement + s[i + |pattern|..]
  {
    match IndexOf(s, pattern)
    case None => s
    case Some(i) => s[..i] + replacement + s[i + |pattern|..]
  }

  /**
    `s.replace(/pattern/g, '')`: scanning left to right, every occurrence that
    starts where the scan stands is dropped; the scan never revisits what it
    has already produced.
   */
  function RemoveAll(s: string, pattern: string): (r: string)
    requires pattern != []
    ensures |r| <= |s|
    ensures !Contains(s, pattern) ==> r == s
    ensures Contains(s, pattern) ==> |r| + |pattern| <= |s|
    ensures forall c :: c in r ==> c in s
    decreases |s|
  {
    if s == [] then s
    else if StartsWith(s, pattern) then
      assert OccursAt(s, pattern, 0);
      var rest := RemoveAll(s[|pattern|..], pattern);
      assert forall c :: c in s[|pattern|..] ==> c in s;
      rest
    else
      ContainsTail(s, pattern);
      var rest := RemoveAll(s[1..], pattern);
      assert forall c :: c in s[1..] ==> c in s;
      [s[0]] + rest
  }

  /** An occurrence that is not at the start is an occurrence in the tail. */
  lemma ContainsTail(s: string, sub: string)
    requires |s| > 0 && !OccursAt(s, sub, 0)
    ensures Contains(s, sub) <==> Contains(s[1..], sub)
  {
    ShiftOccurrence(s, sub);
    if Contains(s, sub) {
      var i :| 0 <= i <= |s| && OccursAt(s, sub, i);
      assert OccursAt(s[1..], sub, i - 1);
    }
    if Contains(s[1..], sub) {
      var j :| 0 <= j <= |s[1..]| && OccursAt(s[1..], sub, j);
      assert OccursAt(s, sub, j + 1);
    }
  }

  /**
    Where the first occurrence of `pattern` lies, `RemoveAll` keeps everything
    before it, drops it, and carries on after it.
   */
  lemma RemoveAllFirst(s: string, pattern: string, k: nat)
    requires pattern != []
    requires IndexOf(s, pattern) == Some(k)
    ensures RemoveAll(s, pattern) == s[..k] + RemoveAll(s[k + |pattern|..], pattern)
  {
    RemoveAllKeep(s, pattern, k);
    var u := s[k..];
    assert u[..|pattern|] == s[k..k + |pattern|];
    assert StartsWith(u, pattern);
    assert u[|pattern|..] == s[k + |pattern|..];
  }

  /** A prefix in which no occurrence starts is kept as it is. */
  lemma {:induction false} RemoveAllKeep(s: string, pattern: string, k: nat)
    requires pattern != [] && k <= |s|
    requires forall j :: 0 <= j < k ==> !OccursAt(s, pattern, j)
    ensures RemoveAll(s, pattern) == s[..k] + RemoveAll(s[k..], pattern)
    decreases k
  {
    if k == 0 {
      assert s[..0] == [] && s[0..] == s;
    } else {
      RemoveAllKeep(s, pattern, k - 1);
      RemoveAllSkip(s, pattern, k - 1);
      SnocRegroup(s, k, RemoveAll(s[k..], pattern));
    }
  }

  /** Where no occurrence starts, the character there is kept. */
  lemma RemoveAllSkip(s: string, pattern: string, i: nat)
    requires pattern != [] && i < |s| && !OccursAt(s, pattern, i)
    ensures RemoveAll(s[i..], pattern) == [s[i]] + RemoveAll(s[i + 1..], pattern)
  {
    var u := s[i..];
    if |pattern| <= |u| {
      assert u[..|pattern|] == s[i..i + |pattern|];
    }
    assert !StartsWith(u, pattern);
    assert u[1..] == s[i + 1..];
  }

  /** A prefix grows by the character that follows it. */
  lemma SnocRegroup(s: string, k: nat, rest: string)
    requires 0 < k <= |s|
    ensures s[..k - 1] + ([s[k - 1]] + rest) == s[..k] + rest
  {
    assert s[..k] == s[..k - 1] + [s[k - 1]];
  }

  /** `parts.join(sep)` */
  function Join(parts: seq<string>, sep: char): string {
    if parts == [] then ""
    else if |parts| == 1 then parts[0]
    else parts[0] + [sep] + Join(parts[1..], sep)
  }

  /**
    `s.split(sep)` for a one-character separator: never empty, no piece holds
    the separator, and joining the pieces back gives `s`.
   */
  function Split(s: string, sep: char): (r: seq<string>)
    ensures |r| >= 1
    ensures forall i :: 0 <= i < |r| ==> sep !in r[i]
    ensures Join(r, sep) == s
    decreases |s|
  {
    if s == [] then [""]
    else
      var rest := Split(s[1..], sep);
      if s[0] == sep then [""] + rest
      else [[s[0]] + rest[0]] + rest[1..]
  }

  /** Splitting at a separator splits the two sides independently. */
  lemma {:induction false} SplitAround(a: string, b: string, sep: char)
    ensures Split(a + [sep] + b, sep) == Split(a, sep) + Split(b, sep)
    decreases |a|
  {
    if a == [] {
      assert a + [sep] + b == [sep] + b;
      assert ([sep] + b)[1..] == b;
    } else {
      assert (a + [sep] + b)[1..] == a[1..] + [sep] + b;
      SplitAround(a[1..], b, sep);
      if a[0] != sep && a[1..] == [] {
        assert Split(a[1..], sep) == [""];
      }
    }
  }

  /** Pieces free of the separator are recovered by splitting their join. */
  lemma {:induction false} SplitJoin(parts: seq<string>, sep: char)
    requires |parts| >= 1
    requires forall i :: 0 <= i < |parts| ==> sep !in parts[i]
    ensures Split(Join(parts, sep), sep) == parts
    decreases |parts|
  {
    if |parts| == 1 {
      SplitNoSeparator(parts[0], sep);
    } else {
      SplitJoin(parts[1..], sep);
      SplitNoSeparator(parts[0], sep);
      SplitAround(parts[0], Join(parts[1..], sep), sep);
    }
  }

  /** A string without the separator splits into itself alone. */
  lemma {:induction false} SplitNoSeparator(s: string, sep: char)
    requires sep !in s
    ensures Split(s, sep) == [s]
    decreases |s|
  {
    if s != [] {
      assert sep !in s[1..] by {
        forall c | c in s[1..] ensures c != sep { assert c in s; }
      }
      SplitNoSeparator(s[1..], sep);
    }
  }

  /** The pieces that are not empty, in order (`.filter(v => v !== '')`). */
  function NonEmpty(parts: seq<string>): (r: seq<string>)
    ensures |r| <= |parts|
    ensures forall x :: x in r <==> x in parts && x != ""
  {
    if parts == [] then []
    else if parts[0] == "" then NonEmpty(parts[1..])
    else [parts[0]] + NonEmpty(parts[1..])
  }

  lemma {:induction false} NonEmptyAppend(a: seq<string>, b: seq<string>)
    ensures NonEmpty(a + b) == NonEmpty(a) + NonEmpty(b)
    decreases |a|
  {
    if a != [] {
      assert (a + b)[1..] == a[1..] + b;
      NonEmptyAppend(a[1..], b);
    } else {
      assert a + b == b;
    }
  }

  /** ASCII `toLowerCase` of one character. */
  function LowerChar(c: char): char {
    if 'A' <= c <= 'Z' then (c as int + 32) as char else c
  }

  /** `s.toLowerCase()` restricted to ASCII letters. */
  function ToLower(s: string): (r: string)
    ensures |r| == |s|
    ensures forall i :: 0 <= i < |s| ==> r[i] == LowerChar(s[i])
  {
    seq(|s|, i requires 0 <= i < |s| => LowerChar(s[i]))
  }

  predicate IsDigit(c: char) {
    '0' <= c <= '9'
  }

  /** A non-empty run of decimal digits. */
  predicate IsDecimal(s: string) {
    |s| > 0 && forall i :: 0 <= i < |s| ==> IsDigit(s[i])
  }

  /** The value of a string of decimal digits. */
  function DecimalValue(s: string): nat
    requires forall i :: 0 <= i < |s| ==> IsDigit(s[i])
    decreases |s|
  {
    if s == [] then 0
    else
      assert IsDigit(s[|s| - 1]);
      10 * DecimalValue(s[..|s| - 1]) + (s[|s| - 1] as int - '0' as int)
  }

  /**
    The order of JavaScript's default `Array.prototype.sort` on strings:
    lexicographic on characters, a proper prefix first.
   */
  predicate LexLe(a: string, b: string)
    decreases |a|
  {
    a == [] || (b != [] && (a[0] < b[0] || (a[0] == b[0] && LexLe(a[1..], b[1..]))))
  }

  lemma {:induction false} LexLeReflexive(a: string)
    ensures LexLe(a, a)
    decreases |a|
  {
    if a != [] {
      LexLeReflexive(a[1..]);
    }
  }

  lemma {:induction false} LexLeTotal(a: string, b: string)
    ensures LexLe(a, b) || LexLe(b, a)
    decreases |a|
  {
    if a != [] && b != [] && a[0] == b[0] {
      LexLeTotal(a[1..], b[1..]);
    }
  }

  lemma {:induction false} LexLeTransitive(a: string, b: string, c: string)
    requires LexLe(a, b) && LexLe(b, c)
    ensures LexLe(a, c)
    decreases |a|
  {
    if a != [] && a[0] == b[0] && b[0] == c[0] {
      LexLeTransitive(a[1..], b[1..], c[1..]);
    }
  }

  lemma {:induction false} LexLeAntisymmetric(a: string, b: string)
    requires LexLe(a, b) && LexLe(b, a)
    ensures a == b
    decreases |a|
  {
    if a != [] {
      LexLeAntisymmetric(a[1..], b[1..]);
      assert a == [a[0]] + a[1..] && b == [b[0]] + b[1..];
    }
  }
}
