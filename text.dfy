/** Python's string operations used by the repository: `split(sep).pop()`,
    `split(c)`, `join`, `replace` on single characters, and the `<` order on `str`. */
module Text {
  import opened Common

  /** `sep` occurs in `s` at position `k`. */
  predicate OccursAt(s: string, sep: string, k: int)
  {
    0 <= k && k + |sep| <= |s| && s[k..k + |sep|] == sep
  }

  /** `s.find(sep, i)`: the first position at or after `i` at which `sep`
      occurs, `None` for -1. */
  function FindFrom(s: string, sep: string, i: nat): (r: Option<nat>)
    requires |sep| > 0
    ensures r.Some? ==> i <= r.value && r.value + |sep| <= |s|
    decreases |s| - i
  {
    if i + |sep| > |s| then None
    else if s[i..i + |sep|] == sep then Some(i)
    else FindFrom(s, sep, i + 1)
  }

  /** `s.find(sep)`. */
  function Find(s: string, sep: string): (r: Option<nat>)
    requires |sep| > 0
    ensures r.Some? ==> r.value + |sep| <= |s|
  {
    FindFrom(s, sep, 0)
  }

  /** `FindFrom` reports the first occurrence at or after `i`, and `None`
      exactly when there is none there. */
  lemma {:induction false} FindFromIsFirst(s: string, sep: string, i: nat)
    requires |sep| > 0
    ensures FindFrom(s, sep, i).Some? ==> OccursAt(s, sep, FindFrom(s, sep, i).value)
    ensures FindFrom(s, sep, i).Some? ==>
      forall k :: i <= k < FindFrom(s, sep, i).value ==> !OccursAt(s, sep, k)
    ensures FindFrom(s, sep, i).None? ==> forall k :: i <= k ==> !OccursAt(s, sep, k)
    decreases |s| - i
  {
    if i + |sep| <= |s| && s[i..i + |sep|] != sep {
      FindFromIsFirst(s, sep, i + 1);
    }
  }

  /** An occurrence in a suffix is an occurrence in the whole string. */
  lemma OccursInSuffix(s: string, sep: string, a: nat, j: nat)
    requires a <= |s| && OccursAt(s[a..], sep, j)
    ensures OccursAt(s, sep, a + j)
  {
    var x, y := s[a..][j..j + |sep|], s[a + j..a + j + |sep|];
    forall i | 0 <= i < |sep|
      ensures x[i] == y[i]
    {
      assert x[i] == s[a + j + i];
    }
    assert x == y;
  }

  /** Where the last piece of `s.split(sep)` starts when separators are
      looked for from `i` on: Python splits left to right at non-overlapping
      occurrences, so the next search starts right after each separator. */
  function LastStart(s: string, sep: string, i: nat): (r: nat)
    requires |sep| > 0 && i <= |s|
    ensures i <= r <= |s|
    decreases |s| - i
  {
    match FindFrom(s, sep, i)
    case None => i
    case Some(k) => LastStart(s, sep, k + |sep|)
  }

  /** `s.split(sep).pop()`: the last piece. */
  function SplitLast(s: string, sep: string): (r: string)
    requires |sep| > 0
    ensures |r| <= |s|
  {
    s[LastStart(s, sep, 0)..]
  }

  /** No separator occurs from where the last piece starts. */
  lemma {:induction false} LastStartHasNoSeparator(s: string, sep: string, i: nat)
    requires |sep| > 0 && i <= |s|
    ensures FindFrom(s, sep, LastStart(s, sep, i)).None?
    decreases |s| - i
  {
    match FindFrom(s, sep, i)
    case None =>
    case Some(k) => LastStartHasNoSeparator(s, sep, k + |sep|);
  }

  /** When the last piece does not start at `i`, a separator ends right
      where it starts. */
  lemma {:induction false} LastStartFollowsSeparator(s: string, sep: string, i: nat)
    requires |sep| > 0 && i <= |s| && FindFrom(s, sep, i).Some?
    ensures FindFrom(s, sep, i).value + |sep| <= LastStart(s, sep, i)
    ensures OccursAt(s, sep, LastStart(s, sep, i) - |sep|)
    decreases |s| - i
  {
    var k := FindFrom(s, sep, i).value;
    FindFromIsFirst(s, sep, i);
    if FindFrom(s, sep, k + |sep|).Some? {
      LastStartFollowsSeparator(s, sep, k + |sep|);
    }
  }

  /** The last piece is a suffix of the string; it is the whole string
      exactly when the separator does not occur. */
  lemma SplitLastIsSuffix(s: string, sep: string)
    requires |sep| > 0
    ensures s[|s| - |SplitLast(s, sep)|..] == SplitLast(s, sep)
    ensures SplitLast(s, sep) == s <==> Find(s, sep).None?
  {
    if Find(s, sep).Some? {
      LastStartFollowsSeparator(s, sep, 0);
    }
  }

  /** The last piece holds no separator. */
  lemma SplitLastHasNoSeparator(s: string, sep: string)
    requires |sep| > 0
    ensures Find(SplitLast(s, sep), sep).None?
  {
    var a := LastStart(s, sep, 0);
    LastStartHasNoSeparator(s, sep, 0);
    FindFromIsFirst(s, sep, a);
    FindFromIsFirst(s[a..], sep, 0);
    if Find(s[a..], sep).Some? {
      OccursInSuffix(s, sep, a, Find(s[a..], sep).value);
    }
  }

  /** When the separator occurs, the last piece directly follows an occurrence of it. */
  lemma SplitLastFollowsSeparator(s: string, sep: string)
    requires |sep| > 0 && Find(s, sep).Some?
    ensures |SplitLast(s, sep)| + |sep| <= |s|
    ensures OccursAt(s, sep, |s| - |SplitLast(s, sep)| - |sep|)
  {
    LastStartFollowsSeparator(s, sep, 0);
  }

  /** The first index of `c` in `s`. */
  function IndexOf(s: string, c: char): (k: nat)
    requires c in s
    ensures k < |s| && s[k] == c && c !in s[..k]
  {
    if s[0] == c then 0 else IndexOf(s[1..], c) + 1
  }

  /** `s.split(c)` for a one-character separator. */
  function Split(s: string, c: char): (r: seq<string>)
    ensures |r| >= 1
    ensures forall i :: 0 <= i < |r| ==> c !in r[i]
    decreases |s|
  {
    if c !in s then [s]
    else
      var k := IndexOf(s, c);
      [s[..k]] + Split(s[k + 1..], c)
  }

  /** `c.join(xs)` for a one-character separator. */
  function Join(xs: seq<string>, c: char): string
  {
    if xs == [] then ""
    else if |xs| == 1 then xs[0]
    else xs[0] + [c] + Join(xs[1..], c)
  }

  /** Splitting undoes joining when no piece holds the separator. */
  lemma {:induction false} SplitJoin(xs: seq<string>, c: char)
    requires |xs| >= 1
    requires forall i :: 0 <= i < |xs| ==> c !in xs[i]
    ensures Split(Join(xs, c), c) == xs
  {
    if |xs| > 1 {
      var s := Join(xs, c);
      assert s == xs[0] + [c] + Join(xs[1..], c);
      assert s[|xs[0]|] == c;
      assert s[..|xs[0]|] == xs[0];
      assert IndexOf(s, c) == |xs[0]|;
      assert s[|xs[0]| + 1..] == Join(xs[1..], c);
      SplitJoin(xs[1..], c);
    }
  }

  /** `s.replace(a, b)` for one-character strings. */
  function Replace(s: string, a: char, b: char): (r: string)
    ensures |r| == |s|
    ensures forall i :: 0 <= i < |s| ==> r[i] == (if s[i] == a then b else s[i])
  {
    seq(|s|, i requires 0 <= i < |s| => if s[i] == a then b else s[i])
  }

  /** Python's `<` on `str`: lexicographic by code point, a proper prefix first. */
  predicate Less(a: string, b: string)
  {
    if a == [] then b != []
    else if b == [] then false
    else if a[0] != b[0] then a[0] < b[0]
    else Less(a[1..], b[1..])
  }

  lemma {:induction false} LessIrreflexive(a: string)
    ensures !Less(a, a)
  {
    if a != [] { LessIrreflexive(a[1..]); }
  }

  lemma {:induction false} LessTransitive(a: string, b: string, c: string)
    requires Less(a, b) && Less(b, c)
    ensures Less(a, c)
  {
    if a != [] && b != [] && c != [] && a[0] == b[0] && b[0] == c[0] {
      LessTransitive(a[1..], b[1..], c[1..]);
    }
  }

  lemma {:induction false} LessTotal(a: string, b: string)
    requires a != b
    ensures Less(a, b) || Less(b, a)
  {
    if a != [] && b != [] && a[0] == b[0] {
      assert a == [a[0]] + a[1..] && b == [b[0]] + b[1..];
      LessTotal(a[1..], b[1..]);
    }
  }
}
