/** Values the Python code works with that Dafny has no built-in for:
    Python's `None`, the exceptions the code lets escape, and a few
    sequence helpers shared by every module. */
module Common {

  /** `None` or a value, as returned by `dict.get`. */
  datatype Option<+T> = None | Some(value: T)

  /** The exceptions the modelled code can raise. None of them is caught
      anywhere in the repository, so each one ends the run. */
  datatype Exception = KeyError | IndexError | TypeError | AttributeError

  /** The outcome of a Python computation that may raise. */
  datatype Result<+T> = Ok(value: T) | Fail(error: Exception)

  /** What an extractor's `process` hands back to its caller: it raised,
      returned `self` (`Ok(true)`) or returned `None` (`Ok(false)`). */
  function Status<T>(r: Result<Option<T>>): Result<bool>
  {
    match r
    case Fail(e) => Fail(e)
    case Ok(o) => Ok(o.Some?)
  }

  /** Number of elements of `s` that satisfy `p`. */
  function CountIf<T>(s: seq<T>, p: T -> bool): (n: nat)
    ensures n <= |s|
  {
    if s == [] then 0 else CountIf(s[..|s| - 1], p) + (if p(s[|s| - 1]) then 1 else 0)
  }

  /** The elements of `s` that satisfy `p`, in order (a Python list comprehension
      with an `if`). */
  function Filter<T>(s: seq<T>, p: T -> bool): (r: seq<T>)
    ensures |r| <= |s|
    ensures forall x :: x in r ==> x in s && p(x)
  {
    if s == [] then [] else Filter(s[..|s| - 1], p) + (if p(s[|s| - 1]) then [s[|s| - 1]] else [])
  }

  lemma {:induction false} FilterKeeps<T>(s: seq<T>, p: T -> bool, x: T)
    requires x in s && p(x)
    ensures x in Filter(s, p)
  {
    if s[|s| - 1] != x {
      assert x in s[..|s| - 1];
      FilterKeeps(s[..|s| - 1], p, x);
    }
  }

  lemma AppendAssoc<T>(a: seq<T>, b: seq<T>, c: seq<T>)
    ensures a + (b + c) == (a + b) + c
  {
  }

  /** A filter works element by element: it distributes over concatenation. */
  lemma {:induction false} FilterAppend<T>(a: seq<T>, b: seq<T>, p: T -> bool)
    ensures Filter(a + b, p) == Filter(a, p) + Filter(b, p)
  {
    if b == [] {
      assert a + b == a;
    } else {
      var init := b[..|b| - 1];
      assert (a + b)[..|a + b| - 1] == a + init;
      FilterAppend(a, init, p);
    }
  }

  lemma {:induction false} FilterCons<T>(x: T, s: seq<T>, p: T -> bool)
    ensures Filter([x] + s, p) == (if p(x) then [x] else []) + Filter(s, p)
  {
    var single: seq<T> := [x];
    FilterAppend(single, s, p);
    assert single[..0] == [];
  }

  /** Nothing passes a filter that no element satisfies. */
  lemma {:induction false} FilterNone<T>(s: seq<T>, p: T -> bool)
    requires forall x :: x in s ==> !p(x)
    ensures Filter(s, p) == []
  {
    if s != [] {
      assert forall x :: x in s[..|s| - 1] ==> x in s;
      FilterNone(s[..|s| - 1], p);
    }
  }

  /** The first element a filter keeps is the first element that passes. */
  lemma {:induction false} FilterFirst<T>(s: seq<T>, p: T -> bool, k: nat)
    requires k < |s| && p(s[k])
    requires forall j :: 0 <= j < k ==> !p(s[j])
    ensures Filter(s, p) != [] && Filter(s, p)[0] == s[k]
  {
    var before, after := s[..k], s[k + 1..];
    assert s == before + ([s[k]] + after);
    FilterAppend(before, [s[k]] + after, p);
    FilterNone(before, p);
    FilterCons(s[k], after, p);
  }

  /** The elements of a sequence as a set: `set(s)` in Python. */
  function Elements<T>(s: seq<T>): set<T>
  {
    set x | x in s
  }

  /** A set never has more elements than the sequence it was built from. */
  lemma {:induction false} ElementsBound<T>(s: seq<T>)
    ensures |Elements(s)| <= |s|
  {
    if s != [] {
      var t := s[..|s| - 1];
      ElementsBound(t);
      assert Elements(s) == Elements(t) + {s[|s| - 1]} by {
        assert s == t + [s[|s| - 1]];
      }
    }
  }

  /** The sub-sequence relation: `a` is `b` with some elements left out. */
  predicate IsSubsequence<T(==)>(a: seq<T>, b: seq<T>)
    decreases |b|
  {
    if a == [] then true
    else if b == [] then false
    else if a[|a| - 1] == b[|b| - 1] then IsSubsequence(a[..|a| - 1], b[..|b| - 1])
    else IsSubsequence(a, b[..|b| - 1])
  }

  /** A filter keeps the order of what it keeps. */
  lemma {:induction false} FilterIsSubsequence<T>(s: seq<T>, p: T -> bool)
    ensures IsSubsequence(Filter(s, p), s)
  {
    if s != [] {
      var t := s[..|s| - 1];
      FilterIsSubsequence(t, p);
      var f := Filter(s, p);
      if p(s[|s| - 1]) {
        assert f[..|f| - 1] == Filter(t, p);
      } else if f != [] {
        assert f == Filter(t, p);
        assert f[|f| - 1] in f && p(f[|f| - 1]);
        assert f[|f| - 1] != s[|s| - 1];
      }
    }
  }

  /** A loop that builds a list from `xs`, appending `f(x)` when it is
      present and stopping at the first exception. */
  function Collect<A, B>(xs: seq<A>, f: A -> Result<Option<B>>): (r: Result<seq<B>>)
    ensures r.Ok? ==> |r.value| <= |xs|
  {
    if xs == [] then Ok([])
    else
      match Collect(xs[..|xs| - 1], f)
      case Fail(e) => Fail(e)
      case Ok(bs) =>
        match f(xs[|xs| - 1])
        case Fail(e) => Fail(e)
        case Ok(o) => Ok(if o.Some? then bs + [o.value] else bs)
  }

  lemma CollectSnoc<A, B>(xs: seq<A>, x: A, f: A -> Result<Option<B>>)
    ensures Collect(xs + [x], f) ==
      match Collect(xs, f)
      case Fail(e) => Fail(e)
      case Ok(bs) =>
        match f(x)
        case Fail(e) => Fail(e)
        case Ok(o) => Ok(if o.Some? then bs + [o.value] else bs)
  {
    assert (xs + [x])[..|xs|] == xs;
  }

  /** The loop after `i + 1` elements, from the loop after `i`. */
  lemma CollectPrefixStep<A, B>(xs: seq<A>, i: nat, f: A -> Result<Option<B>>, bs: seq<B>, y: Result<Option<B>>)
    requires i < |xs| && Collect(xs[..i], f) == Ok(bs) && f(xs[i]) == y
    ensures y.Fail? ==> Collect(xs, f) == Fail(y.error)
    ensures y.Ok? ==> Collect(xs[..i + 1], f) == Ok(if y.value.Some? then bs + [y.value.value] else bs)
  {
    var ys := xs[..i + 1];
    assert ys[..i] == xs[..i] && ys[i] == xs[i];
    if y.Fail? {
      CollectFailPersists(xs, i + 1, f);
    }
  }

  /** Once the loop has raised, the rest of the input is never looked at. */
  lemma {:induction false} CollectFailPersists<A, B>(xs: seq<A>, n: nat, f: A -> Result<Option<B>>)
    requires n <= |xs| && Collect(xs[..n], f).Fail?
    ensures Collect(xs, f) == Collect(xs[..n], f)
    decreases |xs| - n
  {
    if n < |xs| {
      var t := xs[..|xs| - 1];
      assert t[..n] == xs[..n];
      CollectFailPersists(t, n, f);
    } else {
      assert xs[..n] == xs;
    }
  }

  /** The loop finishes exactly when no element raises, and then every
      element it kept is the value of some input. */
  lemma {:induction false} CollectMeaning<A, B>(xs: seq<A>, f: A -> Result<Option<B>>)
    ensures Collect(xs, f).Ok? <==> forall i :: 0 <= i < |xs| ==> f(xs[i]).Ok?
    ensures Collect(xs, f).Ok? ==>
      forall b :: b in Collect(xs, f).value ==> exists x :: x in xs && f(x) == Ok(Some(b))
  {
    if xs != [] {
      var t := xs[..|xs| - 1];
      CollectMeaning(t, f);
      if Collect(xs, f).Ok? {
        forall b | b in Collect(xs, f).value
          ensures exists x :: x in xs && f(x) == Ok(Some(b))
        {
          if b in Collect(t, f).value {
            var x :| x in t && f(x) == Ok(Some(b));
            assert x in xs;
          } else {
            assert xs[|xs| - 1] in xs;
          }
        }
      }
    }
  }

  /** When every element yields a value, the loop keeps one per element, in order. */
  lemma {:induction false} CollectAllPresent<A, B>(xs: seq<A>, f: A -> Result<Option<B>>)
    requires forall i :: 0 <= i < |xs| ==> f(xs[i]).Ok? && f(xs[i]).value.Some?
    ensures Collect(xs, f).Ok?
    ensures |Collect(xs, f).value| == |xs|
    ensures forall i :: 0 <= i < |xs| ==> Collect(xs, f).value[i] == f(xs[i]).value.value
  {
    if xs != [] {
      CollectAllPresent(xs[..|xs| - 1], f);
    }
  }
}
