/** The selection of women for the triple file (parser/code/women_to_triples.py):
    the dumps of the "women" extractor are merged, every woman with an
    occupation is ranked under her first occupation by how many predicates
    she has, the best ranked women of five occupations are taken, and their
    facts are written out as triples. */
module WomenTriples {
  import opened Common
  import opened Record
  import Text

  /** One woman's `track`: predicate -> object ids, in key order. */
  type Track = Dict<seq<string>>

  const OCCUPATION := "P106"

  predicate HasObjects(x: (string, seq<string>))
  {
    |x.1| > 0
  }

  /** `{predicate: obj_list for ... if len(obj_list) > 0}`. */
  function NonEmpty(t: Track): (r: Track)
    ensures forall x :: x in r ==> x in t && |x.1| > 0
  {
    Filter(t, HasObjects)
  }

  /** Exactly the entries with objects are kept, in their order. */
  lemma NonEmptyMeaning(t: Track)
    ensures forall x :: x in NonEmpty(t) <==> x in t && |x.1| > 0
    ensures IsSubsequence(NonEmpty(t), t)
  {
    forall x | x in t && |x.1| > 0
      ensures x in NonEmpty(t)
    {
      FilterKeeps(t, HasObjects, x);
    }
    FilterIsSubsequence(t, HasObjects);
  }

  /** `parse_batch(batch, curr_data)`: every subject's track, without its
      empty lists, stored under its id. */
  function ParseAll(batch: Dict<Track>, curr: Dict<Track>): Dict<Track>
  {
    PutAll(batch, NonEmpty, curr)
  }

  /** `parse_batch`: the loop over the batch. The main block's dictionary is
      its only reference, so the update is returned as the new value. */
  method ParseBatch(batch: Dict<Track>, curr: Dict<Track>) returns (next: Dict<Track>)
    ensures next == ParseAll(batch, curr)
  {
    next := curr;
    var i := 0;
    while i < |batch|
      invariant 0 <= i <= |batch|
      invariant next == PutAll(batch[..i], NonEmpty, curr)
    {
      assert batch[..i + 1][..i] == batch[..i];
      var (id, subject) := batch[i];
      var data := NonEmpty(subject);
      next := Put(next, id, data);
      i := i + 1;
    }
    assert batch[..i] == batch;
  }

  /** A batch is a dictionary, so its ids are distinct: after `parse_batch`
      an id of the batch holds that subject's non-empty lists, whatever it
      held before, and every other id is untouched. */
  lemma ParseAllGet(batch: Dict<Track>, curr: Dict<Track>, id: string)
    requires Distinct(Keys(batch))
    ensures Get(ParseAll(batch, curr), id) ==
      if Get(batch, id).Some? then Some(NonEmpty(Get(batch, id).value)) else Get(curr, id)
  {
    PutAllGet(batch, NonEmpty, curr, id);
  }

  /** `women` after the load loop: `parse_batch` on every pickled batch, in
      file order, from the empty dictionary. */
  function Loaded(batches: seq<Dict<Track>>): Dict<Track>
  {
    if batches == [] then [] else ParseAll(batches[|batches| - 1], Loaded(batches[..|batches| - 1]))
  }

  /** The load loop, with the pickled batches as its input. */
  method Load(batches: seq<Dict<Track>>) returns (women: Dict<Track>)
    ensures women == Loaded(batches)
  {
    women := [];
    var i := 0;
    while i < |batches|
      invariant 0 <= i <= |batches|
      invariant women == Loaded(batches[..i])
    {
      assert batches[..i + 1][..i] == batches[..i];
      women := ParseBatch(batches[i], women);
      i := i + 1;
    }
    assert batches[..i] == batches;
  }

  /** The merged dictionary lists every woman once. */
  lemma {:induction false} LoadedDistinct(batches: seq<Dict<Track>>)
    ensures Distinct(Keys(Loaded(batches)))
  {
    if batches != [] {
      LoadedDistinct(batches[..|batches| - 1]);
      PutAllDistinct(batches[|batches| - 1], NonEmpty, Loaded(batches[..|batches| - 1]));
    }
  }

  /** `set(f.read().split(','))`: the entities of the existing graph. */
  function Existing(text: string): (r: set<string>)
    ensures forall x :: x in r <==> x in Text.Split(text, ',')
  {
    Elements(Text.Split(text, ','))
  }

  /** `claims.get('P106', [])`. */
  function Occupations(t: Track): seq<string>
  {
    match Get(t, OCCUPATION)
    case Some(os) => os
    case None => []
  }

  function InSet(existing: set<string>): string -> bool
  {
    x => x in existing
  }

  /** `list(filter(lambda x: x in existing_ents, objects))`. */
  function Keep(existing: set<string>): seq<string> -> seq<string>
  {
    os => Filter(os, InSet(existing))
  }

  /** Exactly the existing objects are kept, in their order. */
  lemma KeepMeaning(os: seq<string>, existing: set<string>)
    ensures forall x :: x in Keep(existing)(os) <==> x in os && x in existing
    ensures IsSubsequence(Keep(existing)(os), os)
  {
    forall x | x in os && x in existing
      ensures x in Keep(existing)(os)
    {
      FilterKeeps(os, InSet(existing), x);
    }
    FilterIsSubsequence(os, InSet(existing));
  }

  /** `filtered_copy`: every list cut down to the existing entities, then
      the occupations stored in full under P106. */
  function FilteredCopy(t: Track, existing: set<string>): Track
  {
    Put(PutAll(t, Keep(existing), []), OCCUPATION, Occupations(t))
  }

  /** The loop that builds `filtered_copy`. */
  method CopyFiltered(claims: Track, existing: set<string>) returns (copy: Track)
    ensures copy == FilteredCopy(claims, existing)
  {
    copy := [];
    var i := 0;
    while i < |claims|
      invariant 0 <= i <= |claims|
      invariant copy == PutAll(claims[..i], Keep(existing), [])
    {
      assert claims[..i + 1][..i] == claims[..i];
      var (pred, objects) := claims[i];
      copy := Put(copy, pred, Filter(objects, InSet(existing)));
      i := i + 1;
    }
    assert claims[..i] == claims;
    var occupations := Occupations(claims);
    copy := Put(copy, OCCUPATION, occupations);
  }

  /** The copy keeps the occupations whole and every other predicate with
      only its existing objects; it has no predicate the woman lacks. */
  lemma FilteredCopyMeaning(t: Track, existing: set<string>, p: string)
    requires Distinct(Keys(t))
    ensures Get(FilteredCopy(t, existing), OCCUPATION) == Some(Occupations(t))
    ensures p != OCCUPATION ==> Get(FilteredCopy(t, existing), p) ==
                                (if Get(t, p).Some? then Some(Filter(Get(t, p).value, InSet(existing))) else None)
  {
    PutAllGet(t, Keep(existing), [], p);
  }

  /** A heap entry: `(-len(claims), id)`, so that the woman with the most
      predicates is the least entry and comes out first. */
  type Count = (int, string)

  function Entry(id: string, t: Track): Count
  {
    (-|t|, id)
  }

  /** `women_heap` (each heap as the entries pushed, in push order) and
      `women_filtered`. */
  datatype Selection = Selection(heaps: map<string, seq<Count>>, filtered: map<string, Track>)

  /** The loop over `women`: a woman with an occupation is pushed on the
      heap of her first occupation and her filtered copy is kept. */
  function SelectAll(women: Dict<Track>, existing: set<string>): Selection
  {
    if women == [] then Selection(map[], map[])
    else SelectStep(SelectAll(women[..|women| - 1], existing), women[|women| - 1], existing)
  }

  /** One turn of that loop, for the woman `x`. */
  function SelectStep(s: Selection, x: (string, Track), existing: set<string>): Selection
  {
    var occupations := Occupations(x.1);
    if occupations == [] then s
    else
      var first := occupations[0];
      var heap := if first in s.heaps then s.heaps[first] else [];
      Selection(s.heaps[first := heap + [Entry(x.0, x.1)]], s.filtered[x.0 := FilteredCopy(x.1, existing)])
  }

  /** One turn pushes the woman's entry on the heap of her first
      occupation, and nothing else. */
  lemma StepHeaps(s: Selection, x: (string, Track), existing: set<string>, o: string, c: Count)
    ensures (o in SelectStep(s, x, existing).heaps && c in SelectStep(s, x, existing).heaps[o]) <==>
      (o in s.heaps && c in s.heaps[o]) || (Occupations(x.1) != [] && Occupations(x.1)[0] == o && c == Entry(x.0, x.1))
  {
  }

  method Select(women: Dict<Track>, existing: set<string>) returns (heaps: map<string, seq<Count>>, filtered: map<string, Track>)
    ensures Selection(heaps, filtered) == SelectAll(women, existing)
  {
    heaps, filtered := map[], map[];
    var i := 0;
    while i < |women|
      invariant 0 <= i <= |women|
      invariant Selection(heaps, filtered) == SelectAll(women[..i], existing)
    {
      assert women[..i + 1][..i] == women[..i];
      var (id, claims) := women[i];
      var copy := CopyFiltered(claims, existing);
      var occupations := Occupations(claims);
      if |occupations| > 0 {
        var first := occupations[0];
        var heap := if first in heaps then heaps[first] else [];
        heaps := heaps[first := heap + [Entry(id, claims)]];
        filtered := filtered[id := copy];
      }
      i := i + 1;
    }
    assert women[..i] == women;
  }

  /** Entry `c` belongs on the heap of occupation `o`: its id is a woman
      whose first occupation is `o`, and it carries her predicate count. */
  predicate Ranked(women: Dict<Track>, o: string, c: Count)
  {
    Get(women, c.1).Some? && Occupations(Get(women, c.1).value) != [] &&
    Occupations(Get(women, c.1).value)[0] == o && c == Entry(c.1, Get(women, c.1).value)
  }

  /** The heaps hold exactly the ranked entries: every woman with an
      occupation is on the heap of her first occupation and on no other. */
  lemma {:induction false} SelectHeaps(women: Dict<Track>, existing: set<string>, o: string, c: Count)
    requires Distinct(Keys(women))
    ensures (o in SelectAll(women, existing).heaps && c in SelectAll(women, existing).heaps[o]) <==> Ranked(women, o, c)
  {
    if women != [] {
      var init, x := women[..|women| - 1], women[|women| - 1];
      assert women == init + [x];
      DistinctInit(women);
      SelectHeaps(init, existing, o, c);
      StepHeaps(SelectAll(init, existing), x, existing, o, c);
      GetSnoc(init, x, c.1);
    }
  }

  /** `women_filtered` holds exactly the women with an occupation, each
      with her filtered copy. */
  lemma {:induction false} SelectFiltered(women: Dict<Track>, existing: set<string>, id: string)
    requires Distinct(Keys(women))
    ensures id in SelectAll(women, existing).filtered <==> Get(women, id).Some? && Occupations(Get(women, id).value) != []
    ensures id in SelectAll(women, existing).filtered ==>
      SelectAll(women, existing).filtered[id] == FilteredCopy(Get(women, id).value, existing)
  {
    if women != [] {
      var init, x := women[..|women| - 1], women[|women| - 1];
      assert women == init + [x];
      DistinctInit(women);
      SelectFiltered(init, existing, id);
      GetSnoc(init, x, id);
    }
  }

  /** No woman is pushed twice on a heap. */
  lemma {:induction false} SelectHeapIds(women: Dict<Track>, existing: set<string>, o: string)
    requires Distinct(Keys(women))
    requires o in SelectAll(women, existing).heaps
    ensures forall i, j :: 0 <= i < j < |SelectAll(women, existing).heaps[o]| ==>
      SelectAll(women, existing).heaps[o][i].1 != SelectAll(women, existing).heaps[o][j].1
  {
    var init, x := women[..|women| - 1], women[|women| - 1];
    assert women == init + [x];
    DistinctInit(women);
    var s := SelectAll(init, existing);
    var h := SelectStep(s, x, existing).heaps[o];
    if o in s.heaps && h == s.heaps[o] {
      SelectHeapIds(init, existing, o);
    } else {
      var old_h := if o in s.heaps then s.heaps[o] else [];
      assert h == old_h + [Entry(x.0, x.1)];
      if o in s.heaps {
        SelectHeapIds(init, existing, o);
      }
      forall i | 0 <= i < |old_h|
        ensures old_h[i].1 != x.0
      {
        assert old_h[i] in s.heaps[o];
        SelectHeaps(init, existing, o, old_h[i]);
      }
    }
  }

  /** The entries of a heap name every woman at most once. */
  predicate DistinctIds(h: seq<Count>)
  {
    forall i, j :: 0 <= i < j < |h| ==> h[i].1 != h[j].1
  }

  /** Python's order on `(count, id)` tuples: by count, then by id. */
  predicate Before(a: Count, b: Count)
  {
    a.0 < b.0 || (a.0 == b.0 && Text.Less(a.1, b.1))
  }

  /** `Before` is a strict total order. */
  lemma BeforeOrder(a: Count, b: Count, c: Count)
    ensures !Before(a, a)
    ensures Before(a, b) && Before(b, c) ==> Before(a, c)
    ensures a != b ==> Before(a, b) || Before(b, a)
  {
    Text.LessIrreflexive(a.1);
    if Before(a, b) && Before(b, c) && a.0 == b.0 && b.0 == c.0 {
      Text.LessTransitive(a.1, b.1, c.1);
    }
    if a != b && a.0 == b.0 {
      Text.LessTotal(a.1, b.1);
    }
  }

  /** The entry `heappop` returns: the least one. */
  function Least(h: seq<Count>): (m: Count)
    requires h != []
    ensures m in h
  {
    if |h| == 1 then h[0]
    else
      var m := Least(h[1..]);
      if Before(h[0], m) then h[0] else m
  }

  /** No entry of the heap comes before the popped one. */
  lemma {:induction false} LeastIsLeast(h: seq<Count>)
    requires h != []
    ensures forall x :: x in h ==> !Before(x, Least(h))
  {
    if |h| > 1 {
      LeastIsLeast(h[1..]);
      var m := Least(h[1..]);
      assert Least(h) == if Before(h[0], m) then h[0] else m;
      forall x | x in h
        ensures !Before(x, Least(h))
      {
        BeforeOrder(x, h[0], m);
        if x != h[0] {
          assert x in h[1..];
        }
      }
    } else {
      BeforeOrder(h[0], h[0], h[0]);
    }
  }

  /** The heap's contents after popping `m`: one occurrence fewer. */
  function Remove(h: seq<Count>, m: Count): (r: seq<Count>)
    requires m in h
    ensures |r| == |h| - 1
  {
    assert h == [h[0]] + h[1..];
    if h[0] == m then h[1..] else [h[0]] + Remove(h[1..], m)
  }

  /** Popping takes away exactly one occurrence of the popped entry. */
  lemma {:induction false} RemoveCount(h: seq<Count>, m: Count)
    requires m in h
    ensures multiset(Remove(h, m)) == multiset(h) - multiset{m}
  {
    assert h == [h[0]] + h[1..];
    if h[0] != m {
      RemoveCount(h[1..], m);
    }
  }

  lemma RemoveIn(h: seq<Count>, m: Count, y: Count)
    requires m in h && y in Remove(h, m)
    ensures y in h
  {
    RemoveCount(h, m);
    assert y in multiset(Remove(h, m));
  }

  lemma DistinctTail(h: seq<Count>)
    requires h != [] && DistinctIds(h)
    ensures DistinctIds(h[1..])
    ensures forall y :: y in h[1..] ==> y.1 != h[0].1
  {
    forall i, j | 0 <= i < j < |h[1..]|
      ensures h[1..][i].1 != h[1..][j].1
    {
      assert h[1..][i] == h[i + 1] && h[1..][j] == h[j + 1];
    }
    forall y | y in h[1..]
      ensures y.1 != h[0].1
    {
      var l :| 0 <= l < |h[1..]| && h[1..][l] == y;
      assert h[l + 1] == y;
    }
  }

  lemma {:induction false} RemoveDistinct(h: seq<Count>, m: Count)
    requires m in h && DistinctIds(h)
    ensures DistinctIds(Remove(h, m))
    ensures forall y :: y in Remove(h, m) ==> y.1 != m.1
  {
    DistinctTail(h);
    if h[0] != m {
      var rest := Remove(h[1..], m);
      assert m in h[1..];
      RemoveDistinct(h[1..], m);
      forall y | y in rest
        ensures y.1 != h[0].1
      {
        RemoveIn(h[1..], m, y);
      }
      var r := Remove(h, m);
      assert r == [h[0]] + rest;
      forall i, j | 0 <= i < j < |r|
        ensures r[i].1 != r[j].1
      {
        if i == 0 {
          assert r[j] in rest;
        } else {
          assert r[i] == rest[i - 1] && r[j] == rest[j - 1];
        }
      }
    }
  }

  /** `k` calls of `heappop` on a heap holding `h`: the entries in the
      order they come out, or IndexError when the heap runs out first. */
  function Pops(h: seq<Count>, k: nat): Result<seq<Count>>
    decreases k
  {
    if k == 0 then Ok([])
    else if h == [] then Fail(IndexError)
    else
      var m := Least(h);
      match Pops(Remove(h, m), k - 1)
      case Ok(rest) => Ok([m] + rest)
      case Fail(e) => Fail(e)
  }

  /** The pops succeed exactly when the heap holds at least `k` entries,
      and then return `k` entries; otherwise they raise IndexError. */
  lemma {:induction false} PopsResult(h: seq<Count>, k: nat)
    ensures Pops(h, k).Ok? <==> k <= |h|
    ensures Pops(h, k).Ok? ==> |Pops(h, k).value| == k
    ensures Pops(h, k).Fail? ==> Pops(h, k).error == IndexError
    decreases k
  {
    if k != 0 && h != [] {
      PopsStep(h, k);
      PopsResult(Remove(h, Least(h)), k - 1);
    }
  }

  /** Every popped entry was on the heap, as often as it was popped. */
  lemma {:induction false} PopsFrom(h: seq<Count>, k: nat)
    requires Pops(h, k).Ok?
    ensures multiset(Pops(h, k).value) <= multiset(h)
    decreases k
  {
    if k != 0 {
      var m := Least(h);
      var h' := Remove(h, m);
      PopsStep(h, k);
      PopsFrom(h', k - 1);
      RemoveCount(h, m);
      var rest := Pops(h', k - 1).value;
      assert Pops(h, k).value == [m] + rest;
      assert multiset([m] + rest) == multiset{m} + multiset(rest);
    }
  }

  /** One `heappop` followed by the rest. */
  lemma PopsStep(h: seq<Count>, k: nat)
    requires k != 0 && h != []
    ensures Pops(h, k) == Then([Least(h)], Pops(Remove(h, Least(h)), k - 1))
  {
  }

  lemma PopsIn(h: seq<Count>, k: nat, y: Count)
    requires Pops(h, k).Ok? && y in Pops(h, k).value
    ensures y in h
  {
    PopsFrom(h, k);
    assert y in multiset(Pops(h, k).value);
  }

  /** No entry of `s` comes before an earlier one. */
  predicate Ordered(s: seq<Count>)
  {
    forall i, j :: 0 <= i < j < |s| ==> !Before(s[j], s[i])
  }

  /** Entries come out least first: by decreasing predicate count, ties
      broken by the smaller id. */
  lemma {:induction false} PopsSorted(h: seq<Count>, k: nat)
    requires Pops(h, k).Ok?
    ensures Ordered(Pops(h, k).value)
    decreases k
  {
    if k != 0 {
      var m := Least(h);
      var h' := Remove(h, m);
      PopsStep(h, k);
      var rest := Pops(h', k - 1).value;
      forall y | y in rest
        ensures !Before(y, m)
      {
        PopsIn(h', k - 1, y);
        RemoveIn(h, m, y);
        LeastIsLeast(h);
      }
      PopsSorted(h', k - 1);
      SortedCons(m, rest);
      assert Pops(h, k).value == [m] + rest;
    }
  }

  /** An entry that no later one comes before, put in front of an ordered run. */
  lemma SortedCons(m: Count, rest: seq<Count>)
    requires forall y :: y in rest ==> !Before(y, m)
    requires Ordered(rest)
    ensures Ordered([m] + rest)
  {
    var r := [m] + rest;
    forall i, j | 0 <= i < j < |r|
      ensures !Before(r[j], r[i])
    {
      assert r[j] == rest[j - 1];
      if i != 0 {
        assert r[i] == rest[i - 1];
      }
    }
  }

  /** No entry of `left` comes before any entry of `out`. */
  predicate Beaten(left: multiset<Count>, out: seq<Count>)
  {
    forall x, i :: x in left && 0 <= i < |out| ==> !Before(x, out[i])
  }

  /** No entry left on the heap comes before one that was popped: the
      popped women have at least as many predicates as any left behind. */
  lemma {:induction false} PopsBest(h: seq<Count>, k: nat)
    requires Pops(h, k).Ok?
    ensures Beaten(multiset(h) - multiset(Pops(h, k).value), Pops(h, k).value)
    decreases k
  {
    if k != 0 {
      var m := Least(h);
      PopsStep(h, k);
      var rest := Pops(Remove(h, m), k - 1).value;
      PopsBest(Remove(h, m), k - 1);
      BestCons(h, rest);
      assert Pops(h, k).value == [m] + rest;
    }
  }

  lemma BestCons(h: seq<Count>, rest: seq<Count>)
    requires h != []
    requires Beaten(multiset(Remove(h, Least(h))) - multiset(rest), rest)
    ensures Beaten(multiset(h) - multiset([Least(h)] + rest), [Least(h)] + rest)
  {
    var m := Least(h);
    var r := [m] + rest;
    forall x, i | x in multiset(h) - multiset(r) && 0 <= i < |r|
      ensures !Before(x, r[i])
    {
      LeftBehind(h, m, rest, x);
      if i != 0 {
        assert r[i] == rest[i - 1];
      } else {
        LeastIsLeast(h);
      }
    }
  }

  /** An entry left behind by the pops is left behind by the pops after the first. */
  lemma LeftBehind(h: seq<Count>, m: Count, rest: seq<Count>, x: Count)
    requires m in h && x in multiset(h) - multiset([m] + rest)
    ensures x in h
    ensures x in multiset(Remove(h, m)) - multiset(rest)
  {
    assert x in multiset(h);
    RemoveCount(h, m);
    var one := if x == m then 1 else 0;
    assert multiset([m] + rest)[x] == one + multiset(rest)[x];
  }

  /** Popping from a heap that names every woman once names each woman at
      most once. */
  lemma {:induction false} PopsDistinct(h: seq<Count>, k: nat)
    requires DistinctIds(h) && Pops(h, k).Ok?
    ensures DistinctIds(Pops(h, k).value)
    decreases k
  {
    if k != 0 {
      var m := Least(h);
      var h' := Remove(h, m);
      PopsStep(h, k);
      var rest := Pops(h', k - 1).value;
      RemoveDistinct(h, m);
      PopsDistinct(h', k - 1);
      forall y | y in rest
        ensures y.1 != m.1
      {
        PopsIn(h', k - 1, y);
      }
      DistinctCons(m, rest);
    }
  }

  /** An entry whose id no other entry has, put in front of entries with distinct ids. */
  lemma DistinctCons(m: Count, rest: seq<Count>)
    requires forall y :: y in rest ==> y.1 != m.1
    requires DistinctIds(rest)
    ensures DistinctIds([m] + rest)
  {
    var r := [m] + rest;
    forall i, j | 0 <= i < j < |r|
      ensures r[i].1 != r[j].1
    {
      assert r[j] == rest[j - 1];
      if i != 0 {
        assert r[i] == rest[i - 1];
      }
    }
  }

  function IdsOf(cs: seq<Count>): (r: seq<string>)
    ensures |r| == |cs| && forall i :: 0 <= i < |cs| ==> r[i] == cs[i].1
  {
    seq(|cs|, i requires 0 <= i < |cs| => cs[i].1)
  }

  /** The inner popping loop for one occupation: `range(0, k)` pops, the
      ids in the order they come out. */
  method PopWomen(heap: seq<Count>, k: nat) returns (r: Result<seq<string>>)
    ensures Pops(heap, k).Ok? ==> r == Ok(IdsOf(Pops(heap, k).value))
    ensures Pops(heap, k).Fail? ==> r == Fail(Pops(heap, k).error)
  {
    var relevant := heap;
    var ids: seq<string> := [];
    ghost var popped: seq<Count> := [];
    ThenNil(Pops(heap, k));
    var i := 0;
    while i < k
      invariant 0 <= i <= k
      invariant Pops(heap, k) == Then(popped, Pops(relevant, k - i))
      invariant ids == IdsOf(popped)
    {
      if relevant == [] {
        assert Pops(relevant, k - i) == Fail(IndexError);
        return Fail(IndexError);
      }
      var woman := Least(relevant);
      PopNext(popped, relevant, k - i);
      IdsOfSnoc(popped, woman);
      relevant := Remove(relevant, woman);
      popped := popped + [woman];
      ids := ids + [woman.1];
      i := i + 1;
    }
    assert popped + [] == popped;
    r := Ok(ids);
  }

  /** One more `heappop` moves an entry from the heap to the popped ones. */
  lemma PopNext(popped: seq<Count>, relevant: seq<Count>, n: nat)
    requires relevant != [] && n > 0
    ensures Then(popped, Pops(relevant, n)) ==
      Then(popped + [Least(relevant)], Pops(Remove(relevant, Least(relevant)), n - 1))
  {
    PopsStep(relevant, n);
    ThenAssoc(popped, Least(relevant), Pops(Remove(relevant, Least(relevant)), n - 1));
  }

  lemma IdsOfSnoc(cs: seq<Count>, c: Count)
    ensures IdsOf(cs + [c]) == IdsOf(cs) + [c.1]
  {
  }

  /** The entries `done` followed by those of `r`. */
  function Then(done: seq<Count>, r: Result<seq<Count>>): Result<seq<Count>>
  {
    match r
    case Ok(more) => Ok(done + more)
    case Fail(e) => Fail(e)
  }

  lemma ThenNil(r: Result<seq<Count>>)
    ensures Then([], r) == r
  {
    if r.Ok? {
      assert [] + r.value == r.value;
    }
  }

  lemma ThenAssoc(done: seq<Count>, m: Count, r: Result<seq<Count>>)
    ensures Then(done, Then([m], r)) == Then(done + [m], r)
  {
    if r.Ok? {
      assert done + ([m] + r.value) == (done + [m]) + r.value;
    }
  }

  /** The popping loop over `common_occupations`, visited in the order
      `order`: KeyError for an occupation nobody has, IndexError for one
      with fewer women than required, otherwise the popped entries. */
  function Chosen(heaps: map<string, seq<Count>>, order: seq<string>, required: map<string, nat>): Result<seq<Count>>
    requires forall o :: o in order ==> o in required
  {
    if order == [] then Ok([])
    else
      var o := order[|order| - 1];
      match Chosen(heaps, order[..|order| - 1], required)
      case Fail(e) => Fail(e)
      case Ok(cs) =>
        if o !in heaps then Fail(KeyError)
        else Then(cs, Pops(heaps[o], required[o]))
  }

  /** The number of women `required` asks for over `order`. */
  function Sum(order: seq<string>, required: map<string, nat>): nat
    requires forall o :: o in order ==> o in required
  {
    if order == [] then 0 else Sum(order[..|order| - 1], required) + required[order[|order| - 1]]
  }

  /** The choice succeeds exactly when every occupation has a heap holding
      at least the required number of women; it then yields that many
      entries, each from the heap of one of the occupations. */
  lemma {:induction false} ChosenResult(heaps: map<string, seq<Count>>, order: seq<string>, required: map<string, nat>)
    requires forall o :: o in order ==> o in required
    ensures Chosen(heaps, order, required).Ok? <==>
      forall o :: o in order ==> o in heaps && required[o] <= |heaps[o]|
    ensures Chosen(heaps, order, required).Ok? ==> |Chosen(heaps, order, required).value| == Sum(order, required)
    ensures Chosen(heaps, order, required).Ok? ==> forall c :: c in Chosen(heaps, order, required).value ==>
      exists o :: o in order && o in heaps && c in heaps[o]
  {
    if order != [] {
      var init, o := order[..|order| - 1], order[|order| - 1];
      assert order == init + [o];
      ChosenResult(heaps, init, required);
      if o in heaps {
        PopsResult(heaps[o], required[o]);
      }
      var r := Chosen(heaps, order, required);
      if r.Ok? {
        var cs, more := Chosen(heaps, init, required).value, Pops(heaps[o], required[o]).value;
        assert r.value == cs + more;
        forall c | c in r.value
          ensures exists o' :: o' in order && o' in heaps && c in heaps[o']
        {
          if c in cs {
            var o' :| o' in init && o' in heaps && c in heaps[o'];
            assert o' in order;
          } else {
            PopsIn(heaps[o], required[o], c);
          }
        }
      }
    }
  }

  /** Every woman is on at most one heap, and at most once. */
  predicate Exclusive(heaps: map<string, seq<Count>>)
  {
    (forall o :: o in heaps ==> DistinctIds(heaps[o])) &&
    forall o1: string, o2: string, c1: Count, c2: Count :: o1 in heaps && o2 in heaps && c1 in heaps[o1] && c2 in heaps[o2] && c1.1 == c2.1 ==> o1 == o2
  }

  /** The heaps built from the merged women are exclusive. */
  lemma SelectExclusive(women: Dict<Track>, existing: set<string>)
    requires Distinct(Keys(women))
    ensures Exclusive(SelectAll(women, existing).heaps)
  {
    var heaps := SelectAll(women, existing).heaps;
    forall o | o in heaps
      ensures DistinctIds(heaps[o])
    {
      SelectHeapIds(women, existing, o);
    }
    forall o1: string, o2: string, c1: Count, c2: Count | o1 in heaps && o2 in heaps && c1 in heaps[o1] && c2 in heaps[o2] && c1.1 == c2.1
      ensures o1 == o2
    {
      SelectHeaps(women, existing, o1, c1);
      SelectHeaps(women, existing, o2, c2);
    }
  }

  /** `output_ids` names no woman twice: each occupation is visited once,
      and the heaps are exclusive. */
  lemma {:induction false} ChosenDistinct(heaps: map<string, seq<Count>>, order: seq<string>, required: map<string, nat>)
    requires forall o :: o in order ==> o in required
    requires Distinct(order) && Exclusive(heaps)
    requires Chosen(heaps, order, required).Ok?
    ensures DistinctIds(Chosen(heaps, order, required).value)
  {
    if order != [] {
      var init, o := order[..|order| - 1], order[|order| - 1];
      assert order == init + [o];
      assert Distinct(init) && o !in init by {
        forall i, j | 0 <= i < j < |init|
          ensures init[i] != init[j]
        {
          assert order[i] != order[j];
        }
        forall i | 0 <= i < |init|
          ensures init[i] != o
        {
          assert order[i] != order[|init|];
        }
      }
      if init != [] {
        ChosenDistinct(heaps, init, required);
      }
      ChosenResult(heaps, init, required);
      var cs, more := Chosen(heaps, init, required).value, Pops(heaps[o], required[o]).value;
      assert Chosen(heaps, order, required).value == cs + more;
      PopsDistinct(heaps[o], required[o]);
      forall c | c in more
        ensures c in heaps[o]
      {
        PopsIn(heaps[o], required[o], c);
      }
      DistinctConcat(heaps, init, o, cs, more);
    }
  }

  /** Entries from the heaps of `init` and entries from the heap of another
      occupation `o` never name the same woman. */
  lemma DistinctConcat(heaps: map<string, seq<Count>>, init: seq<string>, o: string, cs: seq<Count>, more: seq<Count>)
    requires Exclusive(heaps)
    requires DistinctIds(cs) && DistinctIds(more)
    requires forall c :: c in cs ==> exists o' :: o' in init && o' in heaps && c in heaps[o']
    requires o !in init && o in heaps
    requires forall c :: c in more ==> c in heaps[o]
    ensures DistinctIds(cs + more)
  {
    var r := cs + more;
    forall i, j | 0 <= i < j < |r|
      ensures r[i].1 != r[j].1
    {
      if j < |cs| {
        assert r[i] == cs[i] && r[j] == cs[j];
      } else if i >= |cs| {
        assert r[i] == more[i - |cs|] && r[j] == more[j - |cs|];
      } else {
        assert r[i] in cs && r[j] in more;
        var o' :| o' in init && o' in heaps && r[i] in heaps[o'];
      }
    }
  }

  /** A failure part-way through the occupations is the final outcome. */
  lemma {:induction false} ChosenFailPersists(heaps: map<string, seq<Count>>, order: seq<string>, n: nat, required: map<string, nat>)
    requires forall o :: o in order ==> o in required
    requires n <= |order| && Chosen(heaps, order[..n], required).Fail?
    ensures Chosen(heaps, order, required) == Chosen(heaps, order[..n], required)
  {
    if n < |order| {
      var init := order[..|order| - 1];
      assert init[..n] == order[..n];
      ChosenFailPersists(heaps, init, n, required);
    } else {
      assert order[..n] == order;
    }
  }

  lemma ChosenStep(heaps: map<string, seq<Count>>, order: seq<string>, n: nat, required: map<string, nat>, chosen: seq<Count>)
    requires forall o :: o in order ==> o in required
    requires n < |order| && Chosen(heaps, order[..n], required) == Ok(chosen)
    ensures order[n] !in heaps ==> Chosen(heaps, order[..n + 1], required) == Fail(KeyError)
    ensures order[n] in heaps ==>
      Chosen(heaps, order[..n + 1], required) == Then(chosen, Pops(heaps[order[n]], required[order[n]]))
  {
    assert order[..n + 1][..n] == order[..n];
  }

  /** The loop over `common_occupations`: `women_heap[occupation]`, then the
      pops, appending each popped id to `output_ids`. Popped heaps are not
      written back; no later step reads them. */
  method ChooseWomen(heaps: map<string, seq<Count>>, order: seq<string>, required: map<string, nat>) returns (r: Result<seq<string>>)
    requires forall o :: o in order ==> o in required
    ensures Chosen(heaps, order, required).Ok? ==> r == Ok(IdsOf(Chosen(heaps, order, required).value))
    ensures Chosen(heaps, order, required).Fail? ==> r == Fail(Chosen(heaps, order, required).error)
  {
    var output: seq<string> := [];
    ghost var chosen: seq<Count> := [];
    var n := 0;
    while n < |order|
      invariant 0 <= n <= |order|
      invariant Chosen(heaps, order[..n], required) == Ok(chosen)
      invariant output == IdsOf(chosen)
    {
      var occupation := order[n];
      ChosenStep(heaps, order, n, required, chosen);
      if occupation !in heaps {
        ChosenFailPersists(heaps, order, n + 1, required);
        return Fail(KeyError);
      }
      var relevant := heaps[occupation];
      var ids := PopWomen(relevant, required[occupation]);
      if ids.Fail? {
        ChosenFailPersists(heaps, order, n + 1, required);
        return ids;
      }
      ghost var more := Pops(relevant, required[occupation]).value;
      assert IdsOf(chosen + more) == IdsOf(chosen) + IdsOf(more);
      chosen := chosen + more;
      output := output + ids.value;
      n := n + 1;
    }
    assert order[..n] == order;
    r := Ok(output);
  }

  /** A row of the triple file: `[id, pred, obj]`. */
  type Triple = (string, string, string)

  function ObjectTriples(id: string, p: string, os: seq<string>): (r: seq<Triple>)
    ensures |r| == |os| && forall i :: 0 <= i < |os| ==> r[i] == (id, p, os[i])
  {
    seq(|os|, i requires 0 <= i < |os| => (id, p, os[i]))
  }

  /** The rows of one woman: one per object, predicate by predicate,
      skipping P31. */
  function WomanTriples(id: string, t: Track): seq<Triple>
  {
    if t == [] then []
    else
      var x := t[|t| - 1];
      WomanTriples(id, t[..|t| - 1]) + (if x.0 == INSTANCE_OF then [] else ObjectTriples(id, x.0, x.1))
  }

  /** A woman's rows are exactly her (predicate, object) pairs other than
      those of P31, each with her id. */
  lemma {:induction false} WomanTriplesMeaning(id: string, t: Track, tr: Triple)
    ensures tr in WomanTriples(id, t) <==> tr.0 == id && tr.1 != INSTANCE_OF && (tr.1, tr.2) in Flatten(t)
  {
    if t != [] {
      var init, x := t[..|t| - 1], t[|t| - 1];
      WomanTriplesMeaning(id, init, tr);
      var tag := Tag(x.0, x.1);
      assert Flatten(t) == Flatten(init) + tag;
      assert (tr.1, tr.2) in tag <==> tr.1 == x.0 && tr.2 in x.1 by {
        if tr.1 == x.0 && tr.2 in x.1 {
          var k :| 0 <= k < |x.1| && x.1[k] == tr.2;
          assert tag[k] == (tr.1, tr.2);
        }
      }
      if x.0 != INSTANCE_OF {
        var rows := ObjectTriples(id, x.0, x.1);
        assert tr in rows <==> tr.0 == id && tr.1 == x.0 && tr.2 in x.1 by {
          if tr.0 == id && tr.1 == x.0 && tr.2 in x.1 {
            var k :| 0 <= k < |x.1| && x.1[k] == tr.2;
            assert rows[k] == tr;
          }
        }
      }
    }
  }

  /** The emission loop over `output_ids`: KeyError for an id without a
      filtered copy, otherwise every woman's rows in id order. */
  function Emit(ids: seq<string>, filtered: map<string, Track>): Result<seq<Triple>>
  {
    if ids == [] then Ok([])
    else
      var id := ids[|ids| - 1];
      match Emit(ids[..|ids| - 1], filtered)
      case Fail(e) => Fail(e)
      case Ok(rows) => if id !in filtered then Fail(KeyError) else Ok(rows + WomanTriples(id, filtered[id]))
  }

  /** The emission succeeds exactly when every id has a filtered copy; the
      rows are then exactly the non-P31 facts of the chosen women. */
  lemma {:induction false} EmitResult(ids: seq<string>, filtered: map<string, Track>, tr: Triple)
    ensures Emit(ids, filtered).Ok? <==> forall id :: id in ids ==> id in filtered
    ensures Emit(ids, filtered).Ok? ==>
      (tr in Emit(ids, filtered).value <==>
       tr.0 in ids && tr.0 in filtered && tr.1 != INSTANCE_OF && (tr.1, tr.2) in Flatten(filtered[tr.0]))
  {
    if ids != [] {
      var init, id := ids[..|ids| - 1], ids[|ids| - 1];
      assert ids == init + [id];
      EmitResult(init, filtered, tr);
      if id in filtered {
        WomanTriplesMeaning(id, filtered[id], tr);
        if tr.0 in filtered {
          WomanTriplesMeaning(tr.0, filtered[tr.0], tr);
        }
      }
    }
  }

  /** The rows of one woman appended to `out`: the loop over her predicates
      and, inside it, over their objects. */
  method AppendWoman(out: seq<Triple>, id: string, woman: Track) returns (next: seq<Triple>)
    ensures next == out + WomanTriples(id, woman)
  {
    next := out;
    var i := 0;
    while i < |woman|
      invariant 0 <= i <= |woman|
      invariant next == out + WomanTriples(id, woman[..i])
    {
      assert woman[..i + 1][..i] == woman[..i];
      var (pred, objs) := woman[i];
      ghost var before := next;
      if pred != INSTANCE_OF {
        var j := 0;
        while j < |objs|
          invariant 0 <= j <= |objs|
          invariant next == before + ObjectTriples(id, pred, objs[..j])
        {
          assert ObjectTriples(id, pred, objs[..j + 1]) == ObjectTriples(id, pred, objs[..j]) + [(id, pred, objs[j])];
          next := next + [(id, pred, objs[j])];
          j := j + 1;
        }
        assert objs[..j] == objs;
      }
      i := i + 1;
    }
    assert woman[..i] == woman;
  }

  method EmitTriples(ids: seq<string>, filtered: map<string, Track>) returns (r: Result<seq<Triple>>)
    ensures r == Emit(ids, filtered)
  {
    var output: seq<Triple> := [];
    var n := 0;
    while n < |ids|
      invariant 0 <= n <= |ids|
      invariant Emit(ids[..n], filtered) == Ok(output)
    {
      assert ids[..n + 1][..n] == ids[..n];
      var id := ids[n];
      if id !in filtered {
        EmitFailPersists(ids, n + 1, filtered);
        return Fail(KeyError);
      }
      var woman := filtered[id];
      output := AppendWoman(output, id, woman);
      n := n + 1;
    }
    assert ids[..n] == ids;
    r := Ok(output);
  }

  lemma {:induction false} EmitFailPersists(ids: seq<string>, n: nat, filtered: map<string, Track>)
    requires n <= |ids| && Emit(ids[..n], filtered).Fail?
    ensures Emit(ids, filtered) == Emit(ids[..n], filtered)
  {
    if n < |ids| {
      var init := ids[..|ids| - 1];
      assert init[..n] == ids[..n];
      EmitFailPersists(init, n, filtered);
    } else {
      assert ids[..n] == ids;
    }
  }

  /** `required`: how many women to take per occupation (football player,
      politician, actor, writer, physicist). */
  const REQUIRED: map<string, nat> := map["Q937857" := 1850, "Q82955" := 750, "Q33999" := 50, "Q36180" := 150, "Q169470" := 150]

  /** The script from the merged batches to the rows, with `order` the
      iteration order of `common_occupations`. */
  function Script(batches: seq<Dict<Track>>, ents: string, order: seq<string>, required: map<string, nat>): Result<seq<Triple>>
    requires forall o :: o in order ==> o in required
  {
    var sel := SelectAll(Loaded(batches), Existing(ents));
    match Chosen(sel.heaps, order, required)
    case Fail(e) => Fail(e)
    case Ok(cs) => Emit(IdsOf(cs), sel.filtered)
  }

  /** The main block: load, select, pop and emit. `batches` are the pickled
      batches of women.p and `ents` the text of wikidata12k_ents.txt. */
  method WomenToTriples(batches: seq<Dict<Track>>, ents: string, order: seq<string>) returns (r: Result<seq<Triple>>)
    requires Distinct(order) && Elements(order) == REQUIRED.Keys
    ensures r == Script(batches, ents, order, REQUIRED)
  {
    var women := Load(batches);
    var existing := Existing(ents);
    var heaps, filtered := Select(women, existing);
    var output_ids := ChooseWomen(heaps, order, REQUIRED);
    if output_ids.Fail? {
      return Fail(output_ids.error);
    }
    r := EmitTriples(output_ids.value, filtered);
  }

  /** Every chosen woman has a filtered copy, and none is chosen twice. */
  lemma ChosenWomen(batches: seq<Dict<Track>>, ents: string, order: seq<string>, required: map<string, nat>)
    requires Distinct(order) && forall o :: o in order ==> o in required
    requires Chosen(SelectAll(Loaded(batches), Existing(ents)).heaps, order, required).Ok?
    ensures DistinctIds(Chosen(SelectAll(Loaded(batches), Existing(ents)).heaps, order, required).value)
    ensures forall c :: c in Chosen(SelectAll(Loaded(batches), Existing(ents)).heaps, order, required).value ==>
      c.1 in SelectAll(Loaded(batches), Existing(ents)).filtered
  {
    var women, existing := Loaded(batches), Existing(ents);
    var sel := SelectAll(women, existing);
    LoadedDistinct(batches);
    SelectExclusive(women, existing);
    ChosenDistinct(sel.heaps, order, required);
    ChosenResult(sel.heaps, order, required);
    forall c | c in Chosen(sel.heaps, order, required).value
      ensures c.1 in sel.filtered
    {
      var o :| o in order && o in sel.heaps && c in sel.heaps[o];
      SelectHeaps(women, existing, o, c);
      SelectFiltered(women, existing, c.1);
    }
  }

  /** The script fails exactly when an occupation has no heap or too few
      women; otherwise it writes the non-P31 facts of the chosen women. */
  lemma ScriptResult(batches: seq<Dict<Track>>, ents: string, order: seq<string>, required: map<string, nat>)
    requires Distinct(order) && forall o :: o in order ==> o in required
    ensures Script(batches, ents, order, required).Ok? <==>
      forall o :: o in order ==>
        o in SelectAll(Loaded(batches), Existing(ents)).heaps &&
        required[o] <= |SelectAll(Loaded(batches), Existing(ents)).heaps[o]|
  {
    var sel := SelectAll(Loaded(batches), Existing(ents));
    ChosenResult(sel.heaps, order, required);
    var r := Chosen(sel.heaps, order, required);
    if r.Ok? {
      ChosenWomen(batches, ents, order, required);
      var ids := IdsOf(r.value);
      forall id | id in ids
        ensures id in sel.filtered
      {
        var k :| 0 <= k < |ids| && ids[k] == id;
        assert r.value[k] in r.value;
      }
      EmitResult(ids, sel.filtered, ("", "", ""));
    }
  }
}
