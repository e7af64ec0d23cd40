/** The query batching shared by analyzer/code/extend_wikidata.py and
    analyzer/code/extend_dbpedia.py: items are appended one by one to a
    query group, and the group is sent (and emptied) when it reaches the
    batch size or when the last item has been appended. */
module Batching {

  /** The loop's state after it has visited `xs[..i]`: the groups sent so
      far, and the group being filled. */
  function Run<T>(xs: seq<T>, size: nat, i: nat): (seq<seq<T>>, seq<T>)
    requires i <= |xs|
  {
    if i == 0 then ([], [])
    else
      var (sent, group) := Run(xs, size, i - 1);
      var g := group + [xs[i - 1]];
      if i - 1 == |xs| - 1 || |g| == size then (sent + [g], []) else (sent, g)
  }

  /** Every group the loop sends, in order. */
  function Groups<T>(xs: seq<T>, size: nat): seq<seq<T>>
  {
    Run(xs, size, |xs|).0
  }

  /** The groups laid end to end. */
  function Concat<T>(gs: seq<seq<T>>): seq<T>
  {
    if gs == [] then [] else Concat(gs[..|gs| - 1]) + gs[|gs| - 1]
  }

  lemma ConcatSnoc<T>(gs: seq<seq<T>>, g: seq<T>)
    ensures Concat(gs + [g]) == Concat(gs) + g
  {
    assert (gs + [g])[..|gs|] == gs;
  }

  /** Sizes of the groups the loop has sent. */
  predicate Sized<T>(sent: seq<seq<T>>, size: nat)
  {
    forall j :: 0 <= j < |sent| ==> |sent[j]| == size
  }

  /** What the loop keeps true: the sent groups followed by the open one
      are exactly the items visited, in order; the open group is short of
      the batch size; and every group sent before the last item was a full
      batch. After the last item nothing is left open. */
  lemma {:induction false} RunInvariant<T>(xs: seq<T>, size: nat, i: nat)
    requires size >= 1 && i <= |xs|
    ensures Concat(Run(xs, size, i).0) + Run(xs, size, i).1 == xs[..i]
    ensures |Run(xs, size, i).1| < size
    ensures i < |xs| ==> Sized(Run(xs, size, i).0, size)
    ensures i == |xs| ==> Run(xs, size, i).1 == []
    ensures i == |xs| && |Run(xs, size, i).0| > 0 ==> Sized(Run(xs, size, i).0[..|Run(xs, size, i).0| - 1], size)
    ensures forall j :: 0 <= j < |Run(xs, size, i).0| ==> 1 <= |Run(xs, size, i).0[j]| <= size
  {
    if i > 0 {
      RunInvariant(xs, size, i - 1);
      var (sent, group) := Run(xs, size, i - 1);
      var g := group + [xs[i - 1]];
      assert xs[..i] == xs[..i - 1] + [xs[i - 1]];
      if i - 1 == |xs| - 1 || |g| == size {
        ConcatSnoc(sent, g);
        assert (sent + [g])[..|sent|] == sent;
      }
    }
  }

  /** Batching sends every item exactly once and in order: the groups
      together are the input. Each group holds between one and `size`
      items, and all but the last hold exactly `size`. */
  lemma GroupsMeaning<T>(xs: seq<T>, size: nat)
    requires size >= 1
    ensures Concat(Groups(xs, size)) == xs
    ensures forall j :: 0 <= j < |Groups(xs, size)| ==> 1 <= |Groups(xs, size)[j]| <= size
    ensures forall j :: 0 <= j < |Groups(xs, size)| - 1 ==> |Groups(xs, size)[j]| == size
    ensures xs == [] <==> Groups(xs, size) == []
  {
    RunInvariant(xs, size, |xs|);
    assert xs[..|xs|] == xs;
    var gs := Groups(xs, size);
    if gs != [] {
      assert Sized(gs[..|gs| - 1], size);
      forall j | 0 <= j < |gs| - 1 ensures |gs[j]| == size {
        assert gs[..|gs| - 1][j] == gs[j];
      }
    }
  }

  /** The loop only ever adds groups: what it has sent after `i` items
      begins what it sends after `j`. */
  lemma {:induction false} RunGrows<T>(xs: seq<T>, size: nat, i: nat, j: nat)
    requires i <= j <= |xs|
    ensures Run(xs, size, i).0 <= Run(xs, size, j).0
    decreases j - i
  {
    if i < j {
      RunGrows(xs, size, i, j - 1);
    }
  }

  /** The batch size of extend_wikidata.py and of the Wikidata look-up in
      extend_dbpedia.py. */
  const WIKIDATA_BATCH: nat := 50
  /** The batch size of the DBpedia metadata queries. */
  const DBPEDIA_BATCH: nat := 100
}
