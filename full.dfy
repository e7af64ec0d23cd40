/** The "full" extractor (`FullEnt` in parser/code/entityparsers/full.py):
    claim-type counts, object mentions, and label, description, sitelink
    and badge counts, for every record. */
module FullParser {
  import opened Common
  import opened Record

  /** The seven keys `claim_counts` starts with; a claim of any other
      value type (except "unknown") makes `claim_counts[type] += 1` raise. */
  const BUCKETS: seq<string> := ["wikibase-entityid", "quantity", "string", "time",
                                 "globecoordinate", "monolingualtext", "multilingualtext"]

  datatype FullData = FullData(
    id: string,
    objectMentions: map<string, nat>,
    claimCounts: map<string, nat>,
    sitelinkCount: nat,
    badgesCount: nat,
    badgesUnique: nat,
    descriptionCount: nat,
    labelCount: nat)

  /** Claims whose main snak has a value. */
  function ValueClaims(ps: seq<(string, Claim)>): nat
  {
    if ps == [] then 0
    else ValueClaims(ps[..|ps| - 1]) + (if TypeOf(ps[|ps| - 1]) != "unknown" then 1 else 0)
  }

  /** The object ids of entity-valued main snaks, in loop order. */
  function Mentions(ps: seq<(string, Claim)>): seq<string>
  {
    if ps == [] then []
    else
      var x := ps[|ps| - 1];
      Mentions(ps[..|ps| - 1]) + (if IsEntitySnak(x.1.mainsnak) then [ObjectId(x.1.mainsnak)] else [])
  }

  /** Every value type met has a bucket, so no `claim_counts[...]` raises. */
  predicate AllBucketed(ps: seq<(string, Claim)>)
  {
    forall x :: x in ps ==> TypeOf(x) == "unknown" || TypeOf(x) in BUCKETS
  }

  function BucketCounts(ps: seq<(string, Claim)>): map<string, nat>
  {
    map b | b in BUCKETS :: TypeCount(ps, b)
  }

  /** `object_mentions` after `object_mentions[id] = object_mentions.get(id, 0) + 1`
      for each id in turn. */
  function MentionCounts(ids: seq<string>): map<string, nat>
  {
    if ids == [] then map[]
    else
      var m := MentionCounts(ids[..|ids| - 1]);
      var id := ids[|ids| - 1];
      m[id := (if id in m then m[id] else 0) + 1]
  }

  /** Badges of the sitelinks that have some, in order (`all_badges`). */
  function AllBadges(links: Dict<Sitelink>): seq<string>
  {
    if links == [] then []
    else
      var badges := links[|links| - 1].1.badges;
      AllBadges(links[..|links| - 1]) + (if |badges| > 0 then badges else [])
  }

  function SizeOf<V>(d: Option<Dict<V>>): nat
  {
    if d.Some? then |d.value| else 0
  }

  /** `FullEnt(e.id).process(e)`. */
  function Extract(e: Entity): (r: Result<Option<FullData>>)
    ensures r != Ok(None)
    ensures r.Fail? <==> !AllBucketed(ClaimPairs(e))
  {
    var ps := ClaimPairs(e);
    if !AllBucketed(ps) then Fail(KeyError)
    else
      var badges := if e.sitelinks.Some? then AllBadges(e.sitelinks.value) else [];
      Ok(Some(FullData(
        e.id,
        MentionCounts(Mentions(ps)),
        BucketCounts(ps),
        SizeOf(e.sitelinks),
        |badges|,
        |Elements(badges)|,
        SizeOf(e.descriptions),
        SizeOf(e.labels))))
  }

  /** A fresh record: every bucket and every count is zero. */
  lemma FreshCountsAreZero(id: string)
    ensures var r := Extract(Entity(id, None, None, None, None));
      r.Ok? && r.value.value.claimCounts == (map b | b in BUCKETS :: 0) &&
      r.value.value.objectMentions == map[] &&
      r.value.value.labelCount == 0 && r.value.value.descriptionCount == 0 &&
      r.value.value.sitelinkCount == 0 && r.value.value.badgesCount == 0 &&
      r.value.value.badgesUnique == 0
  {
    var r := Extract(Entity(id, None, None, None, None));
    assert ClaimPairs(Entity(id, None, None, None, None)) == [];
    assert r.value.value.claimCounts == (map b | b in BUCKETS :: 0);
    assert Elements<string>([]) == {};
  }

  lemma ValueClaimsSnoc(ps: seq<(string, Claim)>, x: (string, Claim))
    ensures ValueClaims(ps + [x]) == ValueClaims(ps) + (if TypeOf(x) != "unknown" then 1 else 0)
    ensures Mentions(ps + [x]) == Mentions(ps) + (if IsEntitySnak(x.1.mainsnak) then [ObjectId(x.1.mainsnak)] else [])
  {
    assert (ps + [x])[..|ps|] == ps;
  }

  /** One more claim visited: how `claim_counts` moves. */
  lemma BucketStep(done: seq<(string, Claim)>, x: (string, Claim))
    requires AllBucketed(done) && (TypeOf(x) == "unknown" || TypeOf(x) in BUCKETS)
    ensures AllBucketed(done + [x])
    ensures var m := BucketCounts(done);
      BucketCounts(done + [x]) == if TypeOf(x) in BUCKETS then m[TypeOf(x) := m[TypeOf(x)] + 1] else m
  {
    var m, m' := BucketCounts(done), BucketCounts(done + [x]);
    var t := TypeOf(x);
    var n := if t in BUCKETS then m[t := m[t] + 1] else m;
    forall b | b in BUCKETS
      ensures m'[b] == n[b]
    {
      TypeCountSnoc(done, x, b);
    }
    assert m'.Keys == n.Keys;
  }

  lemma BucketKeys(ps: seq<(string, Claim)>)
    ensures forall t :: t in BucketCounts(ps) <==> t in BUCKETS
  {
  }

  /** One more claim visited: how `object_mentions` moves. */
  lemma MentionStep(done: seq<(string, Claim)>, x: (string, Claim))
    ensures var m := MentionCounts(Mentions(done));
      MentionCounts(Mentions(done + [x])) ==
        if IsEntitySnak(x.1.mainsnak) then
          m[ObjectId(x.1.mainsnak) := (if ObjectId(x.1.mainsnak) in m then m[ObjectId(x.1.mainsnak)] else 0) + 1]
        else m
  {
    ValueClaimsSnoc(done, x);
    if IsEntitySnak(x.1.mainsnak) {
      MentionCountsSnoc(Mentions(done), ObjectId(x.1.mainsnak));
    } else {
      assert Mentions(done + [x]) == Mentions(done) + [];
      assert Mentions(done) + [] == Mentions(done);
    }
  }

  lemma MentionCountsSnoc(ids: seq<string>, id: string)
    ensures var m := MentionCounts(ids);
      MentionCounts(ids + [id]) == m[id := (if id in m then m[id] else 0) + 1]
  {
    assert (ids + [id])[..|ids|] == ids;
  }

  /** Each value-typed claim lands in exactly one bucket. */
  lemma {:induction false} ValueClaimsAreBucketed(ps: seq<(string, Claim)>)
    requires AllBucketed(ps)
    ensures InCount(ps, BUCKETS) == ValueClaims(ps)
  {
    if ps != [] {
      var t := ps[..|ps| - 1];
      assert ps == t + [ps[|ps| - 1]];
      assert ps[|ps| - 1] in ps;
      ValueClaimsAreBucketed(t);
      ValueClaimsSnoc(t, ps[|ps| - 1]);
    }
  }

  /** One mention per entity-valued claim. */
  lemma {:induction false} MentionsMatchEntityBucket(ps: seq<(string, Claim)>)
    ensures |Mentions(ps)| == TypeCount(ps, "wikibase-entityid")
  {
    if ps != [] {
      var t := ps[..|ps| - 1];
      assert ps == t + [ps[|ps| - 1]];
      MentionsMatchEntityBucket(t);
      TypeCountSnoc(t, ps[|ps| - 1], "wikibase-entityid");
      ValueClaimsSnoc(t, ps[|ps| - 1]);
    }
  }

  /** `object_mentions[id]` is the number of times `id` is mentioned, and
      only mentioned ids are keys. */
  lemma {:induction false} MentionCountsMeaning(ids: seq<string>)
    ensures forall x :: x in MentionCounts(ids) <==> x in ids
    ensures forall x :: x in MentionCounts(ids) ==> MentionCounts(ids)[x] == multiset(ids)[x]
  {
    if ids != [] {
      var t := ids[..|ids| - 1];
      assert ids == t + [ids[|ids| - 1]];
      MentionCountsMeaning(t);
    }
  }

  /** The seven buckets are the only keys, and they add up to the number of
      claims that have a value. */
  lemma FullBucketTotal(e: Entity)
    requires Extract(e).Ok?
    ensures var d := Extract(e).value.value;
      && d.claimCounts.Keys == Elements(BUCKETS)
      && SumOver(d.claimCounts, BUCKETS) == ValueClaims(ClaimPairs(e))
  {
    var ps := ClaimPairs(e);
    var d := Extract(e).value.value;
    SumOverCounts(d.claimCounts, ps, BUCKETS);
    SumCountsIsInCount(ps, BUCKETS);
    ValueClaimsAreBucketed(ps);
  }

  /** `object_mentions[id]` is the number of entity-valued main snaks
      pointing at `id`, and these numbers add up (as a multiset) to the
      "wikibase-entityid" bucket. */
  lemma FullMentionTotal(e: Entity)
    requires Extract(e).Ok?
    ensures var d := Extract(e).value.value;
      var ms := multiset(Mentions(ClaimPairs(e)));
      && (forall x :: x in d.objectMentions <==> x in ms)
      && (forall x :: x in d.objectMentions ==> d.objectMentions[x] == ms[x])
      && |ms| == d.claimCounts["wikibase-entityid"]
  {
    var ps := ClaimPairs(e);
    MentionsMatchEntityBucket(ps);
    MentionCountsMeaning(Mentions(ps));
  }

  /** The distinct badges never outnumber the badges. */
  lemma FullBadgeBound(e: Entity)
    requires Extract(e).Ok?
    ensures Extract(e).value.value.badgesUnique <= Extract(e).value.value.badgesCount
  {
    var badges := if e.sitelinks.Some? then AllBadges(e.sitelinks.value) else [];
    ElementsBound(badges);
  }

  /** `FullEnt`: the extractor object the manager builds for one record. */
  class FullEnt {
    var id: string
    var objectMentions: map<string, nat>
    var claimCounts: map<string, nat>
    var sitelinkCount: nat
    var badgesCount: nat
    var badgesUnique: nat
    var descriptionCount: nat
    var labelCount: nat

    /** The state `__init__` leaves. */
    predicate Initial()
      reads this
    {
      && objectMentions == map[] && claimCounts == BucketCounts([])
      && sitelinkCount == 0 && badgesCount == 0 && badgesUnique == 0
      && descriptionCount == 0 && labelCount == 0
    }

    function Snapshot(): FullData
      reads this
    {
      FullData(id, objectMentions, claimCounts, sitelinkCount, badgesCount, badgesUnique,
               descriptionCount, labelCount)
    }

    constructor (id: string)
      ensures this.id == id && Initial()
    {
      this.id := id;
      objectMentions := map[];
      claimCounts := map b | b in BUCKETS :: 0;
      sitelinkCount, badgesCount, badgesUnique := 0, 0, 0;
      descriptionCount, labelCount := 0, 0;
    }

    /** `process`: never rejects a record; it raises only on an unbucketed claim type. */
    method Process(data: Entity) returns (r: Result<bool>)
      requires Initial() && id == data.id
      modifies this
      ensures r == Status(Extract(data))
      ensures r.Ok? ==> Snapshot() == Extract(data).value.value
    {
      if data.claims.Some? {
        var ok := ProcessClaims(data.claims.value);
        if !ok {
          assert !AllBucketed(ClaimPairs(data));
          return Fail(KeyError);
        }
      }
      if data.descriptions.Some? {
        ProcessDescriptions(data.descriptions.value);
      }
      if data.labels.Some? {
        ProcessLabels(data.labels.value);
      }
      if data.sitelinks.Some? {
        ProcessSitelinks(data.sitelinks.value);
      }
      return Ok(true);
    }

    /** The state after the claims `ps` were visited without raising. */
    predicate Counted(ps: seq<(string, Claim)>)
      reads this
    {
      AllBucketed(ps) && claimCounts == BucketCounts(ps) && objectMentions == MentionCounts(Mentions(ps))
    }

    /** `process_claims`: one bucket increment per claim with a value, one
        mention per entity-valued claim; `ok` is false where Python raises. */
    method ProcessClaims(claims: Dict<seq<Claim>>) returns (ok: bool)
      requires Counted([])
      modifies this`claimCounts, this`objectMentions
      ensures ok <==> AllBucketed(Flatten(claims))
      ensures ok ==> Counted(Flatten(claims))
    {
      var i := 0;
      while i < |claims|
        invariant 0 <= i <= |claims|
        invariant Counted(Flatten(claims[..i]))
      {
        ok := ProcessStatements(claims, i);
        if !ok {
          return;
        }
        i := i + 1;
      }
      FlattenAll(claims);
      return true;
    }

    /** The inner loop of `process_claims`, over the claims of the `i`-th predicate. */
    method ProcessStatements(claims: Dict<seq<Claim>>, i: nat) returns (ok: bool)
      requires i < |claims| && Counted(Flatten(claims[..i]))
      modifies this`claimCounts, this`objectMentions
      ensures !ok ==> !AllBucketed(Flatten(claims))
      ensures ok ==> Counted(Flatten(claims[..i + 1]))
    {
      var statements := claims[i].1;
      var j := 0;
      VisitedStart(claims, i);
      ghost var done := Flatten(claims[..i]);
      while j < |statements|
        invariant 0 <= j <= |statements|
        invariant done == Visited(claims, i, j)
        invariant Counted(done)
      {
        VisitedNext(claims, i, j);
        var x := (claims[i].0, statements[j]);
        var counted := VisitClaim(done, x);
        if !counted {
          InFlatten(claims, i, j);
          return false;
        }
        done := done + [x];
        j := j + 1;
      }
      VisitedEnd(claims, i);
      return true;
    }

    /** The body of `process_claims`' inner loop for one claim `x`, after the
        claims `done`; false where `claim_counts[claim_type] += 1` raises. */
    method VisitClaim(ghost done: seq<(string, Claim)>, x: (string, Claim)) returns (ok: bool)
      requires Counted(done)
      modifies this`claimCounts, this`objectMentions
      ensures !ok ==> TypeOf(x) != "unknown" && TypeOf(x) !in BUCKETS
      ensures ok ==> Counted(done + [x])
    {
      BucketKeys(done);
      ok := CountClaim(x);
      if ok {
        BucketStep(done, x);
        MentionStep(done, x);
      }
    }

    /** The updates `process_claims` makes for one claim `x`. */
    method CountClaim(x: (string, Claim)) returns (ok: bool)
      requires forall t :: t in claimCounts <==> t in BUCKETS
      modifies this`claimCounts, this`objectMentions
      ensures !ok ==> TypeOf(x) != "unknown" && TypeOf(x) !in BUCKETS
      ensures ok ==> TypeOf(x) == "unknown" || TypeOf(x) in BUCKETS
      ensures ok ==> var m, t := old(claimCounts), TypeOf(x);
        claimCounts == if t in BUCKETS then m[t := m[t] + 1] else m
      ensures ok ==> var m, s := old(objectMentions), x.1.mainsnak;
        objectMentions == if IsEntitySnak(s) then m[ObjectId(s) := (if ObjectId(s) in m then m[ObjectId(s)] else 0) + 1] else m
    {
      var snak := x.1.mainsnak;
      var claimType := ClaimType(snak);
      if claimType != "unknown" {
        if claimType !in claimCounts {
          return false;
        }
        claimCounts := claimCounts[claimType := claimCounts[claimType] + 1];
      }
      if claimType == "wikibase-entityid" {
        var objId := snak.snak.datavalue.id;
        objectMentions := objectMentions[objId := (if objId in objectMentions then objectMentions[objId] else 0) + 1];
      }
      return true;
    }

    method ProcessDescriptions(descriptions: Dict<Term>)
      modifies this`descriptionCount
      ensures descriptionCount == |descriptions|
    {
      descriptionCount := |descriptions|;
    }

    method ProcessLabels(labels: Dict<Term>)
      modifies this`labelCount
      ensures labelCount == |labels|
    {
      labelCount := |labels|;
    }

    /** `process_sitelinks`: the link count, all badges, and the distinct badges. */
    method ProcessSitelinks(sitelinks: Dict<Sitelink>)
      modifies this`sitelinkCount, this`badgesCount, this`badgesUnique
      ensures sitelinkCount == |sitelinks|
      ensures badgesCount == |AllBadges(sitelinks)|
      ensures badgesUnique == |Elements(AllBadges(sitelinks))|
    {
      sitelinkCount := |sitelinks|;
      var allBadges := AllBadges(sitelinks);
      badgesCount := |allBadges|;
      badgesUnique := |Elements(allBadges)|;
    }
  }
}
