/** The "human" extractor (`Human` in parser/code/entityparsers/human.py):
    for records that are instances of human, claim-type counts and the
    object ids of every predicate. */
module HumanParser {
  import opened Common
  import opened Record

  /** The eight keys `claim_counts` starts with; "unknown" is one of them here. */
  const BUCKETS: seq<string> := ["wikibase-entityid", "quantity", "string", "time",
                                 "globecoordinate", "monolingualtext", "multilingualtext", "unknown"]

  datatype HumanData = HumanData(
    id: string,
    tracking: map<string, seq<string>>,
    claimCounts: map<string, nat>,
    languages: seq<string>)

  /** Every claim's type has a bucket, so no `claim_counts[...] += 1` raises. */
  predicate AllBucketed(ps: seq<(string, Claim)>)
  {
    forall x :: x in ps ==> TypeOf(x) in BUCKETS
  }

  function BucketCounts(ps: seq<(string, Claim)>): map<string, nat>
  {
    map b | b in BUCKETS :: TypeCount(ps, b)
  }

  /** (predicate, object id) for each entity-valued claim, in loop order. */
  function EntityPairs(ps: seq<(string, Claim)>): seq<(string, string)>
  {
    if ps == [] then []
    else
      var x := ps[|ps| - 1];
      EntityPairs(ps[..|ps| - 1]) + (if IsEntitySnak(x.1.mainsnak) then [(x.0, ObjectId(x.1.mainsnak))] else [])
  }

  /** `Human(e.id).process(e)`. */
  function Extract(e: Entity): (r: Result<Option<HumanData>>)
    ensures e.claims.None? ==> r == Ok(None)
    ensures IsHuman(e) == Ok(false) ==> r == Ok(None)
    ensures IsHuman(e).Fail? ==> r == Fail(IsHuman(e).error)
    ensures IsHuman(e) == Ok(true) ==> (r.Fail? <==> !AllBucketed(ClaimPairs(e)))
  {
    match IsHuman(e)
    case Fail(err) => Fail(err)
    case Ok(human) =>
      if !human then Ok(None)
      else
        var ps := ClaimPairs(e);
        if !AllBucketed(ps) then Fail(KeyError)
        else Ok(Some(HumanData(e.id, GroupBy(EntityPairs(ps)), BucketCounts(ps), LabelKeys(e))))
  }

  lemma EntityPairsSnoc(ps: seq<(string, Claim)>, x: (string, Claim))
    ensures EntityPairs(ps + [x]) ==
      EntityPairs(ps) + (if IsEntitySnak(x.1.mainsnak) then [(x.0, ObjectId(x.1.mainsnak))] else [])
  {
    assert (ps + [x])[..|ps|] == ps;
  }

  /** The entity ids of the claims of predicate `pred`, in loop order. */
  function ObjectsOf(ps: seq<(string, Claim)>, pred: string): seq<string>
  {
    if ps == [] then []
    else
      var x := ps[|ps| - 1];
      ObjectsOf(ps[..|ps| - 1], pred) +
        (if x.0 == pred && IsEntitySnak(x.1.mainsnak) then [ObjectId(x.1.mainsnak)] else [])
  }

  lemma {:induction false} ObjectsOfPairs(ps: seq<(string, Claim)>, pred: string)
    ensures ValuesFor(EntityPairs(ps), pred) == ObjectsOf(ps, pred)
  {
    if ps != [] {
      var t := ps[..|ps| - 1];
      ObjectsOfPairs(t, pred);
      var ep := EntityPairs(ps);
      if IsEntitySnak(ps[|ps| - 1].1.mainsnak) {
        assert ep[..|ep| - 1] == EntityPairs(t);
      } else {
        assert ep == EntityPairs(t);
      }
    }
  }

  /** On a match: the eight buckets sum to the number of claims, a predicate
      is tracked exactly when it has an entity-valued claim, and then its
      list is those claims' object ids in order; `languages` is the label
      keys. */
  lemma HumanExtractProperties(e: Entity)
    requires Extract(e).Ok? && Extract(e).value.Some?
    ensures var d := Extract(e).value.value;
      var ps := ClaimPairs(e);
      && d.claimCounts.Keys == Elements(BUCKETS)
      && SumOver(d.claimCounts, BUCKETS) == |ps|
      && (forall p :: p in d.tracking <==> ObjectsOf(ps, p) != [])
      && (forall p :: p in d.tracking ==> d.tracking[p] == ObjectsOf(ps, p))
      && d.languages == LabelKeys(e)
  {
    var ps := ClaimPairs(e);
    assert IsHuman(e) == Ok(true) && AllBucketed(ps);
    assert Extract(e).value.value == HumanData(e.id, GroupBy(EntityPairs(ps)), BucketCounts(ps), LabelKeys(e));
    CountsCover(ps);
    TrackingMeaning(ps);
  }

  /** The buckets of a record whose every claim has one sum to its number of claims. */
  lemma CountsCover(ps: seq<(string, Claim)>)
    requires AllBucketed(ps)
    ensures BucketCounts(ps).Keys == Elements(BUCKETS)
    ensures SumOver(BucketCounts(ps), BUCKETS) == |ps|
  {
    SumOverCounts(BucketCounts(ps), ps, BUCKETS);
    SumCountsIsInCount(ps, BUCKETS);
    InCountAll(ps, BUCKETS);
  }

  /** The tracked predicates and their object ids. */
  lemma TrackingMeaning(ps: seq<(string, Claim)>)
    ensures forall p :: p in GroupBy(EntityPairs(ps)) <==> ObjectsOf(ps, p) != []
    ensures forall p :: p in GroupBy(EntityPairs(ps)) ==> GroupBy(EntityPairs(ps))[p] == ObjectsOf(ps, p)
  {
    GroupByMeaning(EntityPairs(ps));
    forall p { ObjectsOfPairs(ps, p); }
  }

  /** `Human`: the extractor object the manager builds for one record. */
  class Human {
    var id: string
    var tracking: map<string, seq<string>>
    var claimCounts: map<string, nat>
    var languages: seq<string>

    /** The state `__init__` leaves. */
    predicate Initial()
      reads this
    {
      tracking == map[] && claimCounts == BucketCounts([]) && languages == []
    }

    function Snapshot(): HumanData
      reads this
    {
      HumanData(id, tracking, claimCounts, languages)
    }

    constructor (id: string)
      ensures this.id == id && Initial()
    {
      this.id := id;
      tracking := map[];
      claimCounts := map b | b in BUCKETS :: 0;
      languages := [];
    }

    /** `process`: the label keys are stored before any check; a record
        without claims or not an instance of human is rejected. */
    method Process(data: Entity) returns (r: Result<bool>)
      requires Initial() && id == data.id
      modifies this
      ensures r == Status(Extract(data))
      ensures languages == LabelKeys(data)
      ensures r == Ok(true) ==> Snapshot() == Extract(data).value.value
    {
      languages := LabelKeys(data);
      if data.claims.None? {
        return Ok(false);
      }
      var human := HasObject(data.claims.value, INSTANCE_OF, HUMAN);
      if human.Fail? {
        return Fail(human.error);
      }
      if !human.value {
        return Ok(false);
      }
      var ok := ProcessClaims(data.claims.value);
      if !ok {
        assert !AllBucketed(ClaimPairs(data));
        return Fail(KeyError);
      }
      return Ok(true);
    }

    /** The state after the claims `ps` were visited without raising. */
    predicate Counted(ps: seq<(string, Claim)>)
      reads this
    {
      AllBucketed(ps) && claimCounts == BucketCounts(ps) && tracking == GroupBy(EntityPairs(ps))
    }

    /** The claim loop of `process`; false where `claim_counts[...]` raises. */
    method ProcessClaims(claims: Dict<seq<Claim>>) returns (ok: bool)
      requires Counted([])
      modifies this`claimCounts, this`tracking
      ensures ok <==> AllBucketed(Flatten(claims))
      ensures ok ==> Counted(Flatten(claims))
    {
      var i := 0;
      while i < |claims|
        invariant 0 <= i <= |claims|
        invariant Counted(Flatten(claims[..i]))
      {
        ok := ProcessStatements(claims, i);
        if !ok {
          return;
        }
        i := i + 1;
      }
      FlattenAll(claims);
      return true;
    }

    /** The inner loop of `process`, over the claims of the `i`-th predicate. */
    method ProcessStatements(claims: Dict<seq<Claim>>, i: nat) returns (ok: bool)
      requires i < |claims| && Counted(Flatten(claims[..i]))
      modifies this`claimCounts, this`tracking
      ensures !ok ==> !AllBucketed(Flatten(claims))
      ensures ok ==> Counted(Flatten(claims[..i + 1]))
    {
      var statements := claims[i].1;
      var j := 0;
      VisitedStart(claims, i);
      while j < |statements|
        invariant 0 <= j <= |statements|
        invariant Counted(Visited(claims, i, j))
      {
        VisitedNext(claims, i, j);
        var counted := CountClaim(Visited(claims, i, j), (claims[i].0, statements[j]));
        if !counted {
          InFlatten(claims, i, j);
          return false;
        }
        j := j + 1;
      }
      VisitedEnd(claims, i);
      return true;
    }

    /** The body of the inner loop for claim `x` of predicate `x.0`. */
    method CountClaim(ghost done: seq<(string, Claim)>, x: (string, Claim)) returns (ok: bool)
      requires Counted(done)
      modifies this`claimCounts, this`tracking
      ensures !ok ==> TypeOf(x) !in BUCKETS
      ensures ok ==> Counted(done + [x])
    {
      var snak := x.1.mainsnak;
      var claimType := ClaimType(snak);
      if claimType !in claimCounts {
        return false;
      }
      BucketStep(done, x);
      TrackStep(done, x);
      claimCounts := Bump(claimCounts, claimType);
      if claimType == "wikibase-entityid" {
        var statement, objId := x.0, snak.snak.datavalue.id;
        assert IsEntitySnak(x.1.mainsnak) && objId == ObjectId(x.1.mainsnak);
        var track := if statement in tracking then tracking[statement] else [];
        track := track + [objId];
        tracking := tracking[statement := track];
      } else {
        assert !IsEntitySnak(x.1.mainsnak);
      }
      assert tracking == GroupBy(EntityPairs(done + [x]));
      assert AllBucketed(done + [x]);
      return true;
    }
  }

  /** One more claim visited: how `tracking` moves. */
  lemma TrackStep(done: seq<(string, Claim)>, x: (string, Claim))
    ensures var m := GroupBy(EntityPairs(done));
      GroupBy(EntityPairs(done + [x])) ==
        if IsEntitySnak(x.1.mainsnak) then m[x.0 := (if x.0 in m then m[x.0] else []) + [ObjectId(x.1.mainsnak)]]
        else m
  {
    EntityPairsSnoc(done, x);
    if IsEntitySnak(x.1.mainsnak) {
      var xs := EntityPairs(done);
      assert EntityPairs(done + [x]) == xs + [(x.0, ObjectId(x.1.mainsnak))];
      GroupBySnoc(xs, x.0, ObjectId(x.1.mainsnak));
    } else {
      assert EntityPairs(done + [x]) == EntityPairs(done) + [];
      assert EntityPairs(done) + [] == EntityPairs(done);
    }
  }

  /** `claim_counts[t] += 1`. */
  function Bump(m: map<string, nat>, t: string): (r: map<string, nat>)
    requires t in m
    ensures r.Keys == m.Keys && r[t] == m[t] + 1
    ensures forall k :: k in m && k != t ==> r[k] == m[k]
  {
    m[t := m[t] + 1]
  }

  /** One more claim visited: how `claim_counts` moves. */
  lemma BucketStep(done: seq<(string, Claim)>, x: (string, Claim))
    requires AllBucketed(done) && TypeOf(x) in BUCKETS
    ensures BucketCounts(done).Keys == Elements(BUCKETS)
    ensures AllBucketed(done + [x])
    ensures BucketCounts(done + [x]) == Bump(BucketCounts(done), TypeOf(x))
  {
    var m, m' := BucketCounts(done), BucketCounts(done + [x]);
    var n := Bump(m, TypeOf(x));
    forall b | b in BUCKETS
      ensures m'[b] == n[b]
    {
      TypeCountSnoc(done, x, b);
    }
    assert m'.Keys == n.Keys;
  }
}
