/** The "women" extractor (`Women` in parser/code/entityparsers/women.py):
    for records of female humans, the object ids of 25 chosen predicates. */
module WomenParser {
  import opened Common
  import opened Record
  import HumanParser

  /** The keys `track` starts with, each with an empty list. */
  const TRACKED: seq<string> := [
    "P6", "P17", "P26", "P27", "P31",
    "P39", "P54", "P69", "P102", "P106",
    "P108", "P131", "P150", "P166",
    "P190", "P463", "P512", "P551",
    "P579", "P793", "P1346", "P1376",
    "P1411", "P1435", "P2962"]

  datatype WomenData = WomenData(id: string, track: map<string, seq<string>>)

  /** The entity ids of the claims of predicate `pred`, in loop order. */
  function ObjectsOf(ps: seq<(string, Claim)>, pred: string): seq<string>
  {
    HumanParser.ObjectsOf(ps, pred)
  }

  /** `track` after the claims `ps` were visited, with `keys` the
      predicates it starts with: every key maps to its claims' object ids,
      even when it has none. */
  function Track(ps: seq<(string, Claim)>, keys: seq<string>): (m: map<string, seq<string>>)
    ensures m.Keys == Elements(keys)
  {
    map p | p in keys :: ObjectsOf(ps, p)
  }

  /** `Women(e.id).process(e)`: the record must have claims, be an instance
      of human ("P31" contains "Q5") and have sex or gender female ("P21"
      contains "Q6581072"); a claim read by either test that holds a
      non-entity value makes it raise. */
  function Extract(e: Entity): (r: Result<Option<WomenData>>)
    ensures e.claims.None? ==> r == Ok(None)
    ensures IsHuman(e).Fail? ==> r == Fail(IsHuman(e).error)
    ensures IsHuman(e) == Ok(false) ==> r == Ok(None)
    ensures IsHuman(e) == Ok(true) && HasObject(e.claims.value, SEX_OR_GENDER, FEMALE).Fail? ==>
      r == Fail(HasObject(e.claims.value, SEX_OR_GENDER, FEMALE).error)
    ensures IsHuman(e) == Ok(true) && HasObject(e.claims.value, SEX_OR_GENDER, FEMALE) == Ok(false) ==>
      r == Ok(None)
    ensures IsHuman(e) == Ok(true) && HasObject(e.claims.value, SEX_OR_GENDER, FEMALE) == Ok(true) ==>
      r.Ok? && r.value.Some? && r.value.value.id == e.id
  {
    match IsHuman(e)
    case Fail(err) => Fail(err)
    case Ok(human) =>
      if !human then Ok(None)
      else match HasObject(e.claims.value, SEX_OR_GENDER, FEMALE)
        case Fail(err) => Fail(err)
        case Ok(female) => if !female then Ok(None) else Ok(Some(WomenData(e.id, Track(ClaimPairs(e), TRACKED))))
  }

  /** A record is kept only when both tests succeed. */
  lemma WomenAreHuman(e: Entity)
    ensures Extract(e).Ok? && Extract(e).value.Some? <==>
      e.claims.Some? && IsHuman(e) == Ok(true) && HasObject(e.claims.value, SEX_OR_GENDER, FEMALE) == Ok(true)
  {
  }

  lemma ObjectsOfSnoc(ps: seq<(string, Claim)>, x: (string, Claim), pred: string)
    ensures ObjectsOf(ps + [x], pred) ==
      ObjectsOf(ps, pred) + (if x.0 == pred && IsEntitySnak(x.1.mainsnak) then [ObjectId(x.1.mainsnak)] else [])
  {
    assert (ps + [x])[..|ps|] == ps;
  }

  /** An id is tracked under `pred` exactly when some claim of `pred` has
      an entity-valued main snak pointing at it. */
  lemma {:induction false} ObjectsOfMeaning(ps: seq<(string, Claim)>, pred: string, id: string)
    ensures id in ObjectsOf(ps, pred) <==>
      exists x :: x in ps && x.0 == pred && IsEntitySnak(x.1.mainsnak) && ObjectId(x.1.mainsnak) == id
  {
    if ps != [] {
      var init, x := ps[..|ps| - 1], ps[|ps| - 1];
      assert ps == init + [x];
      ObjectsOfMeaning(init, pred, id);
      ObjectsOfSnoc(init, x, pred);
      if exists y :: y in ps && y.0 == pred && IsEntitySnak(y.1.mainsnak) && ObjectId(y.1.mainsnak) == id {
        var y :| y in ps && y.0 == pred && IsEntitySnak(y.1.mainsnak) && ObjectId(y.1.mainsnak) == id;
        if y != x {
          assert y in init;
        }
      }
    }
  }

  /** Claims of an untracked predicate leave every tracked list unchanged. */
  lemma {:induction false} ObjectsOfOther(ps: seq<(string, Claim)>, key: string, cs: seq<Claim>, pred: string)
    requires key != pred
    ensures ObjectsOf(ps + Tag(key, cs), pred) == ObjectsOf(ps, pred)
  {
    if cs == [] {
      assert ps + Tag(key, cs) == ps;
    } else {
      var init := cs[..|cs| - 1];
      assert Tag(key, cs) == Tag(key, init) + [(key, cs[|cs| - 1])];
      assert ps + Tag(key, cs) == (ps + Tag(key, init)) + [(key, cs[|cs| - 1])];
      ObjectsOfOther(ps, key, init, pred);
      ObjectsOfSnoc(ps + Tag(key, init), (key, cs[|cs| - 1]), pred);
    }
  }

  lemma TrackUntracked(ps: seq<(string, Claim)>, keys: seq<string>, key: string, cs: seq<Claim>)
    requires key !in keys
    ensures Track(ps + Tag(key, cs), keys) == Track(ps, keys)
  {
    forall p | p in keys
      ensures ObjectsOf(ps + Tag(key, cs), p) == ObjectsOf(ps, p)
    {
      ObjectsOfOther(ps, key, cs, p);
    }
  }

  /** One more claim of a tracked predicate visited. */
  lemma TrackSnoc(ps: seq<(string, Claim)>, keys: seq<string>, x: (string, Claim))
    requires x.0 in keys
    ensures var m := Track(ps, keys);
      Track(ps + [x], keys) ==
        if IsEntitySnak(x.1.mainsnak) then m[x.0 := m[x.0] + [ObjectId(x.1.mainsnak)]] else m
  {
    var m, m' := Track(ps, keys), Track(ps + [x], keys);
    var id := if IsEntitySnak(x.1.mainsnak) then [ObjectId(x.1.mainsnak)] else [];
    forall p | p in keys
      ensures m'[p] == if p == x.0 then m[p] + id else m[p]
    {
      ObjectsOfSnoc(ps, x, p);
      assert m[p] + [] == m[p];
    }
    if id == [] {
      assert m[x.0] + [] == m[x.0];
      assert m' == m;
    } else {
      assert m' == m[x.0 := m[x.0] + id];
    }
  }

  /** On a match: every tracked predicate has a list, holding the object
      ids of its entity-valued claims in order, and an id is listed under
      a predicate exactly when such a claim points at it. */
  lemma WomenExtractProperties(e: Entity, d: WomenData, pred: string, id: string)
    requires Extract(e) == Ok(Some(d))
    ensures d.id == e.id
    ensures d.track.Keys == Elements(TRACKED)
    ensures pred in d.track ==> d.track[pred] == ObjectsOf(ClaimPairs(e), pred)
    ensures pred in d.track ==> (id in d.track[pred] <==>
      exists x :: x in ClaimPairs(e) && x.0 == pred && IsEntitySnak(x.1.mainsnak) && ObjectId(x.1.mainsnak) == id)
  {
    ObjectsOfMeaning(ClaimPairs(e), pred, id);
  }

  /** `Women`: the extractor object the manager builds for one record. */
  class Women {
    var id: string
    var track: map<string, seq<string>>

    function Snapshot(): WomenData
      reads this
    {
      WomenData(id, track)
    }

    constructor (id: string)
      ensures this.id == id && track == Track([], TRACKED)
    {
      this.id := id;
      track := map p | p in TRACKED :: [];
    }

    /** `process`. */
    method Process(data: Entity) returns (r: Result<bool>)
      requires track == Track([], TRACKED) && id == data.id
      modifies this`track
      ensures r == Status(Extract(data))
      ensures r == Ok(true) ==> Snapshot() == Extract(data).value.value
    {
      if data.claims.None? {
        return Ok(false);
      }
      var human := HasObject(data.claims.value, INSTANCE_OF, HUMAN);
      if human.Fail? {
        return Fail(human.error);
      }
      if !human.value {
        return Ok(false);
      }
      var female := HasObject(data.claims.value, SEX_OR_GENDER, FEMALE);
      if female.Fail? {
        return Fail(female.error);
      }
      if !female.value {
        return Ok(false);
      }
      ProcessClaims(data.claims.value, TRACKED);
      return Ok(true);
    }

    /** The outer loop of `process`; predicates outside `track` are skipped. */
    method ProcessClaims(claims: Dict<seq<Claim>>, ghost keys: seq<string>)
      requires track == Track([], keys)
      modifies this`track
      ensures track == Track(Flatten(claims), keys)
    {
      var i := 0;
      while i < |claims|
        invariant 0 <= i <= |claims|
        invariant track == Track(Flatten(claims[..i]), keys)
      {
        var statement := claims[i].0;
        assert Flatten(claims[..i + 1]) == Flatten(claims[..i]) + Tag(statement, claims[i].1) by {
          assert claims[..i + 1][..i] == claims[..i];
        }
        if statement in track {
          ProcessStatements(claims, i, keys);
        } else {
          TrackUntracked(Flatten(claims[..i]), keys, statement, claims[i].1);
        }
        i := i + 1;
      }
      FlattenAll(claims);
    }

    /** The inner loop of `process`, over the claims of the `i`-th predicate. */
    method ProcessStatements(claims: Dict<seq<Claim>>, i: nat, ghost keys: seq<string>)
      requires i < |claims| && claims[i].0 in keys
      requires track == Track(Flatten(claims[..i]), keys)
      modifies this`track
      ensures track == Track(Flatten(claims[..i + 1]), keys)
    {
      var statement := claims[i].0;
      var j := 0;
      VisitedStart(claims, i);
      while j < |claims[i].1|
        invariant 0 <= j <= |claims[i].1|
        invariant track == Track(Visited(claims, i, j), keys)
      {
        var snak := claims[i].1[j].mainsnak;
        VisitedNext(claims, i, j);
        TrackSnoc(Visited(claims, i, j), keys, (statement, claims[i].1[j]));
        var claimType := ClaimType(snak);
        if claimType == "wikibase-entityid" && snak.snak.Value? {
          track := track[statement := track[statement] + [snak.snak.datavalue.id]];
        }
        j := j + 1;
      }
      VisitedEnd(claims, i);
    }
  }
}
