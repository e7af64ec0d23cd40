/** The "country" extractor (`Country` in parser/code/entityparsers/country.py):
    the country ("P17") of a record, or failing that the territorial
    entities ("P131") it is located in. */
module CountryParser {
  import opened Common
  import opened Record

  const COUNTRY := "P17"
  const LOCATED_IN := "P131"
  const UNKNOWN := "unknown"

  datatype CountryData = CountryData(id: string, country: string, territories: seq<string>)

  predicate EntityClaim(c: Claim)
  {
    IsEntitySnak(c.mainsnak)
  }

  /** The object ids of the claims whose main snak is entity-valued, in order. */
  function EntityObjects(cs: seq<Claim>): seq<string>
  {
    if cs == [] then []
    else
      var c := cs[|cs| - 1];
      EntityObjects(cs[..|cs| - 1]) + (if IsEntitySnak(c.mainsnak) then [ObjectId(c.mainsnak)] else [])
  }

  /** The country of the first "P17" claim when its main snak is
      entity-valued; "unknown" when there is no claim or it is not. */
  function FirstCountry(cs: seq<Claim>): (r: string)
    ensures cs == [] ==> r == UNKNOWN
    ensures cs != [] && IsEntitySnak(cs[0].mainsnak) ==> r == ObjectId(cs[0].mainsnak)
    ensures cs != [] && !IsEntitySnak(cs[0].mainsnak) ==> r == UNKNOWN
  {
    if cs != [] && IsEntitySnak(cs[0].mainsnak) then ObjectId(cs[0].mainsnak) else UNKNOWN
  }

  /** `Country(e.id).process(e)`: no record makes it raise. */
  function Extract(e: Entity): (r: Result<Option<CountryData>>)
    ensures r.Ok?
    ensures r.value.None? <==>
      e.claims.None? || (Get(e.claims.value, COUNTRY).None? && Get(e.claims.value, LOCATED_IN).None?)
    ensures r.value.Some? ==> r.value.value.id == e.id
  {
    if e.claims.None? then Ok(None)
    else
      match Get(e.claims.value, COUNTRY)
      case Some(cs) => Ok(Some(CountryData(e.id, FirstCountry(cs), [])))
      case None =>
        match Get(e.claims.value, LOCATED_IN)
        case None => Ok(None)
        case Some(ts) => Ok(Some(CountryData(e.id, UNKNOWN, EntityObjects(ts))))
  }

  lemma EntityObjectsSnoc(cs: seq<Claim>, c: Claim)
    ensures EntityObjects(cs + [c]) ==
      EntityObjects(cs) + (if IsEntitySnak(c.mainsnak) then [ObjectId(c.mainsnak)] else [])
  {
    assert (cs + [c])[..|cs|] == cs;
  }

  /** A territory is recorded for each entity-valued claim and for nothing
      else, in claim order: the territories are the entity-valued claims'
      object ids. */
  lemma {:induction false} EntityObjectsMeaning(cs: seq<Claim>)
    ensures |EntityObjects(cs)| == CountIf(cs, EntityClaim)
    ensures forall t :: t in EntityObjects(cs) <==>
      exists c :: c in cs && IsEntitySnak(c.mainsnak) && ObjectId(c.mainsnak) == t
  {
    if cs != [] {
      var init, c := cs[..|cs| - 1], cs[|cs| - 1];
      assert cs == init + [c];
      EntityObjectsMeaning(init);
      forall t
        ensures t in EntityObjects(cs) <==>
          exists d :: d in cs && IsEntitySnak(d.mainsnak) && ObjectId(d.mainsnak) == t
      {
        if exists d :: d in cs && IsEntitySnak(d.mainsnak) && ObjectId(d.mainsnak) == t {
          var d :| d in cs && IsEntitySnak(d.mainsnak) && ObjectId(d.mainsnak) == t;
          if d != c {
            assert d in init;
          }
        }
      }
    }
  }

  /** A country and territories are never both recorded: with a "P17"
      entry the territories stay empty, and without one the country stays
      "unknown". */
  lemma CountryOrTerritories(e: Entity)
    requires Extract(e).value.Some?
    ensures var d := Extract(e).value.value;
      d.country == UNKNOWN || d.territories == []
    ensures var d := Extract(e).value.value;
      d.country != UNKNOWN ==> Get(e.claims.value, COUNTRY).Some?
  {
  }

  /** `Country`: the extractor object the manager builds for one record. */
  class Country {
    var id: string
    var country: string
    var territories: seq<string>

    predicate Initial()
      reads this
    {
      country == UNKNOWN && territories == []
    }

    function Snapshot(): CountryData
      reads this
    {
      CountryData(id, country, territories)
    }

    constructor (id: string)
      ensures this.id == id && Initial()
    {
      this.id := id;
      country := UNKNOWN;
      territories := [];
    }

    /** `process`. The loop over the "P17" claims returns at the end of its
        first turn, so only the first claim is ever read. */
    method Process(data: Entity) returns (r: Result<bool>)
      requires Initial() && id == data.id
      modifies this`country, this`territories
      ensures r == Status(Extract(data))
      ensures r == Ok(true) ==> Snapshot() == Extract(data).value.value
    {
      if data.claims.None? {
        return Ok(false);
      }
      var countryClaims: Option<seq<Claim>> := Get(data.claims.value, COUNTRY);
      var territorialClaims: Option<seq<Claim>> := Get(data.claims.value, LOCATED_IN);
      if countryClaims.None? {
        if territorialClaims.None? {
          return Ok(false);
        }
        AddTerritories(territorialClaims.value);
      } else if |countryClaims.value| > 0 {
        var snak := countryClaims.value[0].mainsnak;
        if ClaimType(snak) == "wikibase-entityid" {
          country := snak.snak.datavalue.id;
        }
      }
      return Ok(true);
    }

    /** The loop over the "P131" claims. */
    method AddTerritories(ts: seq<Claim>)
      requires territories == []
      modifies this`territories
      ensures territories == EntityObjects(ts)
    {
      var i := 0;
      while i < |ts|
        invariant 0 <= i <= |ts|
        invariant territories == EntityObjects(ts[..i])
      {
        var snak := ts[i].mainsnak;
        EntityObjectsSnoc(ts[..i], ts[i]);
        assert ts[..i + 1] == ts[..i] + [ts[i]];
        if ClaimType(snak) == "wikibase-entityid" {
          territories := territories + [snak.snak.datavalue.id];
        }
        i := i + 1;
      }
      assert ts[..i] == ts;
    }
  }
}
