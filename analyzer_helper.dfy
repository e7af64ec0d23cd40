/** The shared helpers of analyzer/code/helper.py: the gender partition of
    a set of entities, reading the first claim of a predicate, filtering a
    `wbgetentities` response down to humans, the rows of humans.txt,
    `get_labels` and `order_dict`.

    Dictionaries are ordered association lists (`Record.Dict`), looked up
    with `Record.Get` and assigned with `Record.Put`. */
module AnalyzerHelper {
  import opened Common
  import opened Record

  // ---------------------------------------------------------------------
  // get_gender_balance

  /** `get_gender_balance`: the entities of `allEnts` whose gender is male,
      and those whose gender is female. */
  function GenderBalance(allEnts: set<string>, genders: Dict<string>): (r: (set<string>, set<string>))
    ensures r.0 <= allEnts && r.1 <= allEnts
    ensures forall k :: k in allEnts ==> (k in r.0 <==> Get(genders, k) == Some(MALE))
    ensures forall k :: k in allEnts ==> (k in r.1 <==> Get(genders, k) == Some(FEMALE))
  {
    (set k | k in allEnts && Get(genders, k) == Some(MALE),
     set k | k in allEnts && Get(genders, k) == Some(FEMALE))
  }

  /** Nobody is counted as both, so the two counts never add up to more
      than the entities examined. */
  lemma BalanceDisjoint(allEnts: set<string>, genders: Dict<string>)
    ensures GenderBalance(allEnts, genders).0 !! GenderBalance(allEnts, genders).1
    ensures |GenderBalance(allEnts, genders).0| + |GenderBalance(allEnts, genders).1| <= |allEnts|
  {
    var (men, women) := GenderBalance(allEnts, genders);
    assert men !! women;
    assert |men + women| == |men| + |women|;
    SubsetCard(men + women, allEnts);
  }

  lemma {:induction false} SubsetCard<T>(a: set<T>, b: set<T>)
    requires a <= b
    ensures |a| <= |b|
    decreases |a|
  {
    if a != {} {
      var x :| x in a;
      SubsetCard(a - {x}, b - {x});
    }
  }

  // ---------------------------------------------------------------------
  // read_wd_claim

  /** `read_wd_claim`: the id held by the first claim of a predicate. An
      empty claim list has no first element (IndexError), and a value that
      is not an entity has no "id" (`Record.ValueId`). */
  function ReadClaim(predClaims: Option<seq<Claim>>): (r: Result<Option<string>>)
    ensures predClaims.None? ==> r == Ok(None)
    ensures predClaims == Some([]) ==> r == Fail(IndexError)
    ensures r.Ok? && r.value.Some? <==>
      predClaims.Some? && predClaims.value != [] && IsEntitySnak(predClaims.value[0].mainsnak)
    ensures r.Ok? && r.value.Some? ==> r.value.value == ObjectId(predClaims.value[0].mainsnak)
    ensures r.Fail? && predClaims != Some([]) ==>
      predClaims.Some? && predClaims.value != [] && predClaims.value[0].mainsnak.snak.Value? &&
      r == Fail(ValueId(predClaims.value[0].mainsnak.snak.datavalue).error)
  {
    match predClaims
    case None => Ok(None)
    case Some(cs) =>
      if cs == [] then Fail(IndexError)
      else if !cs[0].mainsnak.snak.Value? then Ok(None)
      else match ValueId(cs[0].mainsnak.snak.datavalue)
        case Fail(e) => Fail(e)
        case Ok(id) => Ok(Some(id))
  }

  /** Only the first claim is read: what follows it makes no difference. */
  lemma ReadClaimFirst(cs: seq<Claim>, others: seq<Claim>)
    requires cs != []
    ensures ReadClaim(Some(cs)) == ReadClaim(Some([cs[0]] + others))
  {
  }

  // ---------------------------------------------------------------------
  // The response filter of call_wikidata_api

  /** What `call_wikidata_api` records for one predicate of a kept entity:
      the first claim's id, or "unknown" when there is none. */
  function Answer(claims: Dict<seq<Claim>>, pred: string): (r: Result<string>)
    ensures r.Ok? <==> ReadClaim(Get(claims, pred)).Ok?
    ensures r.Ok? ==> r.value == (if ReadClaim(Get(claims, pred)).value.Some?
                                  then ReadClaim(Get(claims, pred)).value.value else "unknown")
  {
    match ReadClaim(Get(claims, pred))
    case Fail(e) => Fail(e)
    case Ok(None) => Ok("unknown")
    case Ok(Some(id)) => Ok(id)
  }

  /** The dictionary `entity_data[id]` after the loop over `predicates`. */
  function Row(claims: Dict<seq<Claim>>, preds: seq<string>): Result<Dict<string>>
  {
    if preds == [] then Ok([])
    else match Row(claims, preds[..|preds| - 1])
      case Fail(e) => Fail(e)
      case Ok(row) =>
        var pred := preds[|preds| - 1];
        match Answer(claims, pred)
        case Fail(e) => Fail(e)
        case Ok(a) => Ok(Put(row, pred, a))
  }

  /** A row is built unless some requested predicate raises; it holds
      exactly the requested predicates, each with its answer. */
  lemma {:induction false} RowMeaning(claims: Dict<seq<Claim>>, preds: seq<string>)
    ensures Row(claims, preds).Ok? <==> forall p :: p in preds ==> Answer(claims, p).Ok?
    ensures Row(claims, preds).Ok? ==>
      forall p :: p in preds ==> Get(Row(claims, preds).value, p) == Some(Answer(claims, p).value)
    ensures Row(claims, preds).Ok? ==>
      forall k :: Get(Row(claims, preds).value, k).Some? ==> k in preds
  {
    if preds != [] {
      var init, pred := preds[..|preds| - 1], preds[|preds| - 1];
      assert preds == init + [pred];
      RowMeaning(claims, init);
      if Row(claims, init).Fail? {
        var p :| p in init && Answer(claims, p).Fail?;
        assert p in preds;
      }
    }
  }

  /** Whether `call_wikidata_api` keeps an entity: it has claims, and its
      first P31 claim reads as Q5 (the check short-circuits when P31 is
      missing). */
  function Admitted(ent: Entity): (r: Result<bool>)
    ensures r == Ok(true) <==>
      ent.claims.Some? && Get(ent.claims.value, INSTANCE_OF).Some? &&
      Get(ent.claims.value, INSTANCE_OF).value != [] &&
      IsEntitySnak(Get(ent.claims.value, INSTANCE_OF).value[0].mainsnak) &&
      ObjectId(Get(ent.claims.value, INSTANCE_OF).value[0].mainsnak) == HUMAN
    ensures ent.claims.None? ==> r == Ok(false)
    ensures ent.claims.Some? && Get(ent.claims.value, INSTANCE_OF).None? ==> r == Ok(false)
  {
    match ent.claims
    case None => Ok(false)
    case Some(claims) =>
      match Get(claims, INSTANCE_OF)
      case None => Ok(false)
      case Some(cs) =>
        match ReadClaim(Some(cs))
        case Fail(e) => Fail(e)
        case Ok(o) => Ok(o == Some(HUMAN))
  }

  /** One entity of the response: skipped (`None`), or its row. */
  function Entry(ent: Entity, preds: seq<string>): (r: Result<Option<Dict<string>>>)
    ensures r.Ok? && r.value.Some? <==> Admitted(ent) == Ok(true) && Row(ent.claims.value, preds).Ok?
    ensures r.Ok? && r.value.Some? ==> r.value.value == Row(ent.claims.value, preds).value
    ensures r == Ok(None) <==> Admitted(ent) == Ok(false)
  {
    match Admitted(ent)
    case Fail(e) => Fail(e)
    case Ok(false) => Ok(None)
    case Ok(true) =>
      match Row(ent.claims.value, preds)
      case Fail(e) => Fail(e)
      case Ok(row) => Ok(Some(row))
  }

  /** `entity_data` after the loop over the response's entities. */
  function Response(entities: Dict<Entity>, preds: seq<string>): Result<Dict<Dict<string>>>
  {
    if entities == [] then Ok([])
    else match Response(entities[..|entities| - 1], preds)
      case Fail(e) => Fail(e)
      case Ok(acc) =>
        var (id, ent) := entities[|entities| - 1];
        match Entry(ent, preds)
        case Fail(e) => Fail(e)
        case Ok(None) => Ok(acc)
        case Ok(Some(row)) => Ok(Put(acc, id, row))
  }

  lemma ResponseSnoc(entities: Dict<Entity>, preds: seq<string>, x: (string, Entity))
    ensures Response(entities + [x], preds) ==
      match Response(entities, preds)
      case Fail(e) => Fail(e)
      case Ok(acc) =>
        match Entry(x.1, preds)
        case Fail(e) => Fail(e)
        case Ok(None) => Ok(acc)
        case Ok(Some(row)) => Ok(Put(acc, x.0, row))
  {
    assert (entities + [x])[..|entities|] == entities;
  }

  lemma {:induction false} ResponseFailPersists(entities: Dict<Entity>, n: nat, preds: seq<string>)
    requires n <= |entities| && Response(entities[..n], preds).Fail?
    ensures Response(entities, preds) == Response(entities[..n], preds)
    decreases |entities| - n
  {
    if n < |entities| {
      var t := entities[..|entities| - 1];
      assert t[..n] == entities[..n];
      ResponseFailPersists(t, n, preds);
    } else {
      assert entities[..n] == entities;
    }
  }

  /** The response is processed unless some entity raises. */
  lemma {:induction false} ResponseOk(entities: Dict<Entity>, preds: seq<string>)
    ensures Response(entities, preds).Ok? <==> forall i :: 0 <= i < |entities| ==> Entry(entities[i].1, preds).Ok?
  {
    if entities != [] {
      var init := entities[..|entities| - 1];
      ResponseOk(init, preds);
      assert forall i :: 0 <= i < |init| ==> init[i] == entities[i];
    }
  }

  /** The result holds a row exactly for the kept entities of the
      response, each the row of that entity's claims. */
  lemma {:induction false} ResponseGet(entities: Dict<Entity>, preds: seq<string>, k: string)
    requires Distinct(Keys(entities))
    requires Response(entities, preds).Ok?
    ensures Get(entities, k).Some? ==> Entry(Get(entities, k).value, preds).Ok?
    ensures Get(Response(entities, preds).value, k) ==
      match Get(entities, k)
      case None => None
      case Some(ent) => Entry(ent, preds).value
  {
    if entities != [] {
      var init, x := entities[..|entities| - 1], entities[|entities| - 1];
      assert entities == init + [x];
      DistinctInit(entities);
      ResponseOk(entities, preds);
      assert Entry(x.1, preds).Ok? by {
        assert x == entities[|entities| - 1];
      }
      ResponseOk(init, preds);
      assert Response(init, preds).Ok? by {
        assert forall i :: 0 <= i < |init| ==> init[i] == entities[i];
      }
      ResponseGet(init, preds, k);
      GetSnoc(init, x, k);
    }
  }

  /** The loop of `call_wikidata_api` over a decoded response. The HTTP
      request and the JSON decoding are not part of this model: the
      response's "entities" object is the input. */
  method FilterResponse(entities: Dict<Entity>, predicates: seq<string>) returns (r: Result<Dict<Dict<string>>>)
    ensures r == Response(entities, predicates)
  {
    var entityData: Dict<Dict<string>> := [];
    var i := 0;
    while i < |entities|
      invariant 0 <= i <= |entities|
      invariant Response(entities[..i], predicates) == Ok(entityData)
    {
      var (id, ent) := entities[i];
      assert entities[..i + 1] == entities[..i] + [(id, ent)];
      ResponseSnoc(entities[..i], predicates, (id, ent));
      var admitted := Admitted(ent);
      if admitted.Fail? {
        r := Fail(admitted.error);
        ResponseFailPersists(entities, i + 1, predicates);
        return;
      }
      if admitted.value {
        var row := FillRow(ent.claims.value, predicates);
        if row.Fail? {
          r := Fail(row.error);
          ResponseFailPersists(entities, i + 1, predicates);
          return;
        }
        entityData := Put(entityData, id, row.value);
      }
      i := i + 1;
    }
    assert entities[..i] == entities;
    r := Ok(entityData);
  }

  /** The inner loop of `call_wikidata_api`: `entity_data[id][pred]` for
      each requested predicate in turn. */
  method FillRow(claims: Dict<seq<Claim>>, predicates: seq<string>) returns (r: Result<Dict<string>>)
    ensures r == Row(claims, predicates)
  {
    var row: Dict<string> := [];
    var j := 0;
    while j < |predicates|
      invariant 0 <= j <= |predicates|
      invariant Row(claims, predicates[..j]) == Ok(row)
    {
      var pred := predicates[j];
      assert predicates[..j + 1][..j] == predicates[..j];
      var answer := Answer(claims, pred);
      if answer.Fail? {
        RowFailPersists(claims, predicates, j + 1);
        return Fail(answer.error);
      }
      row := Put(row, pred, answer.value);
      j := j + 1;
    }
    assert predicates[..j] == predicates;
    r := Ok(row);
  }

  lemma {:induction false} RowFailPersists(claims: Dict<seq<Claim>>, preds: seq<string>, n: nat)
    requires n <= |preds| && Row(claims, preds[..n]).Fail?
    ensures Row(claims, preds) == Row(claims, preds[..n])
    decreases |preds| - n
  {
    if n < |preds| {
      var t := preds[..|preds| - 1];
      assert t[..n] == preds[..n];
      RowFailPersists(claims, t, n);
    } else {
      assert preds[..n] == preds;
    }
  }

  // ---------------------------------------------------------------------
  // write_gen_occ

  /** `d.get(k, default)`. */
  function GetOr(d: Dict<string>, k: string, default: string): (r: string)
    ensures Get(d, k).Some? ==> r == Get(d, k).value
    ensures Get(d, k).None? ==> r == default
  {
    match Get(d, k)
    case None => default
    case Some(v) => v
  }

  /** The (entity, gender, occupation) fields of one candidate line. */
  function Fields(occupations: Dict<string>, genders: Dict<string>, e: string): (string, string, string)
  {
    (e, GetOr(genders, e, ""), GetOr(occupations, e, ""))
  }

  /** A line is written when its gender or its occupation is known. */
  predicate Written(t: (string, string, string))
  {
    t.1 != "" || t.2 != ""
  }

  /** One line of humans.txt, without its line terminator. */
  function Line(t: (string, string, string)): string
  {
    t.0 + "\t" + t.1 + "\t" + t.2
  }

  /** The fields of the lines `write_gen_occ` writes when it visits the
      entities in the order `order`. */
  function Rows(order: seq<string>, occupations: Dict<string>, genders: Dict<string>): seq<(string, string, string)>
  {
    if order == [] then []
    else
      var t := Fields(occupations, genders, order[|order| - 1]);
      Rows(order[..|order| - 1], occupations, genders) + (if Written(t) then [t] else [])
  }

  /** The lines themselves, in order. */
  function Lines(rows: seq<(string, string, string)>): (r: seq<string>)
    ensures |r| == |rows| && forall i :: 0 <= i < |rows| ==> r[i] == Line(rows[i])
  {
    seq(|rows|, i requires 0 <= i < |rows| => Line(rows[i]))
  }

  /** A row is written for exactly the visited entities that have a
      non-empty gender or occupation, with what the two dictionaries hold
      for them ("" when missing); each entity at most once. */
  lemma {:induction false} RowsMeaning(order: seq<string>, occupations: Dict<string>, genders: Dict<string>)
    requires Distinct(order)
    ensures forall t :: t in Rows(order, occupations, genders) <==>
      t.0 in order && t == Fields(occupations, genders, t.0) && Written(t)
    ensures forall i, j :: 0 <= i < j < |Rows(order, occupations, genders)| ==>
      Rows(order, occupations, genders)[i].0 != Rows(order, occupations, genders)[j].0
  {
    if order != [] {
      var init, e := order[..|order| - 1], order[|order| - 1];
      assert order == init + [e];
      assert Distinct(init) by {
        forall i, j | 0 <= i < j < |init| ensures init[i] != init[j] {
          assert order[i] != order[j];
        }
      }
      assert e !in init by {
        forall i | 0 <= i < |init| ensures init[i] != e {
          assert order[i] != order[|init|];
        }
      }
      RowsMeaning(init, occupations, genders);
    }
  }

  /** `write_gen_occ`: the lines written to humans.txt. The entities are
      the union of both dictionaries' keys, visited in `order`, the
      iteration order of that Python set. */
  method WriteGenOcc(occupations: Dict<string>, genders: Dict<string>, order: seq<string>) returns (lines: seq<string>)
    requires Distinct(order)
    requires Elements(order) == Elements(Keys(occupations)) + Elements(Keys(genders))
    ensures lines == Lines(Rows(order, occupations, genders))
  {
    lines := [];
    ghost var rows: seq<(string, string, string)> := [];
    var i := 0;
    while i < |order|
      invariant 0 <= i <= |order|
      invariant rows == Rows(order[..i], occupations, genders)
      invariant lines == Lines(rows)
    {
      var entity := order[i];
      assert order[..i + 1][..i] == order[..i];
      var gender, occ := GetOr(genders, entity, ""), GetOr(occupations, entity, "");
      if gender != "" || occ != "" {
        lines := lines + [entity + "\t" + gender + "\t" + occ];
        rows := rows + [(entity, gender, occ)];
      }
      i := i + 1;
    }
    assert order[..i] == order;
  }

  /** With the visiting order covering both key sets, an entity gets a
      line exactly when one of the dictionaries gives it a non-empty value. */
  lemma WrittenEntities(order: seq<string>, occupations: Dict<string>, genders: Dict<string>, e: string)
    requires Distinct(order)
    requires Elements(order) == Elements(Keys(occupations)) + Elements(Keys(genders))
    ensures (exists t :: t in Rows(order, occupations, genders) && t.0 == e) <==>
      GetOr(genders, e, "") != "" || GetOr(occupations, e, "") != ""
  {
    RowsMeaning(order, occupations, genders);
    var t := Fields(occupations, genders, e);
    if Written(t) {
      assert e in Elements(order) by {
        GetMeaning(genders, e);
        GetMeaning(occupations, e);
        if Get(genders, e).Some? {
          var i :| 0 <= i < |genders| && genders[i] == (e, Get(genders, e).value);
          assert Keys(genders)[i] == e;
        } else {
          var i :| 0 <= i < |occupations| && occupations[i] == (e, Get(occupations, e).value);
          assert Keys(occupations)[i] == e;
        }
      }
      assert t in Rows(order, occupations, genders);
    }
  }

  // ---------------------------------------------------------------------
  // get_labels

  /** A claim whose main snak has a value. */
  predicate HasValue(c: Claim)
  {
    c.mainsnak.snak.Value?
  }

  /** The loop of `get_labels` over one predicate's claims: the ids of the
      value claims, stopping after the first when `onlyFirst` is set. */
  function ValueIds(cs: seq<Claim>, onlyFirst: bool): (r: Result<seq<string>>)
    ensures r.Ok? && onlyFirst ==> |r.value| <= 1
  {
    if cs == [] then Ok([])
    else if !HasValue(cs[0]) then ValueIds(cs[1..], onlyFirst)
    else match ValueId(cs[0].mainsnak.snak.datavalue)
      case Fail(e) => Fail(e)
      case Ok(id) =>
        if onlyFirst then Ok([id])
        else match ValueIds(cs[1..], onlyFirst)
          case Fail(e) => Fail(e)
          case Ok(rest) => Ok([id] + rest)
  }

  /** `get_labels`: nothing when the record has no claims or none for the
      predicate. */
  function Labels(human: Entity, pred: string, onlyFirst: bool): (r: Result<seq<string>>)
    ensures human.claims.None? ==> r == Ok([])
    ensures human.claims.Some? && Get(human.claims.value, pred).None? ==> r == Ok([])
    ensures r.Ok? && onlyFirst ==> |r.value| <= 1
  {
    match human.claims
    case None => Ok([])
    case Some(claims) =>
      match Get(claims, pred)
      case None => Ok([])
      case Some(cs) => ValueIds(cs, onlyFirst)
  }

  /** Without `onlyFirst`, the scan raises exactly when one of the value
      claims does not hold an entity. */
  lemma {:induction false} ValueIdsOk(cs: seq<Claim>)
    ensures ValueIds(cs, false).Ok? <==> forall c :: c in Filter(cs, HasValue) ==> IsEntitySnak(c.mainsnak)
  {
    if cs != [] {
      var c, rest := cs[0], cs[1..];
      assert cs == [c] + rest;
      FilterCons(c, rest, HasValue);
      ValueIdsOk(rest);
      var f := Filter(rest, HasValue);
      if HasValue(c) {
        assert Filter(cs, HasValue) == [c] + f;
        assert c in Filter(cs, HasValue);
        assert forall y :: y in f ==> y in Filter(cs, HasValue);
      } else {
        assert Filter(cs, HasValue) == f;
      }
    }
  }

  /** The ids of the entity claims `f`, one each, extended by one claim in front. */
  lemma IdsCons(c: Claim, f: seq<Claim>, ids: seq<string>)
    requires IsEntitySnak(c.mainsnak) && |ids| == |f|
    requires forall i :: 0 <= i < |f| ==> IsEntitySnak(f[i].mainsnak) && ids[i] == ObjectId(f[i].mainsnak)
    ensures forall i :: 0 <= i < |f| + 1 ==>
      IsEntitySnak(([c] + f)[i].mainsnak) && ([ObjectId(c.mainsnak)] + ids)[i] == ObjectId(([c] + f)[i].mainsnak)
  {
    forall i | 0 <= i < |f| + 1
      ensures IsEntitySnak(([c] + f)[i].mainsnak) && ([ObjectId(c.mainsnak)] + ids)[i] == ObjectId(([c] + f)[i].mainsnak)
    {
      if i > 0 {
        assert ([c] + f)[i] == f[i - 1];
      }
    }
  }

  /** Without `onlyFirst`, a successful scan gives the ids of the value
      claims, one each, in order. */
  lemma {:induction false} ValueIdsValues(cs: seq<Claim>)
    requires ValueIds(cs, false).Ok?
    ensures |ValueIds(cs, false).value| == |Filter(cs, HasValue)|
    ensures forall i :: 0 <= i < |Filter(cs, HasValue)| ==>
      IsEntitySnak(Filter(cs, HasValue)[i].mainsnak) &&
      ValueIds(cs, false).value[i] == ObjectId(Filter(cs, HasValue)[i].mainsnak)
  {
    if cs != [] {
      var c, rest := cs[0], cs[1..];
      assert cs == [c] + rest;
      FilterCons(c, rest, HasValue);
      var f := Filter(rest, HasValue);
      if HasValue(c) {
        assert ValueId(c.mainsnak.snak.datavalue).Ok?;
        assert ValueIds(rest, false).Ok?;
        ValueIdsValues(rest);
        var ids := ValueIds(rest, false).value;
        assert ValueIds(cs, false).value == [ObjectId(c.mainsnak)] + ids;
        assert Filter(cs, HasValue) == [c] + f;
        IdsCons(c, f, ids);
      } else {
        assert ValueIds(cs, false) == ValueIds(rest, false);
        ValueIdsValues(rest);
        assert Filter(cs, HasValue) == f;
      }
    }
  }

  /** With `onlyFirst`, the result is the first id the full scan would
      give, and the scan stops there: claims after it are not read. */
  lemma {:induction false} ValueIdsFirst(cs: seq<Claim>)
    requires ValueIds(cs, false).Ok?
    ensures ValueIds(cs, true).Ok?
    ensures ValueIds(cs, true).value ==
      if ValueIds(cs, false).value == [] then [] else [ValueIds(cs, false).value[0]]
  {
    if cs != [] && !HasValue(cs[0]) {
      ValueIdsFirst(cs[1..]);
    }
  }

  /** The loop of `get_labels`, with its early `break`. */
  method GetLabels(human: Entity, pred: string, onlyFirst: bool) returns (r: Result<seq<string>>)
    ensures r == Labels(human, pred, onlyFirst)
  {
    var results: seq<string> := [];
    if human.claims.None? {
      return Ok([]);
    }
    var found := Get(human.claims.value, pred);
    if found.None? {
      return Ok([]);
    }
    var claims := found.value;
    assert claims[0..] == claims;
    assert Prefixed([], ValueIds(claims, onlyFirst)) == ValueIds(claims, onlyFirst) by {
      if ValueIds(claims, onlyFirst).Ok? {
        assert [] + ValueIds(claims, onlyFirst).value == ValueIds(claims, onlyFirst).value;
      }
    }
    var i := 0;
    while i < |claims|
      invariant 0 <= i <= |claims|
      invariant onlyFirst ==> results == []
      invariant Labels(human, pred, onlyFirst) == Prefixed(results, ValueIds(claims[i..], onlyFirst))
    {
      var claim := claims[i];
      ghost var rest := claims[i + 1..];
      assert claims[i..] == [claim] + rest;
      assert ([claim] + rest)[1..] == rest;
      if claim.mainsnak.snak.Value? {
        var id := ValueId(claim.mainsnak.snak.datavalue);
        if id.Fail? {
          return Fail(id.error);
        }
        if onlyFirst {
          assert ValueIds(claims[i..], onlyFirst) == Ok([id.value]);
          assert results + [id.value] == [id.value];
        } else if ValueIds(rest, onlyFirst).Ok? {
          assert results + ([id.value] + ValueIds(rest, onlyFirst).value)
            == (results + [id.value]) + ValueIds(rest, onlyFirst).value;
        }
        results := results + [id.value];
        if onlyFirst {
          return Ok(results);
        }
      }
      i := i + 1;
    }
    assert results + [] == results;
    r := Ok(results);
  }

  /** `prefix` followed by the outcome of the rest of a scan. */
  function Prefixed(prefix: seq<string>, rest: Result<seq<string>>): Result<seq<string>>
  {
    match rest
    case Fail(e) => Fail(e)
    case Ok(more) => Ok(prefix + more)
  }

  // ---------------------------------------------------------------------
  // order_dict

  type Counted = (string, int)

  /** Values never increase along the list. */
  predicate Descending(s: seq<Counted>)
  {
    forall i, j :: 0 <= i < j < |s| ==> s[i].1 >= s[j].1
  }

  /** Inserting into a descending list behind every entry whose value is
      at least as large: one step of a stable sort. */
  function Insert(x: Counted, s: seq<Counted>): (r: seq<Counted>)
    ensures |r| == |s| + 1
  {
    if s == [] then [x]
    else if s[0].1 >= x.1 then assert s == [s[0]] + s[1..]; [s[0]] + Insert(x, s[1..])
    else [x] + s
  }

  /** `sorted(d.items(), key=lambda x: x[1], reverse=True)`. */
  function SortDesc(d: seq<Counted>): (r: seq<Counted>)
    ensures |r| == |d|
  {
    if d == [] then [] else Insert(d[|d| - 1], SortDesc(d[..|d| - 1]))
  }

  /** Inserting adds `x` and loses nothing. */
  lemma {:induction false} InsertContents(x: Counted, s: seq<Counted>)
    ensures multiset(Insert(x, s)) == multiset(s) + multiset{x}
    ensures forall y :: y in Insert(x, s) <==> y == x || y in s
  {
    if s != [] && s[0].1 >= x.1 {
      InsertContents(x, s[1..]);
      assert s == [s[0]] + s[1..];
    }
  }

  /** The sort is a permutation. */
  lemma {:induction false} SortDescPermutes(d: seq<Counted>)
    ensures multiset(SortDesc(d)) == multiset(d)
  {
    if d != [] {
      SortDescPermutes(d[..|d| - 1]);
      InsertContents(d[|d| - 1], SortDesc(d[..|d| - 1]));
      assert d == d[..|d| - 1] + [d[|d| - 1]];
    }
  }

  /** No value in `s` exceeds `v`. */
  predicate Bounded(v: int, s: seq<Counted>)
  {
    forall y :: y in s ==> y.1 <= v
  }

  lemma DescendingCons(a: Counted, r: seq<Counted>)
    requires Descending(r) && Bounded(a.1, r)
    ensures Descending([a] + r)
  {
    var t := [a] + r;
    forall i, j | 0 <= i < j < |t| ensures t[i].1 >= t[j].1 {
      assert t[j] == r[j - 1] && r[j - 1] in r;
      if i > 0 {
        assert t[i] == r[i - 1];
      }
    }
  }

  /** A descending list is bounded by its head. */
  lemma HeadBounds(s: seq<Counted>)
    requires Descending(s) && s != []
    ensures Bounded(s[0].1, s)
  {
    forall y | y in s ensures y.1 <= s[0].1 {
      var k :| 0 <= k < |s| && s[k] == y;
    }
  }

  lemma {:induction false} InsertDescending(x: Counted, s: seq<Counted>)
    requires Descending(s)
    ensures Descending(Insert(x, s))
  {
    if s == [] {
    } else if s[0].1 >= x.1 {
      var rest := s[1..];
      assert Descending(rest);
      InsertDescending(x, rest);
      InsertContents(x, rest);
      HeadBounds(s);
      assert Bounded(s[0].1, Insert(x, rest)) by {
        forall y | y in Insert(x, rest) ensures y.1 <= s[0].1 {
          assert y == x || y in s;
        }
      }
      DescendingCons(s[0], Insert(x, rest));
    } else {
      HeadBounds(s);
      DescendingCons(x, s);
    }
  }

  /** The values come out non-increasing. */
  lemma {:induction false} SortDescDescending(d: seq<Counted>)
    ensures Descending(SortDesc(d))
  {
    if d != [] {
      SortDescDescending(d[..|d| - 1]);
      InsertDescending(d[|d| - 1], SortDesc(d[..|d| - 1]));
    }
  }

  /** The entries holding value `v`. */
  function ValueIs(v: int): Counted -> bool
  {
    (x: Counted) => x.1 == v
  }

  /** Inserting keeps the entries of every value in their previous order,
      the new one last among its equals. */
  lemma {:induction false} InsertStable(x: Counted, s: seq<Counted>, v: int)
    requires Descending(s)
    ensures Filter(Insert(x, s), ValueIs(v)) == Filter(s, ValueIs(v)) + (if x.1 == v then [x] else [])
  {
    var p := ValueIs(v);
    var tail: seq<Counted> := if x.1 == v then [x] else [];
    if s == [] {
      var e: seq<Counted> := [];
      assert Insert(x, s) == [x] + e;
      FilterCons(x, e, p);
      assert Filter(e, p) == [];
    } else if s[0].1 >= x.1 {
      var rest := s[1..];
      assert [s[0]] + rest == s;
      var head: seq<Counted> := if p(s[0]) then [s[0]] else [];
      assert Descending(rest);
      assert Insert(x, s) == [s[0]] + Insert(x, rest);
      InsertStable(x, rest, v);
      FilterCons(s[0], Insert(x, rest), p);
      assert Filter(Insert(x, s), p) == head + (Filter(rest, p) + tail);
      FilterCons(s[0], rest, p);
      assert Filter(s, p) == head + Filter(rest, p);
      AppendAssoc(head, Filter(rest, p), tail);
    } else {
      assert Insert(x, s) == [x] + s;
      FilterCons(x, s, p);
      if x.1 == v {
        Below(s, x.1);
        FilterNone(s, p);
        assert Filter(Insert(x, s), p) == [x] + [];
      }
    }
  }

  /** A descending list whose head is below `v` lies wholly below it. */
  lemma Below(s: seq<Counted>, v: int)
    requires Descending(s) && s != [] && s[0].1 < v
    ensures forall y :: y in s ==> y.1 < v
  {
    forall y | y in s ensures y.1 < v {
      var k :| 0 <= k < |s| && s[k] == y;
      assert k == 0 || s[0].1 >= s[k].1;
    }
  }

  /** The sort is stable: the entries of each value keep their original
      order (Python's `sorted` is stable, also with `reverse=True`). */
  lemma {:induction false} SortDescStable(d: seq<Counted>, v: int)
    ensures Filter(SortDesc(d), ValueIs(v)) == Filter(d, ValueIs(v))
  {
    if d != [] {
      var init, x := d[..|d| - 1], d[|d| - 1];
      SortDescStable(init, v);
      SortDescDescending(init);
      InsertStable(x, SortDesc(init), v);
    }
  }

  function Same(v: int): int
  {
    v
  }

  /** `order_dict`: the dictionary rebuilt from the sorted entries. */
  function OrderDict(d: Dict<int>): Dict<int>
  {
    PutAll(SortDesc(d), Same, [])
  }

  /** A dictionary lists each key once, so rebuilding it from its sorted
      entries gives exactly the sorted list: the same pairs, values
      non-increasing, ties in their original order. */
  lemma OrderDictMeaning(d: Dict<int>)
    requires Distinct(Keys(d))
    ensures OrderDict(d) == SortDesc(d)
    ensures multiset(OrderDict(d)) == multiset(d)
    ensures Descending(OrderDict(d))
    ensures forall v :: Filter(OrderDict(d), ValueIs(v)) == Filter(d, ValueIs(v))
  {
    SortDescDistinct(d);
    SortDescPermutes(d);
    RebuildDistinct(SortDesc(d));
    SortDescDescending(d);
    forall v ensures Filter(OrderDict(d), ValueIs(v)) == Filter(d, ValueIs(v)) {
      SortDescStable(d, v);
    }
  }

  lemma {:induction false} SortDescDistinct(d: Dict<int>)
    requires Distinct(Keys(d))
    ensures Distinct(Keys(SortDesc(d)))
  {
    if d != [] {
      var init, x := d[..|d| - 1], d[|d| - 1];
      DistinctInit(d);
      GetMeaning(init, x.0);
      SortDescDistinct(init);
      var s := SortDesc(init);
      SortDescPermutes(init);
      assert forall y :: y in s ==> y in init by {
        forall y | y in s ensures y in init {
          assert y in multiset(s);
        }
      }
      forall i | 0 <= i < |s| ensures s[i].0 != x.0 {
        assert s[i] in s;
        var k :| 0 <= k < |init| && init[k] == s[i];
      }
      GetMeaning(s, x.0);
      InsertDistinct(x, s);
    }
  }

  lemma {:induction false} InsertDistinct(x: Counted, s: seq<Counted>)
    requires Distinct(Keys(s)) && Get(s, x.0).None?
    ensures Distinct(Keys(Insert(x, s)))
  {
    GetMeaning(s, x.0);
    var r := Insert(x, s);
    if s != [] && s[0].1 >= x.1 {
      assert Distinct(Keys(s[1..])) by {
        forall i, j | 0 <= i < j < |s[1..]| ensures Keys(s[1..])[i] != Keys(s[1..])[j] {
          assert Keys(s)[i + 1] != Keys(s)[j + 1];
        }
      }
      InsertDistinct(x, s[1..]);
      InsertContents(x, s[1..]);
      var t := Insert(x, s[1..]);
      forall i, j | 0 <= i < j < |r| ensures Keys(r)[i] != Keys(r)[j] {
        if i == 0 {
          assert r[j] == t[j - 1] && t[j - 1] in t;
          if t[j - 1] != x {
            var k :| 0 <= k < |s[1..]| && s[1..][k] == t[j - 1];
            assert Keys(s)[0] != Keys(s)[k + 1];
          }
        } else {
          assert Keys(t)[i - 1] != Keys(t)[j - 1];
        }
      }
    } else if s != [] {
      forall i, j | 0 <= i < j < |r| ensures Keys(r)[i] != Keys(r)[j] {
        if i != 0 {
          assert Keys(s)[i - 1] != Keys(s)[j - 1];
        }
      }
    }
  }

  /** Rebuilding a dictionary entry by entry from a list with distinct
      keys gives back that list. */
  lemma {:induction false} RebuildDistinct(s: Dict<int>)
    requires Distinct(Keys(s))
    ensures PutAll(s, Same, []) == s
  {
    if s != [] {
      var init, x := s[..|s| - 1], s[|s| - 1];
      assert s == init + [x];
      DistinctInit(s);
      RebuildDistinct(init);
      PutFresh(init, x.0, x.1);
    }
  }
}
