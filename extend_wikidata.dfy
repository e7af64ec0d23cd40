/** The bookkeeping of analyzer/code/extend_wikidata.py: translating the
    Wikidata12k ids, asking Wikidata for the gender and occupation of
    every entity in batches of 50, the occupation triples, the per
    occupation men-minus-women tally, and the extra women.

    The HTTP request is a parameter `respond`: given a query group it
    yields the "entities" object of the decoded answer. */
module ExtendWikidata {
  import opened Common
  import opened Record
  import opened Batching
  import opened AnalyzerHelper

  /** A row of the data set: (subject, predicate, object). */
  type Triple = (string, string, string)

  /** "occupation". */
  const OCCUPATION := "P106"

  /** The predicates asked for in every query, in the script's order. */
  const QUERIED: seq<string> := [OCCUPATION, SEX_OR_GENDER]

  // ---------------------------------------------------------------------
  // Id translation

  /** The dictionary the loop `ent_dict[row.id] = row['name']` builds from
      the rows of entities.txt (or relations.txt). */
  function Table(rows: Dict<string>): Dict<string>
  {
    if rows == [] then []
    else
      var x := rows[|rows| - 1];
      Put(Table(rows[..|rows| - 1]), x.0, x.1)
  }

  method BuildTable(rows: Dict<string>) returns (table: Dict<string>)
    ensures table == Table(rows)
  {
    table := [];
    for i := 0 to |rows|
      invariant table == Table(rows[..i])
    {
      assert rows[..i + 1][..i] == rows[..i];
      table := Put(table, rows[i].0, rows[i].1);
    }
    assert rows[..|rows|] == rows;
  }

  /** An id listed in the file maps to the name on its last row. */
  lemma {:induction false} TableLast(rows: Dict<string>, i: nat)
    requires i < |rows|
    requires forall j :: i < j < |rows| ==> rows[j].0 != rows[i].0
    ensures Get(Table(rows), rows[i].0) == Some(rows[i].1)
  {
    if i < |rows| - 1 {
      var init := rows[..|rows| - 1];
      assert init[i] == rows[i];
      TableLast(init, i);
    }
  }

  /** An id the file does not list has no entry. */
  lemma {:induction false} TableMissing(rows: Dict<string>, k: string)
    requires forall j :: 0 <= j < |rows| ==> rows[j].0 != k
    ensures Get(Table(rows), k).None?
  {
    if rows != [] {
      var init := rows[..|rows| - 1];
      assert forall j :: 0 <= j < |init| ==> init[j] == rows[j];
      TableMissing(init, k);
    }
  }

  /** `d[k]`. */
  function Lookup(d: Dict<string>, k: string): (r: Result<string>)
    ensures r.Ok? <==> Get(d, k).Some?
    ensures r.Ok? ==> r.value == Get(d, k).value
    ensures r.Fail? ==> r.error == KeyError
  {
    match Get(d, k)
    case None => Fail(KeyError)
    case Some(v) => Ok(v)
  }

  /** One row after the three `apply` calls: the predicate through the
      relation table, subject and object through the entity table. */
  function TranslateTriple(t: Triple, ents: Dict<string>, rels: Dict<string>): Result<Triple>
  {
    match Lookup(rels, t.1)
    case Fail(e) => Fail(e)
    case Ok(p) =>
      match Lookup(ents, t.0)
      case Fail(e) => Fail(e)
      case Ok(s) =>
        match Lookup(ents, t.2)
        case Fail(e) => Fail(e)
        case Ok(o) => Ok((s, p, o))
  }

  /** The data set with every id translated. */
  function Translate(data: seq<Triple>, ents: Dict<string>, rels: Dict<string>): (r: Result<seq<Triple>>)
    ensures r.Ok? ==> |r.value| == |data|
  {
    if data == [] then Ok([])
    else
      match Translate(data[..|data| - 1], ents, rels)
      case Fail(e) => Fail(e)
      case Ok(done) =>
        match TranslateTriple(data[|data| - 1], ents, rels)
        case Fail(e) => Fail(e)
        case Ok(t) => Ok(done + [t])
  }

  /** A row can be translated when all three of its ids are in the tables. */
  predicate Known(t: Triple, ents: Dict<string>, rels: Dict<string>)
  {
    Get(rels, t.1).Some? && Get(ents, t.0).Some? && Get(ents, t.2).Some?
  }

  /** Translation succeeds exactly when every id is listed, and otherwise
      raises `KeyError`. */
  lemma {:induction false} TranslateOk(data: seq<Triple>, ents: Dict<string>, rels: Dict<string>)
    ensures Translate(data, ents, rels).Ok? <==> forall i :: 0 <= i < |data| ==> Known(data[i], ents, rels)
    ensures Translate(data, ents, rels).Fail? ==> Translate(data, ents, rels).error == KeyError
  {
    if data != [] {
      var init := data[..|data| - 1];
      TranslateOk(init, ents, rels);
      assert forall i :: 0 <= i < |init| ==> init[i] == data[i];
    }
  }

  /** A translated data set has the same rows in the same order, each id
      replaced by its name. */
  lemma {:induction false} TranslateValues(data: seq<Triple>, ents: Dict<string>, rels: Dict<string>, i: nat)
    requires Translate(data, ents, rels).Ok? && i < |data|
    ensures Get(ents, data[i].0) == Some(Translate(data, ents, rels).value[i].0)
    ensures Get(rels, data[i].1) == Some(Translate(data, ents, rels).value[i].1)
    ensures Get(ents, data[i].2) == Some(Translate(data, ents, rels).value[i].2)
  {
    var init := data[..|data| - 1];
    var done := Translate(init, ents, rels).value;
    var t := TranslateTriple(data[|data| - 1], ents, rels).value;
    assert Translate(data, ents, rels).value == done + [t];
    if i < |init| {
      TranslateValues(init, ents, rels, i);
      assert init[i] == data[i];
    } else {
      assert Translate(data, ents, rels).value[i] == t;
    }
  }

  // ---------------------------------------------------------------------
  // The entities to query

  /** pandas `unique()`: each element once, where it first occurs. */
  function Unique(xs: seq<string>): (r: seq<string>)
    ensures forall x :: x in r <==> x in xs
    ensures Distinct(r)
  {
    if xs == [] then []
    else
      var u := Unique(xs[..|xs| - 1]);
      var x := xs[|xs| - 1];
      assert forall y :: y in xs <==> y in xs[..|xs| - 1] || y == x;
      if x in u then u else u + [x]
  }

  /** `data.s.append(data.o)`: the subjects, then the objects. */
  function Mentions(data: seq<Triple>): (r: seq<string>)
    ensures |r| == 2 * |data|
  {
    seq(2 * |data|, k requires 0 <= k < 2 * |data| => if k < |data| then data[k].0 else data[k - |data|].2)
  }

  /** `data.s.append(data.o).unique()`: the entities to query. */
  function AllEntities(data: seq<Triple>): (r: seq<string>)
    ensures Distinct(r)
  {
    Unique(Mentions(data))
  }

  /** An entity is queried exactly when it is the subject or the object of
      some row. */
  lemma AllEntitiesMeaning(data: seq<Triple>, e: string)
    ensures e in AllEntities(data) <==> exists i :: 0 <= i < |data| && (data[i].0 == e || data[i].2 == e)
  {
    var m := Mentions(data);
    if e in m {
      var k :| 0 <= k < |m| && m[k] == e;
      var i := if k < |data| then k else k - |data|;
      assert data[i].0 == e || data[i].2 == e;
    }
    if exists i :: 0 <= i < |data| && (data[i].0 == e || data[i].2 == e) {
      var i :| 0 <= i < |data| && (data[i].0 == e || data[i].2 == e);
      assert m[i] == data[i].0 && m[|data| + i] == data[i].2;
    }
  }

  // ---------------------------------------------------------------------
  // Querying in batches of 50

  /** `if pred in entdata: d[ent] = entdata[pred]` over one answer. */
  function Merge(data: Dict<Dict<string>>, pred: string, d: Dict<string>): Dict<string>
  {
    if data == [] then d
    else
      var x := data[|data| - 1];
      var m := Merge(data[..|data| - 1], pred, d);
      match Get(x.1, pred)
      case None => m
      case Some(v) => Put(m, x.0, v)
  }

  /** After merging an answer that lists each entity once, an entity whose
      row holds the predicate has that value, and every other entity keeps
      what it had. */
  lemma {:induction false} MergeGet(data: Dict<Dict<string>>, pred: string, d: Dict<string>, k: string)
    requires Distinct(Keys(data))
    ensures Get(Merge(data, pred, d), k) ==
      match Get(data, k)
      case Some(row) => if Get(row, pred).Some? then Get(row, pred) else Get(d, k)
      case None => Get(d, k)
  {
    if data != [] {
      var init, x := data[..|data| - 1], data[|data| - 1];
      assert data == init + [x];
      DistinctInit(data);
      MergeGet(init, pred, d, k);
      GetSnoc(init, x, k);
    }
  }

  /** Merging never lists an entity twice. */
  lemma {:induction false} MergeDistinct(data: Dict<Dict<string>>, pred: string, d: Dict<string>)
    requires Distinct(Keys(d))
    ensures Distinct(Keys(Merge(data, pred, d)))
  {
    if data != [] {
      var x := data[|data| - 1];
      MergeDistinct(data[..|data| - 1], pred, d);
      if Get(x.1, pred).Some? {
        PutDistinct(Merge(data[..|data| - 1], pred, d), x.0, Get(x.1, pred).value);
      }
    }
  }

  /** The answer to a query lists each entity once. */
  lemma {:induction false} ResponseDistinct(entities: Dict<Entity>, preds: seq<string>)
    requires Response(entities, preds).Ok?
    ensures Distinct(Keys(Response(entities, preds).value))
  {
    if entities != [] {
      var init := entities[..|entities| - 1];
      ResponseDistinct(init, preds);
      var x := entities[|entities| - 1];
      if Entry(x.1, preds).value.Some? {
        PutDistinct(Response(init, preds).value, x.0, Entry(x.1, preds).value.value);
      }
    }
  }

  /** `genders` and `occupations` after the queries for `groups`. */
  function Gathered(groups: seq<seq<string>>, respond: seq<string> -> Dict<Entity>): Result<(Dict<string>, Dict<string>)>
  {
    if groups == [] then Ok(([], []))
    else
      match Gathered(groups[..|groups| - 1], respond)
      case Fail(e) => Fail(e)
      case Ok(state) =>
        match Response(respond(groups[|groups| - 1]), QUERIED)
        case Fail(e) => Fail(e)
        case Ok(data) => Ok((Merge(data, SEX_OR_GENDER, state.0), Merge(data, OCCUPATION, state.1)))
  }

  lemma {:induction false} GatheredFailPersists(groups: seq<seq<string>>, n: nat, respond: seq<string> -> Dict<Entity>)
    requires n <= |groups| && Gathered(groups[..n], respond).Fail?
    ensures Gathered(groups, respond) == Gathered(groups[..n], respond)
    decreases |groups| - n
  {
    if n < |groups| {
      var t := groups[..|groups| - 1];
      assert t[..n] == groups[..n];
      GatheredFailPersists(t, n, respond);
    } else {
      assert groups[..n] == groups;
    }
  }

  /** Neither dictionary ever lists an entity twice. */
  lemma {:induction false} GatheredDistinct(groups: seq<seq<string>>, respond: seq<string> -> Dict<Entity>)
    requires Gathered(groups, respond).Ok?
    ensures Distinct(Keys(Gathered(groups, respond).value.0))
    ensures Distinct(Keys(Gathered(groups, respond).value.1))
  {
    if groups != [] {
      var init := groups[..|groups| - 1];
      GatheredDistinct(init, respond);
      var data := Response(respond(groups[|groups| - 1]), QUERIED).value;
      MergeDistinct(data, SEX_OR_GENDER, Gathered(init, respond).value.0);
      MergeDistinct(data, OCCUPATION, Gathered(init, respond).value.1);
    }
  }

  /** Once a query fails, the look-up fails with its error. */
  lemma GatherStops(entities: seq<string>, respond: seq<string> -> Dict<Entity>, i: nat, sent: seq<seq<string>>)
    requires i <= |entities| && Run(entities, WIKIDATA_BATCH, i).0 == sent
    requires Gathered(sent, respond).Fail?
    ensures Gathered(Groups(entities, WIKIDATA_BATCH), respond) == Gathered(sent, respond)
  {
    var groups := Groups(entities, WIKIDATA_BATCH);
    RunGrows(entities, WIKIDATA_BATCH, i, |entities|);
    assert groups[..|sent|] == sent;
    GatheredFailPersists(groups, |sent|, respond);
  }

  /** The loop over the entities: a query is sent when the group holds 50
      entities or the last entity has been added. */
  method QueryAll(entities: seq<string>, respond: seq<string> -> Dict<Entity>)
    returns (r: Result<(Dict<string>, Dict<string>)>)
    ensures r == Gathered(Groups(entities, WIKIDATA_BATCH), respond)
  {
    var genders: Dict<string> := [];
    var occupations: Dict<string> := [];
    var queryGroup: seq<string> := [];
    ghost var sent: seq<seq<string>> := [];
    for i := 0 to |entities|
      invariant (sent, queryGroup) == Run(entities, WIKIDATA_BATCH, i)
      invariant Gathered(sent, respond) == Ok((genders, occupations))
    {
      queryGroup := queryGroup + [entities[i]];
      if i == |entities| - 1 || |queryGroup| == WIKIDATA_BATCH {
        assert (sent + [queryGroup])[..|sent|] == sent;
        var result := FilterResponse(respond(queryGroup), QUERIED);
        assert Run(entities, WIKIDATA_BATCH, i + 1).0 == sent + [queryGroup];
        if result.Fail? {
          assert Gathered(sent + [queryGroup], respond) == Fail(result.error);
          GatherStops(entities, respond, i + 1, sent + [queryGroup]);
          return Fail(result.error);
        }
        genders, occupations := MergeAnswer(result.value, genders, occupations);
        sent := sent + [queryGroup];
        queryGroup := [];
      }
    }
    r := Ok((genders, occupations));
  }

  /** The inner loop over one answer's entities. */
  method MergeAnswer(data: Dict<Dict<string>>, genders: Dict<string>, occupations: Dict<string>)
    returns (g: Dict<string>, o: Dict<string>)
    ensures g == Merge(data, SEX_OR_GENDER, genders)
    ensures o == Merge(data, OCCUPATION, occupations)
  {
    g, o := genders, occupations;
    for i := 0 to |data|
      invariant g == Merge(data[..i], SEX_OR_GENDER, genders)
      invariant o == Merge(data[..i], OCCUPATION, occupations)
    {
      assert data[..i + 1][..i] == data[..i];
      var (ent, entdata) := data[i];
      var gender := Get(entdata, SEX_OR_GENDER);
      if gender.Some? {
        g := Put(g, ent, gender.value);
      }
      var occupation := Get(entdata, OCCUPATION);
      if occupation.Some? {
        o := Put(o, ent, occupation.value);
      }
    }
    assert data[..|data|] == data;
  }

  // ---------------------------------------------------------------------
  // Occupation triples

  /** One `[ent, "P106", occ]` per entry of `occupations`, in its order. */
  function OccTriples(occupations: Dict<string>): (r: seq<Triple>)
    ensures |r| == |occupations|
  {
    seq(|occupations|, i requires 0 <= i < |occupations| => (occupations[i].0, OCCUPATION, occupations[i].1))
  }

  method MakeOccTriples(occupations: Dict<string>) returns (triples: seq<Triple>)
    ensures triples == OccTriples(occupations)
  {
    triples := [];
    for i := 0 to |occupations|
      invariant triples == OccTriples(occupations[..i])
    {
      triples := triples + [(occupations[i].0, OCCUPATION, occupations[i].1)];
    }
    assert occupations[..|occupations|] == occupations;
  }

  /** The triples state exactly the occupations. */
  lemma OccTriplesMeaning(occupations: Dict<string>, t: Triple)
    requires Distinct(Keys(occupations))
    ensures t in OccTriples(occupations) <==> t.1 == OCCUPATION && Get(occupations, t.0) == Some(t.2)
  {
    var r := OccTriples(occupations);
    if t in r {
      var i :| 0 <= i < |r| && r[i] == t;
      GetAt(occupations, i);
    }
    if t.1 == OCCUPATION && Get(occupations, t.0) == Some(t.2) {
      GetMeaning(occupations, t.0);
      var i :| 0 <= i < |occupations| && occupations[i] == (t.0, t.2);
      assert r[i] == t;
    }
  }

  /** No entity gets two occupation triples. */
  lemma OccTriplesDistinct(occupations: Dict<string>)
    requires Distinct(Keys(occupations))
    ensures forall i, j :: 0 <= i < j < |occupations| ==> OccTriples(occupations)[i].0 != OccTriples(occupations)[j].0
  {
    forall i, j | 0 <= i < j < |occupations|
      ensures OccTriples(occupations)[i].0 != OccTriples(occupations)[j].0
    {
      assert Keys(occupations)[i] != Keys(occupations)[j];
    }
  }

  // ---------------------------------------------------------------------
  // The missing_women tally

  /** `set(occupations.values())`. */
  function Values(d: Dict<string>): set<string>
  {
    set i | 0 <= i < |d| :: d[i].1
  }

  /** An entry whose occupation is `occupation` and whose entity has gender
      `gender`. */
  function Holder(genders: Dict<string>, occupation: string, gender: string): ((string, string)) -> bool
  {
    (x: (string, string)) => x.1 == occupation && Get(genders, x.0) == Some(gender)
  }

  /** Men minus women among the holders of an occupation. */
  function Balance(occupations: Dict<string>, genders: Dict<string>, occupation: string): int
  {
    CountIf(occupations, Holder(genders, occupation, MALE)) - CountIf(occupations, Holder(genders, occupation, FEMALE))
  }

  /** What one entry adds to its occupation's count. */
  function Delta(gender: Option<string>): int
  {
    if gender == Some(MALE) then 1 else if gender == Some(FEMALE) then -1 else 0
  }

  /** Visiting one more entry changes only its own occupation's balance,
      by its holder's delta. */
  lemma BalanceStep(occupations: Dict<string>, genders: Dict<string>, i: nat, occupation: string)
    requires i < |occupations|
    ensures Balance(occupations[..i + 1], genders, occupation) ==
      Balance(occupations[..i], genders, occupation) +
      (if occupations[i].1 == occupation then Delta(Get(genders, occupations[i].0)) else 0)
  {
    assert occupations[..i + 1][..i] == occupations[..i];
  }

  /** `missing_women`: every occupation held by someone starts at 0, each
      male holder adds one and each female holder takes one away, so the
      final count of an occupation is its men minus its women. */
  method MissingWomen(occupations: Dict<string>, genders: Dict<string>) returns (missing: map<string, int>)
    ensures missing.Keys == Values(occupations)
    ensures forall occ :: occ in missing ==> missing[occ] == Balance(occupations, genders, occ)
  {
    missing := map occ | occ in Values(occupations) :: 0;
    for i := 0 to |occupations|
      invariant missing.Keys == Values(occupations)
      invariant forall occ :: occ in missing ==> missing[occ] == Balance(occupations[..i], genders, occ)
    {
      var (ent, occ) := occupations[i];
      assert occ in Values(occupations);
      forall o | o in missing
        ensures Balance(occupations[..i + 1], genders, o) ==
          Balance(occupations[..i], genders, o) + (if o == occ then Delta(Get(genders, ent)) else 0)
      {
        BalanceStep(occupations, genders, i, o);
      }
      var gender := Get(genders, ent);
      if gender == Some(MALE) {
        missing := missing[occ := missing[occ] + 1];
      } else if gender == Some(FEMALE) {
        missing := missing[occ := missing[occ] - 1];
      }
    }
    assert occupations[..|occupations|] == occupations;
  }

  // ---------------------------------------------------------------------
  // Extra women

  /** `genders` and `occupations` after the loop over the extra triples:
      each occupation triple marks its subject female and records its
      object as the subject's occupation. */
  function AddExtra(extra: seq<Triple>, genders: Dict<string>, occupations: Dict<string>): (Dict<string>, Dict<string>)
  {
    if extra == [] then (genders, occupations)
    else
      var (g, o) := AddExtra(extra[..|extra| - 1], genders, occupations);
      var t := extra[|extra| - 1];
      if t.1 == OCCUPATION then (Put(g, t.0, FEMALE), Put(o, t.0, t.2)) else (g, o)
  }

  method AddExtraWomen(extra: seq<Triple>, genders: Dict<string>, occupations: Dict<string>)
    returns (g: Dict<string>, o: Dict<string>)
    ensures (g, o) == AddExtra(extra, genders, occupations)
  {
    g, o := genders, occupations;
    for i := 0 to |extra|
      invariant (g, o) == AddExtra(extra[..i], genders, occupations)
    {
      assert extra[..i + 1][..i] == extra[..i];
      var (s, p, obj) := extra[i];
      if p == OCCUPATION {
        g := Put(g, s, FEMALE);
        o := Put(o, s, obj);
      }
    }
    assert extra[..|extra|] == extra;
  }

  /** The subject of an occupation triple ends up female, with the object
      of its last occupation triple as occupation. */
  lemma {:induction false} ExtraLast(extra: seq<Triple>, genders: Dict<string>, occupations: Dict<string>, i: nat)
    requires i < |extra| && extra[i].1 == OCCUPATION
    requires forall j :: i < j < |extra| && extra[j].1 == OCCUPATION ==> extra[j].0 != extra[i].0
    ensures Get(AddExtra(extra, genders, occupations).0, extra[i].0) == Some(FEMALE)
    ensures Get(AddExtra(extra, genders, occupations).1, extra[i].0) == Some(extra[i].2)
  {
    if i < |extra| - 1 {
      var init := extra[..|extra| - 1];
      assert init[i] == extra[i];
      ExtraLast(init, genders, occupations, i);
    }
  }

  /** Everybody else keeps their gender and occupation. */
  lemma {:induction false} ExtraUntouched(extra: seq<Triple>, genders: Dict<string>, occupations: Dict<string>, s: string)
    requires forall j :: 0 <= j < |extra| && extra[j].1 == OCCUPATION ==> extra[j].0 != s
    ensures Get(AddExtra(extra, genders, occupations).0, s) == Get(genders, s)
    ensures Get(AddExtra(extra, genders, occupations).1, s) == Get(occupations, s)
  {
    if extra != [] {
      var init := extra[..|extra| - 1];
      assert forall j :: 0 <= j < |init| ==> init[j] == extra[j];
      ExtraUntouched(init, genders, occupations, s);
    }
  }
}
