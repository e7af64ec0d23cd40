/** The bookkeeping of analyzer/code/extend_dbpedia.py: turning entity
    URIs into the labels a DBpedia query asks for, collecting the query
    results, fetching metadata in batches of 100, looking people up on
    Wikidata in batches of 50, the per occupation men-minus-women
    balance, the first-type occupation triples, and grouping the
    predicates 18 at a time.

    Every HTTP request is a parameter: `answer` gives the result bindings
    of a DBpedia query for a comma-joined label list, and `respond` the
    "entities" object of a Wikidata answer for a list of ids. */
module ExtendDbpedia {
  import opened Common
  import opened Record
  import opened Text
  import opened Batching
  import opened AnalyzerHelper
  import opened ExtendWikidata

  const RESOURCE_SEP := "/resource/"
  const ENTITY_SEP := "/entity/"
  const ONTOLOGY_SEP := "/ontology/"
  const PROPERTY_SEP := "/property/"
  const RESOURCE_URL := "http://dbpedia.org/resource/"
  const DB_OCCUPATION := "db_occupation"
  const PERSON := "Person"

  /** How many OPTIONAL clauses one predicate query holds. */
  const PRED_GROUP: nat := 18

  // ---------------------------------------------------------------------
  // Labels (call_dbpedia_query)

  /** `entity.split("/resource/").pop().replace("_", " ")`. */
  function EntityLabel(uri: string): (r: string)
    ensures |r| <= |uri|
  {
    Replace(SplitLast(uri, RESOURCE_SEP), '_', ' ')
  }

  /** The label is the text after the last "/resource/" (the whole URI when
      there is none): that text ends the URI and holds no "/resource/", and
      when the URI holds one, a "/resource/" stands right before it. */
  lemma LabelSource(uri: string)
    ensures |EntityLabel(uri)| == |SplitLast(uri, RESOURCE_SEP)|
    ensures uri[|uri| - |EntityLabel(uri)|..] == SplitLast(uri, RESOURCE_SEP)
    ensures Find(SplitLast(uri, RESOURCE_SEP), RESOURCE_SEP).None?
    ensures Find(uri, RESOURCE_SEP).None? ==> |EntityLabel(uri)| == |uri|
    ensures Find(uri, RESOURCE_SEP).Some? ==>
      OccursAt(uri, RESOURCE_SEP, |uri| - |EntityLabel(uri)| - |RESOURCE_SEP|)
  {
    SplitLastIsSuffix(uri, RESOURCE_SEP);
    SplitLastHasNoSeparator(uri, RESOURCE_SEP);
    if Find(uri, RESOURCE_SEP).Some? {
      SplitLastFollowsSeparator(uri, RESOURCE_SEP);
    }
  }

  /** Each character of the label is the URI's character at the same place
      from the end, with an underscore turned into a space; so no
      underscore is left. */
  lemma LabelChars(uri: string, i: nat)
    requires i < |EntityLabel(uri)|
    ensures |uri| - |EntityLabel(uri)| + i < |uri|
    ensures EntityLabel(uri)[i] ==
      if uri[|uri| - |EntityLabel(uri)| + i] == '_' then ' ' else uri[|uri| - |EntityLabel(uri)| + i]
    ensures EntityLabel(uri)[i] != '_'
  {
    SplitLastIsSuffix(uri, RESOURCE_SEP);
    var t := SplitLast(uri, RESOURCE_SEP);
    assert uri[|uri| - |t| + i] == t[i];
  }

  /** `f'"{x}"@en'`. */
  function Quoted(name: string): string
  {
    "\"" + name + "\"@en"
  }

  /** The quoted labels of a query group, in order. */
  function QuotedLabels(entities: seq<string>): (r: seq<string>)
    ensures |r| == |entities|
  {
    seq(|entities|, i requires 0 <= i < |entities| => Quoted(EntityLabel(entities[i])))
  }

  /** `ent_string`, before URL quoting: the quoted labels joined by commas. */
  function LabelList(entities: seq<string>): string
  {
    Join(QuotedLabels(entities), ',')
  }

  /** The loop that converts a query group to labels, then the join. */
  method QueryLabels(entities: seq<string>) returns (entString: string)
    ensures entString == LabelList(entities)
  {
    var entStrings: seq<string> := [];
    for i := 0 to |entities|
      invariant |entStrings| == i
      invariant forall j :: 0 <= j < i ==> entStrings[j] == EntityLabel(entities[j])
    {
      var ent := SplitLast(entities[i], RESOURCE_SEP);
      ent := Replace(ent, '_', ' ');
      entStrings := entStrings + [ent];
    }
    var quoted := seq(|entStrings|, i requires 0 <= i < |entStrings| => Quoted(entStrings[i]));
    assert quoted == QuotedLabels(entities);
    entString := Join(quoted, ',');
  }

  /** When no URI holds a comma, the label list splits back at its commas
      into one quoted label per entity, in order. */
  lemma LabelListSplits(entities: seq<string>)
    requires |entities| >= 1
    requires forall i :: 0 <= i < |entities| ==> ',' !in entities[i]
    ensures Split(LabelList(entities), ',') == QuotedLabels(entities)
  {
    var qs := QuotedLabels(entities);
    forall i | 0 <= i < |qs| ensures ',' !in qs[i] {
      var e := entities[i];
      var r := EntityLabel(e);
      forall j | 0 <= j < |r| ensures r[j] != ',' {
        LabelChars(e, j);
        assert e[|e| - |r| + j] in e;
      }
      assert qs[i] == "\"" + r + "\"@en";
    }
    SplitJoin(qs, ',');
  }

  // ---------------------------------------------------------------------
  // Query results (call_dbpedia_query)

  /** `{k: v["value"] for k, v in result.items()}`. */
  function Person(binding: Dict<Dict<string>>): (r: Result<Dict<string>>)
    ensures r.Fail? ==> r.error == KeyError
  {
    if binding == [] then Ok([])
    else
      match Person(binding[..|binding| - 1])
      case Fail(e) => Fail(e)
      case Ok(p) =>
        var x := binding[|binding| - 1];
        match Get(x.1, "value")
        case None => Fail(KeyError)
        case Some(v) => Ok(Put(p, x.0, v))
  }

  /** A binding converts when every variable carries a "value"; the person
      then maps each variable to that value. */
  lemma {:induction false} PersonMeaning(binding: Dict<Dict<string>>, k: string)
    requires Distinct(Keys(binding))
    ensures Person(binding).Ok? <==> forall i :: 0 <= i < |binding| ==> Get(binding[i].1, "value").Some?
    ensures Person(binding).Ok? ==>
      Get(Person(binding).value, k) == (match Get(binding, k) case None => None case Some(b) => Get(b, "value"))
  {
    if binding != [] {
      var init, x := binding[..|binding| - 1], binding[|binding| - 1];
      assert binding == init + [x];
      DistinctInit(binding);
      PersonMeaning(init, k);
      assert forall i :: 0 <= i < |init| ==> init[i] == binding[i];
      GetSnoc(init, x, k);
    }
  }

  /** The id a binding files its person under. */
  function IdOf(binding: Dict<Dict<string>>): Option<string>
  {
    match Person(binding)
    case Fail(_) => None
    case Ok(p) => Get(p, "id")
  }

  /** `results[person["id"]] = person` for one binding. */
  function AddResult(acc: Dict<Dict<string>>, binding: Dict<Dict<string>>): (r: Result<Dict<Dict<string>>>)
    ensures r.Ok? <==> IdOf(binding).Some?
    ensures r.Fail? ==> r.error == KeyError
    ensures r.Ok? ==> r.value == Put(acc, IdOf(binding).value, Person(binding).value)
  {
    match Person(binding)
    case Fail(e) => Fail(e)
    case Ok(p) =>
      match Get(p, "id")
      case None => Fail(KeyError)
      case Some(id) => Ok(Put(acc, id, p))
  }

  /** `results` after the loop over the bindings. */
  function Results(bindings: seq<Dict<Dict<string>>>): (r: Result<Dict<Dict<string>>>)
    ensures r.Fail? ==> r.error == KeyError
  {
    if bindings == [] then Ok([])
    else
      match Results(bindings[..|bindings| - 1])
      case Fail(e) => Fail(e)
      case Ok(acc) => AddResult(acc, bindings[|bindings| - 1])
  }

  lemma {:induction false} ResultsFailPersists(bindings: seq<Dict<Dict<string>>>, n: nat)
    requires n <= |bindings| && Results(bindings[..n]).Fail?
    ensures Results(bindings) == Results(bindings[..n])
    decreases |bindings| - n
  {
    if n < |bindings| {
      var t := bindings[..|bindings| - 1];
      assert t[..n] == bindings[..n];
      ResultsFailPersists(t, n);
    } else {
      assert bindings[..n] == bindings;
    }
  }

  lemma ResultsStep(bindings: seq<Dict<Dict<string>>>)
    requires bindings != []
    ensures Results(bindings).Ok? <==>
      Results(bindings[..|bindings| - 1]).Ok? && IdOf(bindings[|bindings| - 1]).Some?
  {
  }

  /** The results are built unless some binding lacks a value or an id. */
  lemma {:induction false} ResultsOk(bindings: seq<Dict<Dict<string>>>)
    ensures Results(bindings).Ok? <==> forall i :: 0 <= i < |bindings| ==> IdOf(bindings[i]).Some?
  {
    if bindings != [] {
      var init := bindings[..|bindings| - 1];
      ResultsOk(init);
      ResultsStep(bindings);
      if Results(bindings).Ok? {
        assert Results(init).Ok? && IdOf(bindings[|bindings| - 1]).Some?;
        forall i | 0 <= i < |bindings| ensures IdOf(bindings[i]).Some? {
          if i < |init| {
            assert init[i] == bindings[i];
            assert IdOf(init[i]).Some?;
          } else {
            assert i == |bindings| - 1;
          }
        }
      }
    }
  }

  /** A person is filed under its id, and a later binding with the same id
      replaces an earlier one. */
  lemma {:induction false} ResultsLast(bindings: seq<Dict<Dict<string>>>, i: nat)
    requires Results(bindings).Ok? && i < |bindings|
    requires forall j :: i < j < |bindings| ==> IdOf(bindings[j]) != IdOf(bindings[i])
    ensures Person(bindings[i]).Ok? && IdOf(bindings[i]).Some?
    ensures Get(Results(bindings).value, IdOf(bindings[i]).value) == Some(Person(bindings[i]).value)
  {
    var init := bindings[..|bindings| - 1];
    if i < |init| {
      assert init[i] == bindings[i];
      ResultsLast(init, i);
    }
  }

  /** The loop over the bindings of one DBpedia answer. */
  method CollectResults(bindings: seq<Dict<Dict<string>>>) returns (r: Result<Dict<Dict<string>>>)
    ensures r == Results(bindings)
  {
    var results: Dict<Dict<string>> := [];
    for i := 0 to |bindings|
      invariant Results(bindings[..i]) == Ok(results)
    {
      assert bindings[..i + 1][..i] == bindings[..i];
      var person := Person(bindings[i]);
      if person.Fail? {
        ResultsFailPersists(bindings, i + 1);
        return Fail(person.error);
      }
      var id := Get(person.value, "id");
      if id.None? {
        ResultsFailPersists(bindings, i + 1);
        return Fail(KeyError);
      }
      results := Put(results, id.value, person.value);
    }
    assert bindings[..|bindings|] == bindings;
    r := Ok(results);
  }

  // ---------------------------------------------------------------------
  // Fetching metadata in batches of 100

  function Keep(p: Dict<string>): Dict<string>
  {
    p
  }

  /** `entity_data` after the queries for `groups`: each answer's results
      are merged in with `update`. */
  function Fetched(groups: seq<seq<string>>, answer: string -> seq<Dict<Dict<string>>>): Result<Dict<Dict<string>>>
  {
    if groups == [] then Ok([])
    else
      match Fetched(groups[..|groups| - 1], answer)
      case Fail(e) => Fail(e)
      case Ok(acc) =>
        match Results(answer(LabelList(groups[|groups| - 1])))
        case Fail(e) => Fail(e)
        case Ok(result) => Ok(PutAll(result, Keep, acc))
  }

  lemma {:induction false} FetchedFailPersists(groups: seq<seq<string>>, n: nat, answer: string -> seq<Dict<Dict<string>>>)
    requires n <= |groups| && Fetched(groups[..n], answer).Fail?
    ensures Fetched(groups, answer) == Fetched(groups[..n], answer)
    decreases |groups| - n
  {
    if n < |groups| {
      var t := groups[..|groups| - 1];
      assert t[..n] == groups[..n];
      FetchedFailPersists(t, n, answer);
    } else {
      assert groups[..n] == groups;
    }
  }

  /** Once a query fails, the metadata fetch fails with its error. */
  lemma FetchStops(entities: seq<string>, answer: string -> seq<Dict<Dict<string>>>, i: nat, sent: seq<seq<string>>)
    requires i <= |entities| && Run(entities, DBPEDIA_BATCH, i).0 == sent
    requires Fetched(sent, answer).Fail?
    ensures Fetched(Groups(entities, DBPEDIA_BATCH), answer) == Fetched(sent, answer)
  {
    var groups := Groups(entities, DBPEDIA_BATCH);
    RunGrows(entities, DBPEDIA_BATCH, i, |entities|);
    assert groups[..|sent|] == sent;
    FetchedFailPersists(groups, |sent|, answer);
  }

  /** The loop over the entities: a query is sent when the group holds 100
      entities or the last entity has been added. */
  method FetchMetadata(entities: seq<string>, answer: string -> seq<Dict<Dict<string>>>)
    returns (r: Result<Dict<Dict<string>>>)
    ensures r == Fetched(Groups(entities, DBPEDIA_BATCH), answer)
  {
    var entityData: Dict<Dict<string>> := [];
    var queryGroup: seq<string> := [];
    ghost var sent: seq<seq<string>> := [];
    for i := 0 to |entities|
      invariant (sent, queryGroup) == Run(entities, DBPEDIA_BATCH, i)
      invariant Fetched(sent, answer) == Ok(entityData)
    {
      queryGroup := queryGroup + [entities[i]];
      if i == |entities| - 1 || |queryGroup| == DBPEDIA_BATCH {
        assert (sent + [queryGroup])[..|sent|] == sent;
        var entString := QueryLabels(queryGroup);
        var result := CollectResults(answer(entString));
        assert Run(entities, DBPEDIA_BATCH, i + 1).0 == sent + [queryGroup];
        if result.Fail? {
          assert Fetched(sent + [queryGroup], answer) == Fail(result.error);
          FetchStops(entities, answer, i + 1, sent + [queryGroup]);
          return Fail(result.error);
        }
        assert Fetched(sent + [queryGroup], answer) == Ok(PutAll(result.value, Keep, entityData));
        entityData := PutAll(result.value, Keep, entityData);
        sent := sent + [queryGroup];
        queryGroup := [];
      }
    }
    r := Ok(entityData);
  }

  /** `"wdLink" in v`. */
  function HasLink(x: (string, Dict<string>)): bool
  {
    Get(x.1, "wdLink").Some?
  }

  /** `linked_to_wd`: the people DBpedia links to Wikidata, in order. */
  function Linked(entityData: Dict<Dict<string>>): Dict<Dict<string>>
  {
    Filter(entityData, HasLink)
  }

  lemma LinkedMeaning(entityData: Dict<Dict<string>>, x: (string, Dict<string>))
    ensures x in Linked(entityData) <==> x in entityData && Get(x.1, "wdLink").Some?
    ensures IsSubsequence(Linked(entityData), entityData)
  {
    if x in entityData && HasLink(x) {
      FilterKeeps(entityData, HasLink, x);
    }
    FilterIsSubsequence(entityData, HasLink);
  }

  // ---------------------------------------------------------------------
  // lookup_wd_occ_gender

  /** `dbpedia_ent["wdLink"].split("/entity/").pop()`. */
  function WdId(person: Dict<string>): (r: Result<string>)
    ensures r.Fail? ==> r.error == KeyError
  {
    match Get(person, "wdLink")
    case None => Fail(KeyError)
    case Some(link) => Ok(SplitLast(link, ENTITY_SEP))
  }

  /** `if pred in entdata: d[wd_db_map[ent]] = entdata[pred]` over one
      answer. */
  function MapInto(data: Dict<Dict<string>>, pred: string, wdToDb: Dict<string>, d: Dict<string>): (r: Result<Dict<string>>)
    ensures r.Fail? ==> r.error == KeyError
  {
    if data == [] then Ok(d)
    else
      match MapInto(data[..|data| - 1], pred, wdToDb, d)
      case Fail(e) => Fail(e)
      case Ok(m) =>
        var x := data[|data| - 1];
        match Get(x.1, pred)
        case None => Ok(m)
        case Some(v) =>
          match Get(wdToDb, x.0)
          case None => Fail(KeyError)
          case Some(db) => Ok(Put(m, db, v))
  }

  /** An answered entity whose row holds the predicate must be in the map. */
  predicate Mapped(x: (string, Dict<string>), pred: string, wdToDb: Dict<string>)
  {
    Get(x.1, pred).Some? ==> Get(wdToDb, x.0).Some?
  }

  lemma MapIntoStep(data: Dict<Dict<string>>, pred: string, wdToDb: Dict<string>, d: Dict<string>)
    requires data != []
    ensures MapInto(data, pred, wdToDb, d).Ok? <==>
      MapInto(data[..|data| - 1], pred, wdToDb, d).Ok? && Mapped(data[|data| - 1], pred, wdToDb)
  {
  }

  lemma {:induction false} MapIntoOkAll(data: Dict<Dict<string>>, pred: string, wdToDb: Dict<string>, d: Dict<string>)
    requires MapInto(data, pred, wdToDb, d).Ok?
    ensures forall i :: 0 <= i < |data| ==> Mapped(data[i], pred, wdToDb)
  {
    if data != [] {
      var init := data[..|data| - 1];
      MapIntoStep(data, pred, wdToDb, d);
      MapIntoOkAll(init, pred, wdToDb, d);
      assert Mapped(data[|data| - 1], pred, wdToDb);
      forall i | 0 <= i < |data| ensures Mapped(data[i], pred, wdToDb) {
        if i < |init| {
          assert init[i] == data[i];
          assert Mapped(init[i], pred, wdToDb);
        } else {
          assert i == |data| - 1;
        }
      }
    }
  }

  lemma {:induction false} MapIntoAllOk(data: Dict<Dict<string>>, pred: string, wdToDb: Dict<string>, d: Dict<string>)
    requires forall i :: 0 <= i < |data| ==> Mapped(data[i], pred, wdToDb)
    ensures MapInto(data, pred, wdToDb, d).Ok?
  {
    if data != [] {
      var init := data[..|data| - 1];
      forall i | 0 <= i < |init| ensures Mapped(init[i], pred, wdToDb) {
        assert init[i] == data[i];
      }
      MapIntoAllOk(init, pred, wdToDb, d);
      MapIntoStep(data, pred, wdToDb, d);
    }
  }

  /** Merging succeeds exactly when every answered entity that holds the
      predicate has a DBpedia id. */
  lemma MapIntoOk(data: Dict<Dict<string>>, pred: string, wdToDb: Dict<string>, d: Dict<string>)
    ensures MapInto(data, pred, wdToDb, d).Ok? <==> forall i :: 0 <= i < |data| ==> Mapped(data[i], pred, wdToDb)
  {
    if MapInto(data, pred, wdToDb, d).Ok? {
      MapIntoOkAll(data, pred, wdToDb, d);
    }
    if forall i :: 0 <= i < |data| ==> Mapped(data[i], pred, wdToDb) {
      MapIntoAllOk(data, pred, wdToDb, d);
    }
  }

  /** A DBpedia person gets the value of the last answered entity that
      maps to it and holds the predicate. */
  lemma {:induction false} MapIntoLast(data: Dict<Dict<string>>, pred: string, wdToDb: Dict<string>, d: Dict<string>, i: nat)
    requires MapInto(data, pred, wdToDb, d).Ok? && i < |data|
    requires Get(data[i].1, pred).Some? && Get(wdToDb, data[i].0).Some?
    requires forall j :: i < j < |data| && Get(data[j].1, pred).Some? ==> Get(wdToDb, data[j].0) != Get(wdToDb, data[i].0)
    ensures Get(MapInto(data, pred, wdToDb, d).value, Get(wdToDb, data[i].0).value) == Get(data[i].1, pred)
  {
    var init, last := data[..|data| - 1], data[|data| - 1];
    MapIntoStep(data, pred, wdToDb, d);
    if i < |init| {
      assert init[i] == data[i];
      forall j | i < j < |init| && Get(init[j].1, pred).Some?
        ensures Get(wdToDb, init[j].0) != Get(wdToDb, init[i].0)
      {
        assert init[j] == data[j];
      }
      MapIntoLast(init, pred, wdToDb, d, i);
      if Get(last.1, pred).Some? {
        assert Get(wdToDb, last.0) != Get(wdToDb, data[i].0);
      }
    }
  }

  /** Both dictionaries after one answer. Every failure is a `KeyError`,
      so it does not matter which of the two assignments raises first. */
  function MergeMapped(data: Dict<Dict<string>>, wdToDb: Dict<string>, genders: Dict<string>, occupations: Dict<string>)
    : Result<(Dict<string>, Dict<string>)>
  {
    match MapInto(data, SEX_OR_GENDER, wdToDb, genders)
    case Fail(e) => Fail(e)
    case Ok(g) =>
      match MapInto(data, OCCUPATION, wdToDb, occupations)
      case Fail(e) => Fail(e)
      case Ok(o) => Ok((g, o))
  }

  /** The state of the loop of `lookup_wd_occ_gender`: the three
      dictionaries, the open query group, and the groups sent so far. */
  datatype Lookup = Lookup(genders: Dict<string>, occupations: Dict<string>, wdToDb: Dict<string>,
                           group: seq<string>, sent: seq<seq<string>>)

  /** One turn of the loop, for person `j`: map its Wikidata id to its
      DBpedia id, add the id to the open group, and query and merge when
      the group is full or the person is the last one. */
  function LookupStep(people: Dict<Dict<string>>, answer: seq<string> -> Result<Dict<Dict<string>>>, st: Lookup, j: nat): Result<Lookup>
    requires j < |people|
  {
    var person := people[j].1;
    match WdId(person)
    case Fail(e) => Fail(e)
    case Ok(wd) =>
      match Get(person, "id")
      case None => Fail(KeyError)
      case Some(id) =>
        var m := Put(st.wdToDb, wd, id);
        var g := st.group + [wd];
        if j == |people| - 1 || |g| == WIKIDATA_BATCH then
          match answer(g)
          case Fail(e) => Fail(e)
          case Ok(data) =>
            match MergeMapped(data, m, st.genders, st.occupations)
            case Fail(e) => Fail(e)
            case Ok(merged) => Ok(Lookup(merged.0, merged.1, m, [], st.sent + [g]))
        else Ok(Lookup(st.genders, st.occupations, m, g, st.sent))
  }

  /** The loop's state after the first `i` people. */
  function LookupRun(people: Dict<Dict<string>>, answer: seq<string> -> Result<Dict<Dict<string>>>, start: Lookup, i: nat): Result<Lookup>
    requires i <= |people|
  {
    if i == 0 then Ok(start)
    else
      match LookupRun(people, answer, start, i - 1)
      case Fail(e) => Fail(e)
      case Ok(st) => LookupStep(people, answer, st, i - 1)
  }

  /** A step that succeeds had a "wdLink" and an "id", and adds the
      Wikidata id to the query groups the way the shared batching rule
      does. */
  lemma LookupStepBatches(people: Dict<Dict<string>>, answer: seq<string> -> Result<Dict<Dict<string>>>, start: Lookup, k: nat)
    requires k < |people| && LookupRun(people, answer, start, k + 1).Ok?
    requires LookupRun(people, answer, start, k).Ok? ==>
      (LookupRun(people, answer, start, k).value.sent, LookupRun(people, answer, start, k).value.group)
      == Run(Links(people), WIKIDATA_BATCH, k)
    ensures LookupRun(people, answer, start, k).Ok?
    ensures HasLink(people[k]) && Get(people[k].1, "id").Some?
    ensures (LookupRun(people, answer, start, k + 1).value.sent, LookupRun(people, answer, start, k + 1).value.group)
      == Run(Links(people), WIKIDATA_BATCH, k + 1)
  {
    assert Links(people)[k] == LinkOf(people[k].1);
  }

  /** A run that gets through `j` people got through each shorter prefix. */
  lemma LookupOkBefore(people: Dict<Dict<string>>, answer: seq<string> -> Result<Dict<Dict<string>>>, start: Lookup, i: nat, j: nat)
    requires i <= j <= |people| && LookupRun(people, answer, start, j).Ok?
    ensures LookupRun(people, answer, start, i).Ok?
  {
    if LookupRun(people, answer, start, i).Fail? {
      LookupFailPersists(people, answer, start, i, j);
    }
  }

  lemma LookupFailStep(people: Dict<Dict<string>>, answer: seq<string> -> Result<Dict<Dict<string>>>, start: Lookup, i: nat)
    requires i < |people| && LookupRun(people, answer, start, i).Fail?
    ensures LookupRun(people, answer, start, i + 1) == LookupRun(people, answer, start, i)
  {
  }

  lemma LookupFailPersists(people: Dict<Dict<string>>, answer: seq<string> -> Result<Dict<Dict<string>>>, start: Lookup, i: nat, j: nat)
    requires i <= j <= |people| && LookupRun(people, answer, start, i).Fail?
    ensures LookupRun(people, answer, start, j) == LookupRun(people, answer, start, i)
  {
    var k := i;
    while k < j
      invariant i <= k <= j
      invariant LookupRun(people, answer, start, k) == LookupRun(people, answer, start, i)
    {
      LookupFailStep(people, answer, start, k);
      k := k + 1;
    }
  }

  /** The Wikidata id of a linked person. */
  function LinkOf(person: Dict<string>): string
  {
    SplitLast(GetOr(person, "wdLink", ""), ENTITY_SEP)
  }

  /** The Wikidata ids of the people, in order. */
  function Links(people: Dict<Dict<string>>): (r: seq<string>)
    ensures |r| == |people|
  {
    seq(|people|, j requires 0 <= j < |people| => LinkOf(people[j].1))
  }

  /** The loop batches the Wikidata ids exactly as the shared batching
      rule does with groups of 50. */
  lemma LookupBatches(people: Dict<Dict<string>>, answer: seq<string> -> Result<Dict<Dict<string>>>, start: Lookup, i: nat)
    requires i <= |people| && start.group == [] && start.sent == []
    requires LookupRun(people, answer, start, i).Ok?
    ensures (LookupRun(people, answer, start, i).value.sent, LookupRun(people, answer, start, i).value.group)
      == Run(Links(people), WIKIDATA_BATCH, i)
  {
    var k := 0;
    while k < i
      invariant k <= i && LookupRun(people, answer, start, k).Ok?
      invariant (LookupRun(people, answer, start, k).value.sent, LookupRun(people, answer, start, k).value.group)
        == Run(Links(people), WIKIDATA_BATCH, k)
    {
      LookupOkBefore(people, answer, start, k + 1, i);
      LookupStepBatches(people, answer, start, k);
      k := k + 1;
    }
  }

  /** When the look-up finishes, every linked person's Wikidata id has
      been asked for exactly once, in order, at most 50 per query. */
  lemma LookupQueriesAll(people: Dict<Dict<string>>, answer: seq<string> -> Result<Dict<Dict<string>>>, start: Lookup)
    requires start.group == [] && start.sent == []
    requires LookupRun(people, answer, start, |people|).Ok?
    ensures Concat(LookupRun(people, answer, start, |people|).value.sent) == Links(people)
    ensures forall k :: 0 <= k < |LookupRun(people, answer, start, |people|).value.sent| ==>
      1 <= |LookupRun(people, answer, start, |people|).value.sent[k]| <= WIKIDATA_BATCH
  {
    LookupBatches(people, answer, start, |people|);
    GroupsMeaning(Links(people), WIKIDATA_BATCH);
  }

  /** `call_wikidata_api(ids, ["P106", "P21"])`, given the "entities"
      object Wikidata answers for the ids. */
  function WikidataApi(respond: seq<string> -> Dict<Entity>): seq<string> -> Result<Dict<Dict<string>>>
  {
    (ids: seq<string>) => Response(respond(ids), QUERIED)
  }

  /** What `lookup_wd_occ_gender` returns when it does not raise. */
  function Outcome(r: Result<Lookup>): Result<(Dict<string>, Dict<string>, Dict<string>)>
  {
    match r
    case Fail(e) => Fail(e)
    case Ok(st) => Ok((st.genders, st.occupations, st.wdToDb))
  }

  /** `lookup_wd_occ_gender` without its on-disk cache. */
  method LookupOccGender(people: Dict<Dict<string>>, genders: Dict<string>, occupations: Dict<string>,
                         wdToDb: Dict<string>, respond: seq<string> -> Dict<Entity>)
    returns (r: Result<(Dict<string>, Dict<string>, Dict<string>)>)
    ensures r == Outcome(LookupRun(people, WikidataApi(respond), Lookup(genders, occupations, wdToDb, [], []), |people|))
  {
    ghost var start := Lookup(genders, occupations, wdToDb, [], []);
    ghost var answer := WikidataApi(respond);
    var gs, os, wdDbMap := genders, occupations, wdToDb;
    var queryGroup: seq<string> := [];
    ghost var sent: seq<seq<string>> := [];
    for i := 0 to |people|
      invariant LookupRun(people, answer, start, i) == Ok(Lookup(gs, os, wdDbMap, queryGroup, sent))
    {
      var person := people[i].1;
      var wd := WdId(person);
      if wd.Fail? {
        LookupFailPersists(people, answer, start, i + 1, |people|);
        return Fail(wd.error);
      }
      var id := Get(person, "id");
      if id.None? {
        LookupFailPersists(people, answer, start, i + 1, |people|);
        return Fail(KeyError);
      }
      wdDbMap := Put(wdDbMap, wd.value, id.value);
      queryGroup := queryGroup + [wd.value];
      if i == |people| - 1 || |queryGroup| == WIKIDATA_BATCH {
        var result := FilterResponse(respond(queryGroup), QUERIED);
        if result.Fail? {
          LookupFailPersists(people, answer, start, i + 1, |people|);
          return Fail(result.error);
        }
        var merged := MergeIds(result.value, wdDbMap, gs, os);
        if merged.Fail? {
          LookupFailPersists(people, answer, start, i + 1, |people|);
          return Fail(merged.error);
        }
        gs, os := merged.value.0, merged.value.1;
        sent := sent + [queryGroup];
        queryGroup := [];
      }
    }
    r := Ok((gs, os, wdDbMap));
  }

  /** The inner loop over one Wikidata answer. */
  method MergeIds(data: Dict<Dict<string>>, wdToDb: Dict<string>, genders: Dict<string>, occupations: Dict<string>)
    returns (r: Result<(Dict<string>, Dict<string>)>)
    ensures r == MergeMapped(data, wdToDb, genders, occupations)
  {
    var g, o := genders, occupations;
    for i := 0 to |data|
      invariant MapInto(data[..i], SEX_OR_GENDER, wdToDb, genders) == Ok(g)
      invariant MapInto(data[..i], OCCUPATION, wdToDb, occupations) == Ok(o)
    {
      assert data[..i + 1][..i] == data[..i];
      var (ent, entdata) := data[i];
      var gender := Get(entdata, SEX_OR_GENDER);
      if gender.Some? {
        var db := Get(wdToDb, ent);
        if db.None? {
          MapIntoFailPersists(data, SEX_OR_GENDER, wdToDb, genders, i + 1);
          return Fail(KeyError);
        }
        g := Put(g, db.value, gender.value);
      }
      var occupation := Get(entdata, OCCUPATION);
      if occupation.Some? {
        var db := Get(wdToDb, ent);
        if db.None? {
          MapIntoFailPersists(data, OCCUPATION, wdToDb, occupations, i + 1);
          return Fail(KeyError);
        }
        o := Put(o, db.value, occupation.value);
      }
    }
    assert data[..|data|] == data;
    r := Ok((g, o));
  }

  lemma {:induction false} MapIntoFailPersists(data: Dict<Dict<string>>, pred: string, wdToDb: Dict<string>, d: Dict<string>, n: nat)
    requires n <= |data| && MapInto(data[..n], pred, wdToDb, d).Fail?
    ensures MapInto(data, pred, wdToDb, d).Fail?
    decreases |data| - n
  {
    if n < |data| {
      var t := data[..|data| - 1];
      assert t[..n] == data[..n];
      MapIntoFailPersists(t, pred, wdToDb, d, n);
    } else {
      assert data[..n] == data;
    }
  }

  // ---------------------------------------------------------------------
  // count_balance

  /** How many rows are about a holder of `occupation` whose gender is
      `gender`. */
  function Holders(rows: seq<Triple>, genderInfo: Dict<string>, occupation: string, gender: string): (n: nat)
    ensures n <= |rows|
  {
    if rows == [] then 0
    else
      var t := rows[|rows| - 1];
      Holders(rows[..|rows| - 1], genderInfo, occupation, gender) +
      (if t.2 == occupation && Get(genderInfo, t.0) == Some(gender) then 1 else 0)
  }

  /** `from_df.o.unique()`, as a set. */
  function Occupations(rows: seq<Triple>): set<string>
  {
    set i | 0 <= i < |rows| :: rows[i].2
  }

  lemma HoldersStep(rows: seq<Triple>, genderInfo: Dict<string>, i: nat, occupation: string, gender: string)
    requires i < |rows|
    ensures Holders(rows[..i + 1], genderInfo, occupation, gender) ==
      Holders(rows[..i], genderInfo, occupation, gender) +
      (if rows[i].2 == occupation && Get(genderInfo, rows[i].0) == Some(gender) then 1 else 0)
  {
    assert rows[..i + 1][..i] == rows[..i];
  }

  lemma ValueIn(d: Dict<string>, k: string)
    requires Get(d, k).Some?
    ensures Get(d, k).value in Values(d)
  {
    GetMeaning(d, k);
    var i :| 0 <= i < |d| && d[i] == (k, Get(d, k).value);
  }

  /** The counters after the first `i` rows: one per occupation in `occs`
      and gender value in `seen`, counting the holders among those rows. */
  predicate Counts(counters: map<string, map<string, int>>, occs: set<string>, seen: set<string>,
                   rows: seq<Triple>, genderInfo: Dict<string>, i: nat)
    requires i <= |rows|
  {
    counters.Keys == occs &&
    (forall occ :: occ in counters ==> counters[occ].Keys == seen) &&
    forall occ, g :: occ in counters && g in counters[occ] ==>
      counters[occ][g] == Holders(rows[..i], genderInfo, occ, g)
  }

  /** One row: `if row.o in occupation_genders and row.s in gender_info`,
      add one to the counter of the subject's gender (which is always one of
      the gender values, so always has a counter). */
  function Bump(counters: map<string, map<string, int>>, row: Triple, genderInfo: Dict<string>): map<string, map<string, int>>
  {
    var (s, _, o) := row;
    match Get(genderInfo, s)
    case None => counters
    case Some(g) =>
      if o in counters && g in counters[o] then counters[o := counters[o][g := counters[o][g] + 1]]
      else counters
  }

  /** Adding one to a single counter leaves every other counter and every
      key where it was. */
  lemma Increment(counters: map<string, map<string, int>>, o: string, g: string)
    requires o in counters && g in counters[o]
    ensures var next := counters[o := counters[o][g := counters[o][g] + 1]];
      next.Keys == counters.Keys &&
      (forall occ :: occ in next ==> next[occ].Keys == counters[occ].Keys) &&
      forall occ, h :: occ in next && h in next[occ] ==>
        next[occ][h] == counters[occ][h] + (if occ == o && h == g then 1 else 0)
  {
  }

  /** One row adds one to the counter of an occupation and gender exactly
      when it is about that occupation and its subject has that gender. */
  lemma BumpAt(counters: map<string, map<string, int>>, row: Triple, genderInfo: Dict<string>, occ: string, h: string)
    requires occ in counters && h in counters[occ]
    ensures var next := Bump(counters, row, genderInfo);
      occ in next && h in next[occ] &&
      next[occ][h] == counters[occ][h] + (if row.2 == occ && Get(genderInfo, row.0) == Some(h) then 1 else 0)
  {
  }

  /** One row adds no counter and removes none. */
  lemma BumpKeys(counters: map<string, map<string, int>>, row: Triple, genderInfo: Dict<string>)
    ensures var next := Bump(counters, row, genderInfo);
      next.Keys == counters.Keys && forall occ :: occ in next ==> next[occ].Keys == counters[occ].Keys
  {
    var (s, _, o) := row;
    var gender := Get(genderInfo, s);
    if gender.Some? && o in counters && gender.value in counters[o] {
      Increment(counters, o, gender.value);
    }
  }

  /** Row `i` keeps every counter equal to the number of holders so far. */
  lemma CountEntry(counters: map<string, map<string, int>>, occs: set<string>, seen: set<string>,
                   rows: seq<Triple>, genderInfo: Dict<string>, i: nat, occ: string, g: string)
    requires i < |rows| && Counts(counters, occs, seen, rows, genderInfo, i)
    requires occ in counters && g in counters[occ]
    ensures var next := Bump(counters, rows[i], genderInfo);
      occ in next && g in next[occ] && next[occ][g] == Holders(rows[..i + 1], genderInfo, occ, g)
  {
    HoldersStep(rows, genderInfo, i, occ, g);
    assert counters[occ][g] == Holders(rows[..i], genderInfo, occ, g);
    BumpAt(counters, rows[i], genderInfo, occ, g);
  }

  lemma CountStep(counters: map<string, map<string, int>>, occs: set<string>, seen: set<string>,
                  rows: seq<Triple>, genderInfo: Dict<string>, i: nat)
    requires i < |rows| && Counts(counters, occs, seen, rows, genderInfo, i)
    requires Get(genderInfo, rows[i].0).Some? ==> Get(genderInfo, rows[i].0).value in seen
    ensures Counts(Bump(counters, rows[i], genderInfo), occs, seen, rows, genderInfo, i + 1)
  {
    var next := Bump(counters, rows[i], genderInfo);
    BumpKeys(counters, rows[i], genderInfo);
    forall occ, g | occ in next && g in next[occ]
      ensures next[occ][g] == Holders(rows[..i + 1], genderInfo, occ, g)
    {
      CountEntry(counters, occs, seen, rows, genderInfo, i, occ, g);
    }
  }

  /** `occupation_genders`: for each occupation of the rows, a counter per
      gender value, counting the rows whose subject has that gender. */
  method CountGenders(rows: seq<Triple>, genderInfo: Dict<string>) returns (counters: map<string, map<string, int>>)
    ensures Counts(counters, Occupations(rows), Values(genderInfo), rows, genderInfo, |rows|)
  {
    var seen := Values(genderInfo);
    var occs := Occupations(rows);
    counters := map occ | occ in occs :: map g | g in seen :: 0;
    for i := 0 to |rows|
      invariant Counts(counters, occs, seen, rows, genderInfo, i)
    {
      if Get(genderInfo, rows[i].0).Some? {
        ValueIn(genderInfo, rows[i].0);
      }
      CountStep(counters, occs, seen, rows, genderInfo, i);
      counters := Bump(counters, rows[i], genderInfo);
    }
  }

  /** `count_balance`: men minus women per occupation of the rows, counting
      the rows whose subject has that gender. It raises `KeyError` when
      there is an occupation but the male or the female id is not among
      the gender values. */
  method CountBalance(rows: seq<Triple>, genderInfo: Dict<string>) returns (r: Result<map<string, int>>)
    ensures r.Ok? <==> Occupations(rows) == {} || (MALE in Values(genderInfo) && FEMALE in Values(genderInfo))
    ensures r.Fail? ==> r.error == KeyError
    ensures r.Ok? ==> r.value.Keys == Occupations(rows)
    ensures r.Ok? ==> forall occ :: occ in r.value ==>
      r.value[occ] == Holders(rows, genderInfo, occ, MALE) - Holders(rows, genderInfo, occ, FEMALE)
  {
    var counters := CountGenders(rows, genderInfo);
    assert rows[..|rows|] == rows;
    if counters.Keys != {} && !(MALE in Values(genderInfo) && FEMALE in Values(genderInfo)) {
      return Fail(KeyError);
    }
    r := Ok(map occ | occ in counters :: counters[occ][MALE] - counters[occ][FEMALE]);
  }

  // ---------------------------------------------------------------------
  // First-type occupations

  /** `[x.split("/ontology/").pop() for x in types.split(",")]`. */
  function TypeNames(types: string): (r: seq<string>)
    ensures |r| == |Split(types, ',')|
  {
    var parts := Split(types, ',');
    seq(|parts|, i requires 0 <= i < |parts| => SplitLast(parts[i], ONTOLOGY_SEP))
  }

  function NotPerson(t: string): bool
  {
    t != PERSON
  }

  /** The `db_occupation` triple of one linked person, if any. */
  function OccupationOf(person: Dict<string>): (r: Result<Option<Triple>>)
    ensures r.Fail? ==> r.error == KeyError
  {
    match Get(person, "types")
    case None => Fail(KeyError)
    case Some(types) =>
      var kept := Filter(TypeNames(types), NotPerson);
      if kept == [] then Ok(None)
      else
        match Get(person, "id")
        case None => Fail(KeyError)
        case Some(id) => Ok(Some((id, DB_OCCUPATION, RESOURCE_URL + kept[0])))
  }

  /** The triple uses the person's first type other than "Person". */
  lemma FirstType(person: Dict<string>, k: nat)
    requires Get(person, "types").Some? && Get(person, "id").Some?
    requires k < |TypeNames(Get(person, "types").value)|
    requires TypeNames(Get(person, "types").value)[k] != PERSON
    requires forall j :: 0 <= j < k ==> TypeNames(Get(person, "types").value)[j] == PERSON
    ensures OccupationOf(person) ==
      Ok(Some((Get(person, "id").value, DB_OCCUPATION, RESOURCE_URL + TypeNames(Get(person, "types").value)[k])))
  {
    FilterFirst(TypeNames(Get(person, "types").value), NotPerson, k);
  }

  /** A person whose every type is "Person" gets no triple. */
  lemma OnlyPerson(person: Dict<string>)
    requires Get(person, "types").Some?
    requires forall j :: 0 <= j < |TypeNames(Get(person, "types").value)| ==> TypeNames(Get(person, "types").value)[j] == PERSON
    ensures OccupationOf(person) == Ok(None)
  {
    FilterNone(TypeNames(Get(person, "types").value), NotPerson);
  }

  /** The people's records, in order: `linked_to_wd.values()`. */
  function Records(people: Dict<Dict<string>>): (r: seq<Dict<string>>)
    ensures |r| == |people|
  {
    seq(|people|, i requires 0 <= i < |people| => people[i].1)
  }

  /** The loop that builds `db_occupations`. */
  method DbOccupations(people: Dict<Dict<string>>) returns (r: Result<seq<Triple>>)
    ensures r == Collect(Records(people), OccupationOf)
  {
    var records := Records(people);
    var triples: seq<Triple> := [];
    for i := 0 to |records|
      invariant Collect(records[..i], OccupationOf) == Ok(triples)
    {
      var t := OccupationOf(records[i]);
      CollectPrefixStep(records, i, OccupationOf, triples, t);
      if t.Fail? {
        return Fail(t.error);
      }
      if t.value.Some? {
        triples := triples + [t.value.value];
      }
    }
    assert records[..|records|] == records;
    r := Ok(triples);
  }

  // ---------------------------------------------------------------------
  // Predicate names and groups

  /** `x.split('/property/').pop()`. */
  function PropertyName(uri: string): string
  {
    SplitLast(uri, PROPERTY_SEP)
  }

  /** Each predicate's short name with its position. */
  function Numbered(preds: seq<string>): (r: Dict<nat>)
    ensures |r| == |preds|
  {
    seq(|preds|, i requires 0 <= i < |preds| => (PropertyName(preds[i]), i))
  }

  function Position(i: nat): nat
  {
    i
  }

  /** `pred_names = {item: i for i, item in enumerate(pred_names)}`. */
  function PredNames(preds: seq<string>): Dict<nat>
  {
    PutAll(Numbered(preds), Position, [])
  }

  /** A short name maps to the last position it occurs at. */
  lemma PredNamesLast(preds: seq<string>, i: nat)
    requires i < |preds|
    requires forall j :: i < j < |preds| ==> PropertyName(preds[j]) != PropertyName(preds[i])
    ensures Get(PredNames(preds), PropertyName(preds[i])) == Some(i)
  {
    PutAllLast(Numbered(preds), Position, [], i);
  }

  /** With distinct short names the dictionary lists every predicate at its
      own position, so each item's id is its position. */
  lemma PredNamesPositions(preds: seq<string>)
    requires Distinct(Keys(Numbered(preds)))
    ensures |PredNames(preds)| == |preds|
    ensures forall i :: 0 <= i < |preds| ==> PredNames(preds)[i] == (PropertyName(preds[i]), i)
  {
    PutAllFresh(Numbered(preds), Position);
  }

  /** `[prev, ..., end - 1]`: `range(prev, end)`. */
  function Range(start: nat, end: nat): (r: seq<nat>)
    requires start <= end
    ensures |r| == end - start
    ensures forall k :: 0 <= k < |r| ==> r[k] == start + k
  {
    seq(end - start, k requires 0 <= k < end - start => start + k)
  }

  lemma RangeAppend(a: nat, b: nat, c: nat)
    requires a <= b <= c
    ensures Range(a, b) + Range(b, c) == Range(a, c)
  {
  }

  /** The state of the grouping loop: the groups (each the items whose
      OPTIONAL clauses it holds), their id lists, the open group and the
      position it starts at. */
  datatype Grouping = Grouping(groups: seq<Dict<nat>>, ids: seq<seq<nat>>, local: Dict<nat>, prev: nat)

  /** Whether the loop closes the open group before adding item `i`. */
  predicate Closes(i: nat, n: nat)
  {
    i != 0 && (i % PRED_GROUP == 0 || i == n - 1)
  }

  /** One turn of the loop as written, for item `j`: close the open group
      first when `j` is a multiple of 18 or the last position, then add the
      item to the open group. */
  function GroupStep(items: Dict<nat>, st: Grouping, j: nat): Grouping
    requires j < |items|
  {
    var closed := if Closes(j, |items|) && st.prev <= j
      then Grouping(st.groups + [st.local], st.ids + [Range(st.prev, j)], [], j)
      else st;
    closed.(local := closed.local + [items[j]])
  }

  /** The grouping loop as written, after the first `i` items. */
  function GroupRun(items: Dict<nat>, i: nat): Grouping
    requires i <= |items|
  {
    if i == 0 then Grouping([], [], [], 0) else GroupStep(items, GroupRun(items, i - 1), i - 1)
  }

  /** What the loop keeps true after `i` items: the closed groups hold the
      items before `prev`, the open group the rest, and each id list
      numbers the clauses of its group. */
  predicate Tracks(items: Dict<nat>, st: Grouping, i: nat)
    requires i <= |items|
  {
    st.prev <= i && (i > 0 ==> st.prev < i) &&
    Concat(st.groups) == items[..st.prev] && st.local == items[st.prev..i] &&
    Concat(st.ids) == Range(0, st.prev) && |st.ids| == |st.groups| &&
    forall k :: 0 <= k < |st.ids| ==> |st.ids[k]| == |st.groups[k]|
  }

  lemma GroupStepTracks(items: Dict<nat>, st: Grouping, j: nat)
    requires j < |items| && Tracks(items, st, j)
    ensures Tracks(items, GroupStep(items, st, j), j + 1)
  {
    if Closes(j, |items|) {
      ConcatSnoc(st.groups, st.local);
      ConcatSnoc(st.ids, Range(st.prev, j));
      RangeAppend(0, st.prev, j);
      assert items[..st.prev] + items[st.prev..j] == items[..j];
      var ids := st.ids + [Range(st.prev, j)];
      var groups := st.groups + [st.local];
      forall k | 0 <= k < |ids| ensures |ids[k]| == |groups[k]| {
        if k < |st.ids| {
          assert ids[k] == st.ids[k] && groups[k] == st.groups[k];
        }
      }
      assert items[j..j + 1] == [items[j]];
    } else {
      assert items[st.prev..j + 1] == items[st.prev..j] + [items[j]];
    }
  }

  /** The loop as written keeps `Tracks` true. */
  lemma {:induction false} GroupRunInvariant(items: Dict<nat>, i: nat)
    requires i <= |items|
    ensures Tracks(items, GroupRun(items, i), i)
  {
    if i > 0 {
      GroupRunInvariant(items, i - 1);
      GroupStepTracks(items, GroupRun(items, i - 1), i - 1);
    }
  }

  /** `pred_groups` and `pred_ids` as the loop is written. */
  method GroupPredicatesAsWritten(items: Dict<nat>) returns (groups: seq<Dict<nat>>, ids: seq<seq<nat>>)
    ensures groups == GroupRun(items, |items|).groups
    ensures ids == GroupRun(items, |items|).ids
  {
    groups, ids := [], [];
    var local: Dict<nat> := [];
    var prev: nat := 0;
    for i := 0 to |items|
      invariant GroupRun(items, i) == Grouping(groups, ids, local, prev)
      invariant i > 0 ==> prev < i
    {
      if i != 0 && (i % PRED_GROUP == 0 || i == |items| - 1) {
        groups := groups + [local];
        ids := ids + [Range(prev, i)];
        local, prev := [], i;
      }
      local := local + [items[i]];
    }
  }

  /** Before the last item the loop closes the open group, so the closed
      groups then hold every item but the last. */
  lemma CloseBeforeLast(items: Dict<nat>, st: Grouping)
    requires |items| > 1 && Tracks(items, st, |items| - 1)
    ensures Concat(GroupStep(items, st, |items| - 1).groups) == items[..|items| - 1]
  {
    var j := |items| - 1;
    assert Closes(j, |items|);
    ConcatSnoc(st.groups, st.local);
    assert items[..st.prev] + items[st.prev..j] == items[..j];
  }

  /** As written, the loop never sends the last predicate: the groups hold
      exactly the items before it. */
  lemma AsWrittenDropsLast(items: Dict<nat>)
    requires |items| >= 1
    ensures Concat(GroupRun(items, |items|).groups) == items[..|items| - 1]
  {
    var n := |items|;
    GroupRunInvariant(items, n - 1);
    if n > 1 {
      CloseBeforeLast(items, GroupRun(items, n - 1));
    } else {
      assert !Closes(0, n);
    }
  }

  /** With two predicates, only the first is queried. */
  lemma AsWrittenTwoItems(a: (string, nat), b: (string, nat))
    ensures GroupRun([a, b], 2).groups == [[a]]
  {
    assert GroupRun([a, b], 0) == Grouping([], [], [], 0);
    assert GroupRun([a, b], 1) == Grouping([], [], [a], 0);
    assert Closes(1, 2);
  }

  /** `pred_groups` and `pred_ids` as evidently intended: the open group is
      closed after an item is added, when it holds 18 clauses or the item
      is the last one. */
  method GroupPredicates(items: Dict<nat>) returns (groups: seq<Dict<nat>>, ids: seq<seq<nat>>)
    ensures groups == Groups(items, PRED_GROUP)
    ensures Concat(ids) == Range(0, |items|)
    ensures |ids| == |groups| && forall k :: 0 <= k < |ids| ==> |ids[k]| == |groups[k]|
  {
    groups, ids := [], [];
    var local: Dict<nat> := [];
    var prev: nat := 0;
    for i := 0 to |items|
      invariant (groups, local) == Run(items, PRED_GROUP, i)
      invariant prev + |local| == i
      invariant Concat(ids) == Range(0, prev)
      invariant |ids| == |groups| && forall k :: 0 <= k < |ids| ==> |ids[k]| == |groups[k]|
    {
      local := local + [items[i]];
      if i == |items| - 1 || |local| == PRED_GROUP {
        ConcatSnoc(ids, Range(prev, i + 1));
        RangeAppend(0, prev, i + 1);
        groups := groups + [local];
        ids := ids + [Range(prev, i + 1)];
        local, prev := [], i + 1;
      }
    }
    RunInvariant(items, PRED_GROUP, |items|);
  }
}
