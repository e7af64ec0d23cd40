/** The "human_def" extractor (parser/code/entityparsers/human_def.py): for
    records that are instances of human, every main snak parsed into a typed
    fact together with its references, filed by kind and predicate. */
module HumanDefParser {
  import opened Common
  import opened Record
  import Text

  /** The fields `EntityFact`, `TimeFact` and `CoordFact` add to `Fact`;
      `calendar` is absent for the proleptic Gregorian calendar. */
  datatype Fact =
    | EntityFact(object: string)
    | TimeFact(calendar: Option<string>, timestamp: string, precision: int)
    | CoordFact
  {
    /** `get_name`. */
    function Name(): string
    {
      match this
      case EntityFact(_) => "entity"
      case TimeFact(_, _, _) => "temporal"
      case CoordFact => "coord"
    }
  }

  /** A reference: per predicate, the facts parsed from its snaks. Those are
      parsed without references, so they are kept as bare `Fact`s. */
  datatype Reference = Reference(items: map<string, seq<Fact>>)

  /** A fact parsed from a main snak, with the references of its claim. */
  datatype Cited = Cited(fact: Fact, references: seq<Reference>)

  /** The kinds `tracking` is keyed by. */
  const KINDS: set<string> := {"entity", "temporal", "coord"}

  datatype DefData = DefData(
    id: string,
    tracking: map<string, map<string, seq<Cited>>>,
    languages: seq<string>)

  /** `parse_snak(snak, None)`: the fact a snak yields, without references.
      An entity fact reads the value's id, a time fact its calendar model,
      and either raises on a value of another shape. */
  function ParseBare(s: Snak): (r: Result<Option<Fact>>)
    ensures !s.snak.Value? ==> r == Ok(None)
    ensures s.snak.Value? && s.dataType == "wikibase-item" ==>
      (r.Ok? <==> s.snak.datavalue.EntityValue?) &&
      (r.Ok? ==> r.value == Some(EntityFact(s.snak.datavalue.id)))
    ensures s.snak.Value? && s.dataType == "time" ==>
      (r.Ok? <==> s.snak.datavalue.TimeValue?) && (r.Fail? ==> r.error == AttributeError)
    ensures s.snak.Value? && s.dataType == "time" && r.Ok? ==>
      var v := s.snak.datavalue;
      var calendar := if v.calendarmodel == GREGORIAN then None else Some(Text.SplitLast(v.calendarmodel, "/"));
      r.value == Some(TimeFact(calendar, v.time, v.precision))
    ensures s.snak.Value? && s.dataType == "coordinate" ==> r == Ok(Some(CoordFact))
    ensures s.dataType !in ["wikibase-item", "time", "coordinate"] ==> r == Ok(None)
  {
    if !s.snak.Value? then Ok(None)
    else
      var v := s.snak.datavalue;
      if s.dataType == "wikibase-item" then
        match ValueId(v)
        case Fail(e) => Fail(e)
        case Ok(id) => Ok(Some(EntityFact(id)))
      else if s.dataType == "time" then
        if !v.TimeValue? then Fail(AttributeError)
        else
          var calendar := if v.calendarmodel != GREGORIAN then Some(Text.SplitLast(v.calendarmodel, "/")) else None;
          Ok(Some(TimeFact(calendar, v.time, v.precision)))
      else if s.dataType == "coordinate" then Ok(Some(CoordFact))
      else Ok(None)
  }

  /** The fact a reference snak of predicate `x.0` contributes, paired with that predicate. */
  function RefFact(x: (string, Snak)): (r: Result<Option<(string, Fact)>>)
    ensures r.Ok? <==> ParseBare(x.1).Ok?
    ensures r.Ok? && r.value.Some? ==> r.value.value.0 == x.0
  {
    match ParseBare(x.1)
    case Fail(e) => Fail(e)
    case Ok(o) => Ok(if o.Some? then Some((x.0, o.value)) else None)
  }

  /** `items` after the reference snaks `ps` were filed, or the exception one raised. */
  function RefFiling(ps: seq<(string, Snak)>): (r: Result<map<string, seq<Fact>>>)
    ensures r.Ok? <==> Collect(ps, RefFact).Ok?
  {
    match Collect(ps, RefFact)
    case Fail(e) => Fail(e)
    case Ok(pairs) => Ok(GroupBy(pairs))
  }

  /** `Reference(ref_snaks)`. */
  function ParseReference(rb: RefBlock): (r: Result<Reference>)
    ensures rb.snaks.None? ==> r == Ok(Reference(map[]))
  {
    match rb.snaks
    case None => Ok(Reference(map[]))
    case Some(d) =>
      match RefFiling(Flatten(d))
      case Fail(e) => Fail(e)
      case Ok(items) => Ok(Reference(items))
  }

  function RefBlockFact(rb: RefBlock): Result<Option<Reference>>
  {
    match ParseReference(rb)
    case Fail(e) => Fail(e)
    case Ok(r) => Ok(Some(r))
  }

  /** The references loop of `Fact.__init__`. */
  function ParseReferences(refs: Option<seq<RefBlock>>): (r: Result<seq<Reference>>)
    ensures refs.None? ==> r == Ok([])
  {
    match refs
    case None => Ok([])
    case Some(rbs) => Collect(rbs, RefBlockFact)
  }

  /** `parse_snak(snak, references)`: the fact is read first, its references after. */
  function ParseSnak(s: Snak, refs: Option<seq<RefBlock>>): (r: Result<Option<Cited>>)
    ensures ParseBare(s).Fail? ==> r == Fail(ParseBare(s).error)
    ensures ParseBare(s) == Ok(None) ==> r == Ok(None)
    ensures r.Ok? && r.value.Some? ==>
      ParseBare(s) == Ok(Some(r.value.value.fact)) && ParseReferences(refs) == Ok(r.value.value.references)
  {
    match ParseBare(s)
    case Fail(e) => Fail(e)
    case Ok(o) =>
      if o.None? then Ok(None)
      else
        match ParseReferences(refs)
        case Fail(e) => Fail(e)
        case Ok(rs) => Ok(Some(Cited(o.value, rs)))
  }

  /** The fact the claim `x` of predicate `x.0` contributes, paired with that predicate. */
  function ClaimFact(x: (string, Claim)): (r: Result<Option<(string, Cited)>>)
    ensures r.Ok? <==> ParseSnak(x.1.mainsnak, x.1.references).Ok?
    ensures r.Ok? && r.value.Some? ==> r.value.value.0 == x.0
  {
    match ParseSnak(x.1.mainsnak, x.1.references)
    case Fail(e) => Fail(e)
    case Ok(o) => Ok(if o.Some? then Some((x.0, o.value)) else None)
  }

  function KindOf(c: Cited): string
  {
    c.fact.Name()
  }

  /** `tracking` after the facts `pairs` were filed. */
  function Tracking(pairs: seq<(string, Cited)>): (t: map<string, map<string, seq<Cited>>>)
    ensures t.Keys == KINDS
  {
    Partition(pairs, KindOf, KINDS)
  }

  /** `tracking` after the claims `ps` were filed, or the exception a fact raised. */
  function Filing(ps: seq<(string, Claim)>): (r: Result<map<string, map<string, seq<Cited>>>>)
    ensures r.Ok? <==> Collect(ps, ClaimFact).Ok?
    ensures r.Fail? ==> r.error == Collect(ps, ClaimFact).error
  {
    match Collect(ps, ClaimFact)
    case Fail(err) => Fail(err)
    case Ok(pairs) => Ok(Tracking(pairs))
  }

  /** `Human_def(e.id).process(e)`. */
  function Extract(e: Entity): (r: Result<Option<DefData>>)
    ensures IsHuman(e).Fail? ==> r == Fail(IsHuman(e).error)
    ensures IsHuman(e) == Ok(false) ==> r == Ok(None)
    ensures IsHuman(e) == Ok(true) ==> r.Ok? == Collect(ClaimPairs(e), ClaimFact).Ok?
    ensures r.Ok? ==> r.value.Some? == (IsHuman(e) == Ok(true))
  {
    match IsHuman(e)
    case Fail(err) => Fail(err)
    case Ok(human) =>
      if !human then Ok(None)
      else
        match Filing(ClaimPairs(e))
        case Fail(err) => Fail(err)
        case Ok(t) => Ok(Some(DefData(e.id, t, LabelKeys(e))))
  }

  /** A fact's references: one `Reference` per input reference, in order,
      none when the claim has no references; one that raises makes the fact
      raise. */
  lemma ReferencesOnePerInput(refs: Option<seq<RefBlock>>)
    ensures ParseReferences(refs).Ok? <==>
      refs.None? || forall i :: 0 <= i < |refs.value| ==> ParseReference(refs.value[i]).Ok?
    ensures ParseReferences(refs).Ok? ==>
      |ParseReferences(refs).value| == (if refs.None? then 0 else |refs.value|) &&
      forall i :: 0 <= i < |ParseReferences(refs).value| ==>
        ParseReferences(refs).value[i] == ParseReference(refs.value[i]).value
  {
    if refs.Some? {
      var rbs := refs.value;
      CollectMeaning(rbs, RefBlockFact);
      if ParseReferences(refs).Ok? {
        CollectAllPresent(rbs, RefBlockFact);
      }
    }
  }

  /** A reference files, under each predicate, the facts parsed from that
      predicate's snaks. */
  lemma ReferenceItems(rb: RefBlock)
    requires ParseReference(rb).Ok?
    ensures var items := ParseReference(rb).value.items;
      forall p, f :: p in items && f in items[p] ==>
        exists s :: s in Flatten(rb.snaks.value) && s.0 == p && ParseBare(s.1) == Ok(Some(f))
  {
    if rb.snaks.Some? {
      var pairs := Collect(Flatten(rb.snaks.value), RefFact).value;
      CollectMeaning(Flatten(rb.snaks.value), RefFact);
      GroupByMeaning(pairs);
      forall p | p in GroupBy(pairs) { ValuesForFrom(pairs, p); }
    }
  }

  /** Every pair `Collect` kept comes from a claim of that predicate whose
      main snak parsed to that fact. */
  lemma ParsedFromClaims(ps: seq<(string, Claim)>)
    requires Collect(ps, ClaimFact).Ok?
    ensures forall y :: y in Collect(ps, ClaimFact).value ==>
      exists x :: x in ps && x.0 == y.0 && ParseSnak(x.1.mainsnak, x.1.references) == Ok(Some(y.1))
  {
    CollectMeaning(ps, ClaimFact);
  }

  /** Every fact `Tracking(pairs)` files under `[kind][pred]` is of that
      kind and is paired with `pred` in `pairs`. */
  lemma TrackingFrom(pairs: seq<(string, Cited)>, t: map<string, map<string, seq<Cited>>>)
    requires t == Tracking(pairs)
    ensures forall kind: string, p: string, f: Cited :: kind in t && p in t[kind] && f in t[kind][p] ==> f.fact.Name() == kind
    ensures forall kind: string, p: string, f: Cited :: kind in t && p in t[kind] && f in t[kind][p] ==> (p, f) in pairs
  {
    forall kind: string, p: string, f: Cited | kind in t && p in t[kind] && f in t[kind][p]
      ensures f.fact.Name() == kind
    {
      PartitionFrom(pairs, KindOf, KINDS, kind, p, f);
    }
    forall kind: string, p: string, f: Cited | kind in t && p in t[kind] && f in t[kind][p]
      ensures (p, f) in pairs
    {
      PartitionFrom(pairs, KindOf, KINDS, kind, p, f);
    }
  }

  /** `Tracking(pairs)` files every pair under its fact's kind and its predicate. */
  lemma TrackingCovers(pairs: seq<(string, Cited)>, t: map<string, map<string, seq<Cited>>>)
    requires t == Tracking(pairs)
    ensures forall p: string, f: Cited :: (p, f) in pairs ==>
      p in t[f.fact.Name()] && f in t[f.fact.Name()][p]
  {
    forall p: string, f: Cited | (p, f) in pairs
      ensures p in t[f.fact.Name()] && f in t[f.fact.Name()][p]
    {
      PartitionCovers(pairs, KindOf, KINDS, p, f);
    }
  }

  /** On a match, `id` and `languages` are the record's, `tracking` has
      exactly the three kinds, and every fact filed under `[kind][pred]` is of
      that kind and is one of the (predicate, fact) pairs parsed from the main
      snaks. */
  lemma DefExtractFiled(e: Entity, d: DefData, pairs: seq<(string, Cited)>)
    requires Extract(e) == Ok(Some(d))
    requires Collect(ClaimPairs(e), ClaimFact) == Ok(pairs)
    ensures d.id == e.id && d.languages == LabelKeys(e)
    ensures d.tracking.Keys == KINDS
    ensures forall kind: string, p: string, f: Cited :: kind in d.tracking && p in d.tracking[kind] && f in d.tracking[kind][p] ==>
      f.fact.Name() == kind
    ensures forall kind: string, p: string, f: Cited :: kind in d.tracking && p in d.tracking[kind] && f in d.tracking[kind][p] ==>
      (p, f) in pairs
  {
    assert IsHuman(e) == Ok(true);
    TrackingFrom(pairs, d.tracking);
  }

  /** On a match, every parsed (predicate, fact) pair is filed under its
      fact's kind and its predicate. */
  lemma DefExtractComplete(e: Entity, d: DefData, pairs: seq<(string, Cited)>)
    requires Extract(e) == Ok(Some(d))
    requires Collect(ClaimPairs(e), ClaimFact) == Ok(pairs)
    ensures forall p: string, f: Cited :: (p, f) in pairs ==>
      p in d.tracking[f.fact.Name()] && f in d.tracking[f.fact.Name()][p]
  {
    assert IsHuman(e) == Ok(true);
    TrackingCovers(pairs, d.tracking);
  }

  /** Filing one more fact appends it to `tracking[kind][pred]` and changes
      nothing else. */
  lemma TrackingSnoc(pairs: seq<(string, Cited)>, p: string, f: Cited)
    ensures var t := Tracking(pairs); var target := t[f.fact.Name()];
      Tracking(pairs + [(p, f)]) ==
        t[f.fact.Name() := target[p := (if p in target then target[p] else []) + [f]]]
  {
    PartitionSnoc(pairs, KindOf, KINDS, p, f);
  }

  /** `Human_def`: the extractor object the manager builds for one record. */
  class HumanDef {
    var id: string
    var tracking: map<string, map<string, seq<Cited>>>
    var languages: seq<string>

    predicate Initial()
      reads this
    {
      tracking == Tracking([]) && languages == []
    }

    function Snapshot(): DefData
      reads this
    {
      DefData(id, tracking, languages)
    }

    constructor (id: string)
      ensures this.id == id && Initial()
    {
      this.id := id;
      tracking := map["entity" := map[], "temporal" := map[], "coord" := map[]];
      languages := [];
    }

    /** The state after the claims `ps` were parsed without raising. */
    predicate Filed(ps: seq<(string, Claim)>)
      reads this
    {
      Filing(ps) == Ok(tracking)
    }

    /** `process`: the label keys are stored before any check; a record
        without claims or not an instance of human is rejected. */
    method Process(data: Entity) returns (r: Result<bool>)
      requires Initial() && id == data.id
      modifies this
      ensures r == Status(Extract(data))
      ensures languages == LabelKeys(data)
      ensures r == Ok(true) ==> Snapshot() == Extract(data).value.value
    {
      languages := LabelKeys(data);
      if data.claims.None? {
        return Ok(false);
      }
      var human := HasObject(data.claims.value, INSTANCE_OF, HUMAN);
      if human.Fail? {
        return Fail(human.error);
      }
      if !human.value {
        return Ok(false);
      }
      assert ClaimPairs(data) == Flatten(data.claims.value);
      var err := ProcessClaims(data.claims.value);
      if err.Some? {
        assert Extract(data) == Fail(err.value);
        return Fail(err.value);
      }
      assert Extract(data) == Ok(Some(DefData(id, tracking, languages)));
      return Ok(true);
    }

    /** The claim loops of `process`; `err` is the exception a fact raised. */
    method ProcessClaims(claims: Dict<seq<Claim>>) returns (err: Option<Exception>)
      requires Filed([])
      modifies this`tracking
      ensures err.Some? ==> Filing(Flatten(claims)) == Fail(err.value)
      ensures err.None? ==> Filed(Flatten(claims))
    {
      var i := 0;
      while i < |claims|
        invariant 0 <= i <= |claims|
        invariant Filed(Flatten(claims[..i]))
      {
        err := ProcessStatements(claims, i);
        if err.Some? {
          return;
        }
        i := i + 1;
      }
      FlattenAll(claims);
      return None;
    }

    /** The inner claim loop, over the claims of the `i`-th predicate. */
    method ProcessStatements(claims: Dict<seq<Claim>>, i: nat) returns (err: Option<Exception>)
      requires i < |claims| && Filed(Flatten(claims[..i]))
      modifies this`tracking
      ensures err.Some? ==> Filing(Flatten(claims)) == Fail(err.value)
      ensures err.None? ==> Filed(Flatten(claims[..i + 1]))
    {
      var j := 0;
      VisitedStart(claims, i);
      while j < |claims[i].1|
        invariant 0 <= j <= |claims[i].1|
        invariant Filed(Visited(claims, i, j))
      {
        err := StatementStep(claims, i, j);
        if err.Some? {
          return;
        }
        j := j + 1;
      }
      VisitedEnd(claims, i);
      return None;
    }

    /** One turn of the inner claim loop: the `j`-th claim of the `i`-th predicate. */
    method StatementStep(claims: Dict<seq<Claim>>, i: nat, j: nat) returns (err: Option<Exception>)
      requires i < |claims| && j < |claims[i].1|
      requires Filed(Visited(claims, i, j))
      modifies this`tracking
      ensures err.Some? ==> Filing(Flatten(claims)) == Fail(err.value)
      ensures err.None? ==> Filed(Visited(claims, i, j + 1))
    {
      ghost var done := Visited(claims, i, j);
      VisitedNext(claims, i, j);
      var x := (claims[i].0, claims[i].1[j]);
      CollectSnoc(done, x, ClaimFact);
      var fact := NewFact(x.1.mainsnak, x.1.references);
      if fact.Fail? {
        var v := Visited(claims, i, j + 1);
        VisitedPrefix(claims, i, j + 1);
        assert Flatten(claims)[..|v|] == v;
        CollectFailPersists(Flatten(claims), |v|, ClaimFact);
        return Some(fact.error);
      }
      if fact.value.Some? {
        var f := fact.value.value;
        TrackingSnoc(Collect(done, ClaimFact).value, x.0, f);
        var target := tracking[f.fact.Name()];
        var sub := if x.0 in target then target[x.0] else [];
        sub := sub + [f];
        target := target[x.0 := sub];
        tracking := tracking[f.fact.Name() := target];
      }
      return None;
    }
  }

  /** `parse_snak(snak, references)` as the constructors run it. */
  method NewFact(s: Snak, refs: Option<seq<RefBlock>>) returns (r: Result<Option<Cited>>)
    ensures r == ParseSnak(s, refs)
  {
    var bare := ParseBare(s);
    if bare.Fail? {
      return Fail(bare.error);
    }
    if bare.value.None? {
      return Ok(None);
    }
    var references := BuildReferences(refs);
    if references.Fail? {
      return Fail(references.error);
    }
    return Ok(Some(Cited(bare.value.value, references.value)));
  }

  /** The loop of `Fact.__init__`: one `Reference` per input reference. */
  method BuildReferences(refs: Option<seq<RefBlock>>) returns (r: Result<seq<Reference>>)
    ensures r == ParseReferences(refs)
  {
    if refs.None? {
      return Ok([]);
    }
    var rbs := refs.value;
    var built: seq<Reference> := [];
    var i := 0;
    while i < |rbs|
      invariant 0 <= i <= |rbs|
      invariant Collect(rbs[..i], RefBlockFact) == Ok(built)
    {
      assert rbs[..i + 1] == rbs[..i] + [rbs[i]];
      CollectSnoc(rbs[..i], rbs[i], RefBlockFact);
      var reference := BuildReference(rbs[i]);
      if reference.Fail? {
        CollectFailPersists(rbs, i + 1, RefBlockFact);
        return Fail(reference.error);
      }
      built := built + [reference.value];
      i := i + 1;
    }
    assert rbs[..i] == rbs;
    return Ok(built);
  }

  /** `Reference.__init__`: the parseable snaks of every predicate, filed
      under that predicate. */
  method BuildReference(rb: RefBlock) returns (r: Result<Reference>)
    ensures r == ParseReference(rb)
  {
    if rb.snaks.None? {
      return Ok(Reference(map[]));
    }
    var references := rb.snaks.value;
    var items: map<string, seq<Fact>> := map[];
    var i := 0;
    while i < |references|
      invariant 0 <= i <= |references|
      invariant RefFiling(Flatten(references[..i])) == Ok(items)
    {
      var filed := FileReferenceSnaks(references, i, items);
      if filed.Fail? {
        return Fail(filed.error);
      }
      items := filed.value;
      i := i + 1;
    }
    FlattenAll(references);
    return Ok(Reference(items));
  }

  /** The inner loop of `Reference.__init__`, over the snaks of the `i`-th predicate. */
  method FileReferenceSnaks(references: Dict<seq<Snak>>, i: nat, items0: map<string, seq<Fact>>)
    returns (r: Result<map<string, seq<Fact>>>)
    requires i < |references| && RefFiling(Flatten(references[..i])) == Ok(items0)
    ensures r.Fail? ==> RefFiling(Flatten(references)) == r
    ensures r.Ok? ==> RefFiling(Flatten(references[..i + 1])) == r
  {
    var items := items0;
    var j := 0;
    VisitedStart(references, i);
    while j < |references[i].1|
      invariant 0 <= j <= |references[i].1|
      invariant RefFiling(Visited(references, i, j)) == Ok(items)
    {
      r := FileReferenceSnak(references, i, j, items);
      if r.Fail? {
        return;
      }
      items := r.value;
      j := j + 1;
    }
    VisitedEnd(references, i);
    return Ok(items);
  }

  /** One turn of the inner loop: `ref = parse_snak(snak, None)`, appended
      to `items[pred]` when it is not `None`. */
  method FileReferenceSnak(references: Dict<seq<Snak>>, i: nat, j: nat, items: map<string, seq<Fact>>)
    returns (r: Result<map<string, seq<Fact>>>)
    requires i < |references| && j < |references[i].1|
    requires RefFiling(Visited(references, i, j)) == Ok(items)
    ensures r.Fail? ==> RefFiling(Flatten(references)) == r
    ensures r.Ok? ==> RefFiling(Visited(references, i, j + 1)) == r
  {
    ghost var done := Visited(references, i, j);
    VisitedNext(references, i, j);
    var x := (references[i].0, references[i].1[j]);
    CollectSnoc(done, x, RefFact);
    var ref := ParseBare(x.1);
    if ref.Fail? {
      var v := Visited(references, i, j + 1);
      VisitedPrefix(references, i, j + 1);
      assert Flatten(references)[..|v|] == v;
      CollectFailPersists(Flatten(references), |v|, RefFact);
      return Fail(ref.error);
    }
    if ref.value.None? {
      return Ok(items);
    }
    GroupBySnoc(Collect(done, RefFact).value, x.0, ref.value.value);
    var sub := if x.0 in items then items[x.0] else [];
    sub := sub + [ref.value.value];
    return Ok(items[x.0 := sub]);
  }
}
