/** The "human_temp" extractor (`TempHuman` and `TemporalData` in
    parser/code/entityparsers/human_temp.py): for records that are instances
    of human, every time value, either as a main snak or as a time qualifier
    of an entity-valued claim. */
module HumanTempParser {
  import opened Common
  import opened Record
  import Text

  /** One time value: the entity it qualifies ("" for a main snak), the
      predicate that holds it, the calendar (absent for the proleptic
      Gregorian calendar), the timestamp and the precision. */
  datatype TemporalData = TemporalData(
    entity: string,
    tempPred: string,
    calendar: Option<string>,
    timestamp: string,
    precision: int)

  datatype TempData = TempData(
    id: string,
    tempPreds: seq<TemporalData>,
    indirect: map<string, seq<TemporalData>>,
    languages: seq<string>)

  predicate IsTimeSnak(s: Snak)
  {
    s.snak.Value? && s.snak.datavalue.TimeValue?
  }

  /** `TemporalData(entity, snak)` on a snak that holds a time value. */
  function FromTime(entity: string, s: Snak): TemporalData
    requires IsTimeSnak(s)
  {
    var v := s.snak.datavalue;
    TemporalData(entity, s.property,
      if v.calendarmodel != GREGORIAN then Some(Text.SplitLast(v.calendarmodel, "/")) else None,
      v.time, v.precision)
  }

  /** `TemporalData(entity, snak)` on any snak: a snak without a datavalue
      raises KeyError, and any value other than a time raises AttributeError
      (`values.get('calendarmodel')` is None, or `values` is a string). */
  function Temporal(entity: string, s: Snak): (r: Result<TemporalData>)
    ensures r.Ok? <==> IsTimeSnak(s)
    ensures r.Ok? ==> r.value.entity == entity && r.value.tempPred == s.property
    ensures r.Ok? ==> r.value.timestamp == s.snak.datavalue.time && r.value.precision == s.snak.datavalue.precision
    ensures r.Ok? ==> (r.value.calendar.None? <==> s.snak.datavalue.calendarmodel == GREGORIAN)
    ensures !s.snak.Value? ==> r == Fail(KeyError)
    ensures s.snak.Value? && !IsTimeSnak(s) ==> r == Fail(AttributeError)
  {
    if !s.snak.Value? then Fail(KeyError)
    else if !s.snak.datavalue.TimeValue? then Fail(AttributeError)
    else Ok(FromTime(entity, s))
  }

  /** A stored calendar is the last "/"-separated segment of the calendar
      model: a suffix of it that holds no "/". */
  lemma CalendarIsLastSegment(entity: string, s: Snak)
    requires IsTimeSnak(s) && FromTime(entity, s).calendar.Some?
    ensures var cm, c := s.snak.datavalue.calendarmodel, FromTime(entity, s).calendar.value;
      && cm != GREGORIAN
      && cm[|cm| - |c|..] == c
      && Text.Find(c, "/").None?
  {
    var cm := s.snak.datavalue.calendarmodel;
    Text.SplitLastIsSuffix(cm, "/");
    Text.SplitLastHasNoSeparator(cm, "/");
  }

  /** A qualifier that is recorded: datatype "time" and snaktype "value". */
  predicate Qualifies(q: Snak)
  {
    q.dataType == "time" && q.snak.Value?
  }

  /** A recorded qualifier: the parent's predicate, the parent's object id
      and the qualifier snak. */
  datatype Hit = Hit(pred: string, entity: string, snak: Snak)

  /** The recorded qualifiers among `qs`, in loop order. */
  function QualHits(pred: string, entity: string, qs: seq<(string, Snak)>): seq<Hit>
  {
    if qs == [] then []
    else
      var q := qs[|qs| - 1].1;
      QualHits(pred, entity, qs[..|qs| - 1]) + (if Qualifies(q) then [Hit(pred, entity, q)] else [])
  }

  /** Qualifiers are examined only on claims whose main snak is entity-valued. */
  function ClaimHits(x: (string, Claim)): seq<Hit>
  {
    if IsEntitySnak(x.1.mainsnak) && x.1.qualifiers.Some? then
      QualHits(x.0, ObjectId(x.1.mainsnak), Flatten(x.1.qualifiers.value))
    else []
  }

  function Hits(ps: seq<(string, Claim)>): seq<Hit>
  {
    if ps == [] then [] else Hits(ps[..|ps| - 1]) + ClaimHits(ps[|ps| - 1])
  }

  /** The main snaks that hold a time, as `TemporalData("", snak)`. */
  function Direct(ps: seq<(string, Claim)>): seq<TemporalData>
  {
    if ps == [] then []
    else
      var s := ps[|ps| - 1].1.mainsnak;
      Direct(ps[..|ps| - 1]) + (if TypeOf(ps[|ps| - 1]) == "time" then [FromTime("", s)] else [])
  }

  /** Every recorded qualifier holds a time value, so no `TemporalData` raises. */
  predicate HitsOk(hs: seq<Hit>)
  {
    hs == [] || (HitsOk(hs[..|hs| - 1]) && IsTimeSnak(hs[|hs| - 1].snak))
  }

  /** (predicate, time value) for each recorded qualifier that holds a time. */
  function IndirectPairs(hs: seq<Hit>): seq<(string, TemporalData)>
  {
    if hs == [] then []
    else
      var h := hs[|hs| - 1];
      IndirectPairs(hs[..|hs| - 1]) + (if IsTimeSnak(h.snak) then [(h.pred, FromTime(h.entity, h.snak))] else [])
  }

  /** `TempHuman(e.id).process(e)`. */
  function Extract(e: Entity): (r: Result<Option<TempData>>)
    ensures IsHuman(e).Fail? ==> r == Fail(IsHuman(e).error)
    ensures IsHuman(e) == Ok(false) ==> r == Ok(None)
    ensures IsHuman(e) == Ok(true) ==> (r.Fail? <==> !HitsOk(Hits(ClaimPairs(e))))
    ensures IsHuman(e) == Ok(true) && HitsOk(Hits(ClaimPairs(e))) ==>
      (r == Ok(None) <==> Direct(ClaimPairs(e)) == [] && Hits(ClaimPairs(e)) == [])
  {
    match IsHuman(e)
    case Fail(err) => Fail(err)
    case Ok(human) =>
      if !human then Ok(None)
      else
        var ps := ClaimPairs(e);
        var hs := Hits(ps);
        if !HitsOk(hs) then Fail(AttributeError)
        else if Direct(ps) == [] && hs == [] then Ok(None)
        else Ok(Some(TempData(e.id, Direct(ps), GroupBy(IndirectPairs(hs)), LabelKeys(e))))
  }

  lemma QualHitsSnoc(pred: string, entity: string, qs: seq<(string, Snak)>, q: (string, Snak))
    ensures QualHits(pred, entity, qs + [q]) ==
      QualHits(pred, entity, qs) + (if Qualifies(q.1) then [Hit(pred, entity, q.1)] else [])
  {
    assert (qs + [q])[..|qs|] == qs;
  }

  lemma HitsSnoc(ps: seq<(string, Claim)>, x: (string, Claim))
    ensures Hits(ps + [x]) == Hits(ps) + ClaimHits(x)
    ensures Direct(ps + [x]) == Direct(ps) + (if TypeOf(x) == "time" then [FromTime("", x.1.mainsnak)] else [])
  {
    assert (ps + [x])[..|ps|] == ps;
  }

  lemma IndirectSnoc(hs: seq<Hit>, h: Hit)
    requires IsTimeSnak(h.snak)
    ensures HitsOk(hs + [h]) <==> HitsOk(hs)
    ensures IndirectPairs(hs + [h]) == IndirectPairs(hs) + [(h.pred, FromTime(h.entity, h.snak))]
  {
    assert (hs + [h])[..|hs|] == hs;
  }

  lemma {:induction false} HitsOkMeaning(hs: seq<Hit>)
    ensures HitsOk(hs) <==> forall h :: h in hs ==> IsTimeSnak(h.snak)
  {
    if hs != [] {
      HitsOkMeaning(hs[..|hs| - 1]);
      assert hs == hs[..|hs| - 1] + [hs[|hs| - 1]];
    }
  }

  /** Every direct entry comes from a time main snak and carries the empty
      entity tag; there is one per time-typed claim. */
  lemma {:induction false} DirectMeaning(ps: seq<(string, Claim)>)
    ensures |Direct(ps)| == TypeCount(ps, "time")
    ensures forall d :: d in Direct(ps) ==> d.entity == "" && d.tempPred in Elements(MainProperties(ps))
  {
    if ps != [] {
      var t := ps[..|ps| - 1];
      assert ps == t + [ps[|ps| - 1]];
      DirectMeaning(t);
      HitsSnoc(t, ps[|ps| - 1]);
      TypeCountSnoc(t, ps[|ps| - 1], "time");
      MainPropertiesSnoc(t, ps[|ps| - 1]);
    }
  }

  /** The `property` of every visited main snak. */
  function MainProperties(ps: seq<(string, Claim)>): seq<string>
  {
    if ps == [] then [] else MainProperties(ps[..|ps| - 1]) + [ps[|ps| - 1].1.mainsnak.property]
  }

  lemma MainPropertiesSnoc(ps: seq<(string, Claim)>, x: (string, Claim))
    ensures MainProperties(ps + [x]) == MainProperties(ps) + [x.1.mainsnak.property]
  {
    assert (ps + [x])[..|ps|] == ps;
  }

  /** A recorded qualifier of `qs` is a time-typed value qualifier of `qs`
      and carries the parent's predicate and object id. */
  lemma {:induction false} QualHitsMeaning(pred: string, entity: string, qs: seq<(string, Snak)>)
    ensures forall h :: h in QualHits(pred, entity, qs) ==>
      h.pred == pred && h.entity == entity && Qualifies(h.snak) &&
      exists q :: q in qs && q.1 == h.snak
  {
    if qs != [] {
      var t := qs[..|qs| - 1];
      QualHitsMeaning(pred, entity, t);
      forall h | h in QualHits(pred, entity, qs)
        ensures h.pred == pred && h.entity == entity && Qualifies(h.snak) && exists q :: q in qs && q.1 == h.snak
      {
        if h in QualHits(pred, entity, t) {
          var q :| q in t && q.1 == h.snak;
          assert q in qs;
        } else {
          assert qs[|qs| - 1] in qs;
        }
      }
    }
  }

  /** Qualifiers are recorded only under claims whose main snak is
      entity-valued, under the claim's predicate and tagged with its object id. */
  lemma {:induction false} HitsComeFromEntityClaims(ps: seq<(string, Claim)>)
    ensures forall h :: h in Hits(ps) ==>
      && Qualifies(h.snak)
      && exists x :: x in ps && IsEntitySnak(x.1.mainsnak) && x.1.qualifiers.Some? &&
           x.0 == h.pred && ObjectId(x.1.mainsnak) == h.entity
  {
    if ps != [] {
      var t, x := ps[..|ps| - 1], ps[|ps| - 1];
      HitsComeFromEntityClaims(t);
      forall h | h in Hits(ps)
        ensures && Qualifies(h.snak)
                && exists y :: y in ps && IsEntitySnak(y.1.mainsnak) &&
                     y.1.qualifiers.Some? && y.0 == h.pred && ObjectId(y.1.mainsnak) == h.entity
      {
        if h in Hits(t) {
          var y :| y in t && IsEntitySnak(y.1.mainsnak) && y.1.qualifiers.Some? &&
            y.0 == h.pred && ObjectId(y.1.mainsnak) == h.entity;
          assert y in ps;
        } else {
          assert h in ClaimHits(x);
          QualHitsMeaning(x.0, ObjectId(x.1.mainsnak), Flatten(x.1.qualifiers.value));
          assert x in ps;
        }
      }
    }
  }

  /** The time values recorded under `pred`, in loop order. */
  function HitsFor(hs: seq<Hit>, pred: string): seq<TemporalData>
  {
    if hs == [] then []
    else
      var h := hs[|hs| - 1];
      HitsFor(hs[..|hs| - 1], pred) + (if h.pred == pred && IsTimeSnak(h.snak) then [FromTime(h.entity, h.snak)] else [])
  }

  lemma {:induction false} HitsForPairs(hs: seq<Hit>, pred: string)
    ensures ValuesFor(IndirectPairs(hs), pred) == HitsFor(hs, pred)
  {
    if hs != [] {
      var t := hs[..|hs| - 1];
      HitsForPairs(t, pred);
      var ip := IndirectPairs(hs);
      if IsTimeSnak(hs[|hs| - 1].snak) {
        assert ip[..|ip| - 1] == IndirectPairs(t);
      } else {
        assert ip == IndirectPairs(t);
      }
    }
  }

  /** On a match: `indirect` has a key exactly for the predicates with a
      recorded qualifier, holding their time values in loop order; the
      direct entries are the time main snaks with the empty tag; and the
      result exists only because some time value was found. */
  lemma TempExtractProperties(e: Entity)
    requires Extract(e).Ok? && Extract(e).value.Some?
    ensures var d := Extract(e).value.value;
      var hs := Hits(ClaimPairs(e));
      && HitsOk(hs)
      && (forall p :: p in d.indirect <==> HitsFor(hs, p) != [])
      && (forall p :: p in d.indirect ==> d.indirect[p] == HitsFor(hs, p))
      && |d.tempPreds| == TypeCount(ClaimPairs(e), "time")
      && (forall t :: t in d.tempPreds ==> t.entity == "")
      && (d.tempPreds != [] || d.indirect != map[])
      && d.languages == LabelKeys(e)
  {
    var ps := ClaimPairs(e);
    var hs := Hits(ps);
    GroupByMeaning(IndirectPairs(hs));
    forall p { HitsForPairs(hs, p); }
    DirectMeaning(ps);
    HitsOkMeaning(hs);
    if Direct(ps) == [] {
      var h := hs[0];
      assert HitsFor(hs, h.pred) != [] by { HitsForNonEmpty(hs, h); }
    }
  }

  lemma {:induction false} HitsForNonEmpty(hs: seq<Hit>, h: Hit)
    requires h in hs && IsTimeSnak(h.snak)
    ensures HitsFor(hs, h.pred) != []
  {
    if hs[|hs| - 1] != h {
      assert h in hs[..|hs| - 1];
      HitsForNonEmpty(hs[..|hs| - 1], h);
    }
  }

  /** `TempHuman`: the extractor object the manager builds for one record. */
  class TempHuman {
    var id: string
    var tempPreds: seq<TemporalData>
    var indirect: map<string, seq<TemporalData>>
    var languages: seq<string>

    predicate Initial()
      reads this
    {
      tempPreds == [] && indirect == map[] && languages == []
    }

    function Snapshot(): TempData
      reads this
    {
      TempData(id, tempPreds, indirect, languages)
    }

    constructor (id: string)
      ensures this.id == id && Initial()
    {
      this.id := id;
      tempPreds := [];
      indirect := map[];
      languages := [];
    }

    /** The state after the claims `ps` were visited without raising. */
    predicate Scanned(ps: seq<(string, Claim)>)
      reads this
    {
      tempPreds == Direct(ps) && Recorded(Hits(ps))
    }

    /** `indirect` holds the recorded qualifiers `hs`, none of which raised. */
    predicate Recorded(hs: seq<Hit>)
      reads this
    {
      HitsOk(hs) && indirect == GroupBy(IndirectPairs(hs))
    }

    /** `process`: rejects records without claims, records that are not
        instances of human and humans without any time value. */
    method Process(data: Entity) returns (r: Result<bool>)
      requires Initial() && id == data.id
      modifies this
      ensures r == Status(Extract(data))
      ensures r == Ok(true) ==> Snapshot() == Extract(data).value.value
    {
      if data.claims.None? {
        return Ok(false);
      }
      var human := HasObject(data.claims.value, INSTANCE_OF, HUMAN);
      if human.Fail? {
        return Fail(human.error);
      }
      if !human.value {
        return Ok(false);
      }
      assert Hits([]) == [] && Direct([]) == [];
      var ok, found := ProcessClaims(data.claims.value);
      if !ok {
        return Fail(AttributeError);
      }
      if found {
        languages := LabelKeys(data);
        return Ok(true);
      }
      return Ok(false);
    }

    /** The claim loops of `process`; `ok` is false where a `TemporalData`
        raises, and `found` is `temporal_info_found`. */
    method ProcessClaims(claims: Dict<seq<Claim>>) returns (ok: bool, found: bool)
      requires Scanned([])
      modifies this`tempPreds, this`indirect
      ensures ok <==> HitsOk(Hits(Flatten(claims)))
      ensures ok ==> Scanned(Flatten(claims))
      ensures ok ==> (found <==> Direct(Flatten(claims)) != [] || Hits(Flatten(claims)) != [])
    {
      found := false;
      var i := 0;
      while i < |claims|
        invariant 0 <= i <= |claims|
        invariant Scanned(Flatten(claims[..i]))
        invariant found <==> Direct(Flatten(claims[..i])) != [] || Hits(Flatten(claims[..i])) != []
      {
        ok, found := ProcessStatements(claims, i, found);
        if !ok {
          return;
        }
        i := i + 1;
      }
      FlattenAll(claims);
      return true, found;
    }

    /** The inner claim loop, over the claims of the `i`-th predicate. */
    method ProcessStatements(claims: Dict<seq<Claim>>, i: nat, found0: bool) returns (ok: bool, found: bool)
      requires i < |claims| && Scanned(Flatten(claims[..i]))
      requires found0 <==> Direct(Flatten(claims[..i])) != [] || Hits(Flatten(claims[..i])) != []
      modifies this`tempPreds, this`indirect
      ensures !ok ==> !HitsOk(Hits(Flatten(claims)))
      ensures ok ==> Scanned(Flatten(claims[..i + 1]))
      ensures ok ==> (found <==> Direct(Flatten(claims[..i + 1])) != [] || Hits(Flatten(claims[..i + 1])) != [])
    {
      found := found0;
      var j := 0;
      VisitedStart(claims, i);
      while j < |claims[i].1|
        invariant 0 <= j <= |claims[i].1|
        invariant Scanned(Visited(claims, i, j))
        invariant found <==> Direct(Visited(claims, i, j)) != [] || Hits(Visited(claims, i, j)) != []
      {
        ok, found := StatementStep(claims, i, j, found);
        if !ok {
          return;
        }
        j := j + 1;
      }
      VisitedEnd(claims, i);
      return true, found;
    }

    /** One turn of the inner claim loop: the `j`-th claim of the `i`-th predicate. */
    method StatementStep(claims: Dict<seq<Claim>>, i: nat, j: nat, found0: bool) returns (ok: bool, found: bool)
      requires i < |claims| && j < |claims[i].1|
      requires Scanned(Visited(claims, i, j))
      requires found0 <==> Direct(Visited(claims, i, j)) != [] || Hits(Visited(claims, i, j)) != []
      modifies this`tempPreds, this`indirect
      ensures !ok ==> !HitsOk(Hits(Flatten(claims)))
      ensures ok ==> Scanned(Visited(claims, i, j + 1))
      ensures ok ==> (found <==> Direct(Visited(claims, i, j + 1)) != [] || Hits(Visited(claims, i, j + 1)) != [])
    {
      VisitedNext(claims, i, j);
      ok, found := VisitClaim(Visited(claims, i, j), (claims[i].0, claims[i].1[j]), found0);
      if !ok {
        BadClaim(claims, i, j);
      }
    }

    /** The body of the inner claim loop for claim `x`. */
    method VisitClaim(ghost done: seq<(string, Claim)>, x: (string, Claim), found0: bool)
      returns (ok: bool, found: bool)
      requires Scanned(done)
      requires found0 <==> Direct(done) != [] || Hits(done) != []
      modifies this`tempPreds, this`indirect
      ensures !ok ==> !HitsOk(Hits(done + [x]))
      ensures ok ==> Scanned(done + [x])
      ensures ok ==> (found <==> Direct(done + [x]) != [] || Hits(done + [x]) != [])
    {
      HitsSnoc(done, x);
      found := found0;
      var snak := x.1.mainsnak;
      var claimType := ClaimType(snak);
      if claimType == "time" {
        found := true;
        tempPreds := tempPreds + [FromTime("", snak)];
      }
      if claimType != "wikibase-entityid" || x.1.qualifiers.None? {
        assert ClaimHits(x) == [];
        assert Hits(done + [x]) == Hits(done);
        return true, found;
      }
      var anyHit;
      ok, anyHit := ProcessQualifiers(Hits(done), x.0, snak.snak.datavalue.id, x.1.qualifiers.value);
      if !ok {
        HitsOkAppend(Hits(done), ClaimHits(x));
        return;
      }
      found := found || anyHit;
    }

    /** The qualifier loops of `process` for one entity-valued claim of
        predicate `pred` whose object is `entity`. */
    method ProcessQualifiers(ghost before: seq<Hit>, pred: string, entity: string, qualifiers: Dict<seq<Snak>>)
      returns (ok: bool, anyHit: bool)
      requires Recorded(before)
      modifies this`indirect
      ensures !ok ==> !HitsOk(QualHits(pred, entity, Flatten(qualifiers)))
      ensures ok ==> Recorded(before + QualHits(pred, entity, Flatten(qualifiers)))
      ensures ok ==> (anyHit <==> QualHits(pred, entity, Flatten(qualifiers)) != [])
    {
      anyHit := false;
      var k := 0;
      assert before + QualHits(pred, entity, Flatten(qualifiers[..0])) == before;
      while k < |qualifiers|
        invariant 0 <= k <= |qualifiers|
        invariant Recorded(before + QualHits(pred, entity, Flatten(qualifiers[..k])))
        invariant anyHit <==> QualHits(pred, entity, Flatten(qualifiers[..k])) != []
      {
        ok, anyHit := ProcessQualifierList(before, pred, entity, qualifiers, k, anyHit);
        if !ok {
          return;
        }
        k := k + 1;
      }
      FlattenAll(qualifiers);
      return true, anyHit;
    }

    /** The inner qualifier loop, over the snaks of the `k`-th qualifier predicate. */
    method ProcessQualifierList(ghost before: seq<Hit>, pred: string, entity: string,
                                qualifiers: Dict<seq<Snak>>, k: nat, anyHit0: bool)
      returns (ok: bool, anyHit: bool)
      requires k < |qualifiers|
      requires Recorded(before + QualHits(pred, entity, Flatten(qualifiers[..k])))
      requires anyHit0 <==> QualHits(pred, entity, Flatten(qualifiers[..k])) != []
      modifies this`indirect
      ensures !ok ==> !HitsOk(QualHits(pred, entity, Flatten(qualifiers)))
      ensures ok ==> Recorded(before + QualHits(pred, entity, Flatten(qualifiers[..k + 1])))
      ensures ok ==> (anyHit <==> QualHits(pred, entity, Flatten(qualifiers[..k + 1])) != [])
    {
      anyHit := anyHit0;
      var l := 0;
      VisitedStart(qualifiers, k);
      while l < |qualifiers[k].1|
        invariant 0 <= l <= |qualifiers[k].1|
        invariant Recorded(before + QualHits(pred, entity, Visited(qualifiers, k, l)))
        invariant anyHit <==> QualHits(pred, entity, Visited(qualifiers, k, l)) != []
      {
        ok, anyHit := QualifierStep(before, pred, entity, qualifiers, k, l, anyHit);
        if !ok {
          return;
        }
        l := l + 1;
      }
      VisitedEnd(qualifiers, k);
      return true, anyHit;
    }

    /** One turn of the inner qualifier loop: the `l`-th snak of the `k`-th
        qualifier predicate. */
    method QualifierStep(ghost before: seq<Hit>, pred: string, entity: string,
                         qualifiers: Dict<seq<Snak>>, k: nat, l: nat, anyHit0: bool)
      returns (ok: bool, anyHit: bool)
      requires k < |qualifiers| && l < |qualifiers[k].1|
      requires Recorded(before + QualHits(pred, entity, Visited(qualifiers, k, l)))
      requires anyHit0 <==> QualHits(pred, entity, Visited(qualifiers, k, l)) != []
      modifies this`indirect
      ensures !ok ==> !HitsOk(QualHits(pred, entity, Flatten(qualifiers)))
      ensures ok ==> Recorded(before + QualHits(pred, entity, Visited(qualifiers, k, l + 1)))
      ensures ok ==> (anyHit <==> QualHits(pred, entity, Visited(qualifiers, k, l + 1)) != [])
    {
      ghost var seen := Visited(qualifiers, k, l);
      VisitedNext(qualifiers, k, l);
      var q := (qualifiers[k].0, qualifiers[k].1[l]);
      QualHitsSnoc(pred, entity, seen, q);
      var hit := Qualifies(q.1);
      ok := VisitQualifier(before + QualHits(pred, entity, seen), pred, entity, q.1);
      if !ok {
        BadQualifier(pred, entity, qualifiers, k, l);
        return false, true;
      }
      anyHit := anyHit0 || hit;
      assert before + QualHits(pred, entity, seen + [q]) ==
        (before + QualHits(pred, entity, seen)) + (if hit then [Hit(pred, entity, q.1)] else []);
    }

    /** The body of the inner qualifier loop for qualifier snak `q`. */
    method VisitQualifier(ghost hs: seq<Hit>, pred: string, entity: string, q: Snak) returns (ok: bool)
      requires Recorded(hs)
      modifies this`indirect
      ensures !ok ==> Qualifies(q) && !IsTimeSnak(q)
      ensures ok ==> Recorded(hs + (if Qualifies(q) then [Hit(pred, entity, q)] else []))
    {
      if q.dataType != "time" || !q.snak.Value? {
        assert hs + [] == hs;
        return true;
      }
      if !q.snak.datavalue.TimeValue? {
        return false;
      }
      var tempData := FromTime(entity, q);
      IndirectSnoc(hs, Hit(pred, entity, q));
      GroupBySnoc(IndirectPairs(hs), pred, tempData);
      var track := if pred in indirect then indirect[pred] else [];
      track := track + [tempData];
      indirect := indirect[pred := track];
      return true;
    }
  }

  /** A claim whose qualifier raised is part of the record, so the record raises. */
  lemma BadClaim(claims: Dict<seq<Claim>>, i: nat, j: nat)
    requires i < |claims| && j < |claims[i].1|
    requires !HitsOk(Hits(Visited(claims, i, j + 1)))
    ensures !HitsOk(Hits(Flatten(claims)))
  {
    var v := Visited(claims, i, j + 1);
    VisitedPrefix(claims, i, j + 1);
    assert Flatten(claims)[..|v|] == v;
    if HitsOk(Hits(Flatten(claims))) {
      HitsOkPrefix(Flatten(claims), |v|);
    }
  }

  /** A time-typed value qualifier that holds no time makes its claim raise. */
  lemma BadQualifier(pred: string, entity: string, qualifiers: Dict<seq<Snak>>, k: nat, l: nat)
    requires k < |qualifiers| && l < |qualifiers[k].1|
    requires Qualifies(qualifiers[k].1[l]) && !IsTimeSnak(qualifiers[k].1[l])
    ensures !HitsOk(QualHits(pred, entity, Flatten(qualifiers)))
  {
    var q := (qualifiers[k].0, qualifiers[k].1[l]);
    InFlatten(qualifiers, k, l);
    QualHitsHas(pred, entity, Flatten(qualifiers), q);
    HitsOkMeaning(QualHits(pred, entity, Flatten(qualifiers)));
  }

  lemma {:induction false} QualHitsHas(pred: string, entity: string, qs: seq<(string, Snak)>, q: (string, Snak))
    requires q in qs && Qualifies(q.1)
    ensures Hit(pred, entity, q.1) in QualHits(pred, entity, qs)
  {
    if qs[|qs| - 1] != q {
      assert q in qs[..|qs| - 1];
      QualHitsHas(pred, entity, qs[..|qs| - 1], q);
    }
  }

  lemma HitsOkAppend(a: seq<Hit>, b: seq<Hit>)
    ensures HitsOk(a + b) <==> HitsOk(a) && HitsOk(b)
  {
    HitsOkMeaning(a);
    HitsOkMeaning(b);
    HitsOkMeaning(a + b);
    assert forall h :: h in a + b <==> h in a || h in b;
  }

  lemma HitsOkPrefix(ps: seq<(string, Claim)>, n: nat)
    requires n <= |ps| && HitsOk(Hits(ps))
    ensures HitsOk(Hits(ps[..n]))
  {
    HitsPrefix(ps, n);
    HitsOkShorter(Hits(ps[..n]), Hits(ps));
  }

  lemma HitsOkShorter(a: seq<Hit>, b: seq<Hit>)
    requires a <= b && HitsOk(b)
    ensures HitsOk(a)
  {
    HitsOkMeaning(a);
    HitsOkMeaning(b);
    forall h | h in a
      ensures h in b
    {
      var i :| 0 <= i < |a| && a[i] == h;
      assert b[i] == h;
    }
  }

  /** The hits of a prefix of the claims are a prefix of the hits. */
  lemma {:induction false} HitsPrefix(ps: seq<(string, Claim)>, n: nat)
    requires n <= |ps|
    ensures Hits(ps[..n]) <= Hits(ps)
    decreases |ps| - n
  {
    if n < |ps| {
      var t := ps[..|ps| - 1];
      assert t[..n] == ps[..n];
      HitsPrefix(t, n);
    } else {
      assert ps[..n] == ps;
    }
  }
}
