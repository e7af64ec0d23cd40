/** The counting and parsing parts of analyzer/code/analyze.py:
    `calc_men_women`, and reading humans.txt back into the gender and
    occupation dictionaries. */
module Analyze {
  import opened Common
  import opened Record
  import opened Text
  import opened AnalyzerHelper

  // ---------------------------------------------------------------------
  // calc_men_women

  /** `occupation_mapping.get(person) == occupation`. */
  function HasOccupation(occMap: Dict<string>, occupation: string): string -> bool
  {
    (e: string) => Get(occMap, e) == Some(occupation)
  }

  /** `genders.get(person) == gender`. */
  function HasGender(genders: Dict<string>, gender: string): string -> bool
  {
    (e: string) => Get(genders, e) == Some(gender)
  }

  /** `ent not in set(occupation_mapping.keys())`. */
  function Unmapped(occMap: Dict<string>): string -> bool
  {
    (e: string) => e !in Keys(occMap)
  }

  /** `calc_men_women`: the men and the women among the entities holding
      `occupation`, and the entities without any occupation. */
  function CalcMenWomen(entities: seq<string>, genders: Dict<string>, occMap: Dict<string>, occupation: string)
    : (r: (seq<string>, seq<string>, seq<string>))
  {
    var people := Filter(entities, HasOccupation(occMap, occupation));
    (Filter(people, HasGender(genders, MALE)),
     Filter(people, HasGender(genders, FEMALE)),
     Filter(entities, Unmapped(occMap)))
  }

  /** The people holding `occupation`, kept in entity order. */
  function PeopleWith(entities: seq<string>, occMap: Dict<string>, occupation: string): seq<string>
  {
    Filter(entities, HasOccupation(occMap, occupation))
  }

  /** The men and the women are order-preserving selections of the people
      holding the occupation: exactly those whose gender is male,
      respectively female. */
  lemma {:induction false} MenWomenMeaning(entities: seq<string>, genders: Dict<string>, occMap: Dict<string>, occupation: string)
    ensures IsSubsequence(CalcMenWomen(entities, genders, occMap, occupation).0, PeopleWith(entities, occMap, occupation))
    ensures IsSubsequence(CalcMenWomen(entities, genders, occMap, occupation).1, PeopleWith(entities, occMap, occupation))
    ensures IsSubsequence(PeopleWith(entities, occMap, occupation), entities)
    ensures forall e :: e in CalcMenWomen(entities, genders, occMap, occupation).0 <==>
      e in entities && Get(occMap, e) == Some(occupation) && Get(genders, e) == Some(MALE)
    ensures forall e :: e in CalcMenWomen(entities, genders, occMap, occupation).1 <==>
      e in entities && Get(occMap, e) == Some(occupation) && Get(genders, e) == Some(FEMALE)
  {
    var people := PeopleWith(entities, occMap, occupation);
    FilterIsSubsequence(people, HasGender(genders, MALE));
    FilterIsSubsequence(people, HasGender(genders, FEMALE));
    FilterIsSubsequence(entities, HasOccupation(occMap, occupation));
    forall e | e in entities && Get(occMap, e) == Some(occupation)
      ensures e in people
    {
      FilterKeeps(entities, HasOccupation(occMap, occupation), e);
    }
    forall e | e in people && Get(genders, e) == Some(MALE)
      ensures e in CalcMenWomen(entities, genders, occMap, occupation).0
    {
      FilterKeeps(people, HasGender(genders, MALE), e);
    }
    forall e | e in people && Get(genders, e) == Some(FEMALE)
      ensures e in CalcMenWomen(entities, genders, occMap, occupation).1
    {
      FilterKeeps(people, HasGender(genders, FEMALE), e);
    }
  }

  /** Nobody is listed both as a man and as a woman. */
  lemma MenWomenDisjoint(entities: seq<string>, genders: Dict<string>, occMap: Dict<string>, occupation: string, e: string)
    ensures !(e in CalcMenWomen(entities, genders, occMap, occupation).0 && e in CalcMenWomen(entities, genders, occMap, occupation).1)
  {
    MenWomenMeaning(entities, genders, occMap, occupation);
  }

  /** `non_people` is exactly the entities without an occupation entry, in
      entity order. */
  lemma NonPeopleMeaning(entities: seq<string>, genders: Dict<string>, occMap: Dict<string>, occupation: string)
    ensures IsSubsequence(CalcMenWomen(entities, genders, occMap, occupation).2, entities)
    ensures forall e :: e in CalcMenWomen(entities, genders, occMap, occupation).2 <==>
      e in entities && Get(occMap, e).None?
  {
    FilterIsSubsequence(entities, Unmapped(occMap));
    forall e | e in entities
      ensures e in CalcMenWomen(entities, genders, occMap, occupation).2 <==> Get(occMap, e).None?
    {
      GetMeaning(occMap, e);
      if Get(occMap, e).None? {
        FilterKeeps(entities, Unmapped(occMap), e);
      } else {
        var i :| 0 <= i < |occMap| && occMap[i] == (e, Get(occMap, e).value);
        assert Keys(occMap)[i] == e;
      }
    }
  }

  // ---------------------------------------------------------------------
  // Reading humans.txt

  /** A line of humans.txt that the reader accepts: three tab-separated
      fields, the third non-empty. */
  predicate Accepted(line: string)
  {
    var items := Split(line, '\t');
    |items| == 3 && items[2] != ""
  }

  /** An accepted line about entity `e`. */
  predicate Names(line: string, e: string)
  {
    Accepted(line) && Split(line, '\t')[0] == e
  }

  /** `gender_mapping` and `occ_mapping` after reading `lines`. */
  function HumanMaps(lines: seq<string>): (Dict<string>, Dict<string>)
  {
    if lines == [] then ([], [])
    else
      var (genders, occs) := HumanMaps(lines[..|lines| - 1]);
      var line := lines[|lines| - 1];
      if Accepted(line) then
        var items := Split(line, '\t');
        (Put(genders, items[0], items[1]), Put(occs, items[0], items[2]))
      else (genders, occs)
  }

  /** The reading loop of analyze.py over the lines of humans.txt (the file
      is taken as its list of lines, the result of `splitlines`). */
  method ParseHumans(lines: seq<string>) returns (genderMapping: Dict<string>, occMapping: Dict<string>)
    ensures (genderMapping, occMapping) == HumanMaps(lines)
  {
    genderMapping, occMapping := [], [];
    for i := 0 to |lines|
      invariant (genderMapping, occMapping) == HumanMaps(lines[..i])
    {
      assert lines[..i + 1][..i] == lines[..i];
      var items := Split(lines[i], '\t');
      if |items| == 3 && items[2] != "" {
        var ent, gender, occupation := items[0], items[1], items[2];
        genderMapping := Put(genderMapping, ent, gender);
        occMapping := Put(occMapping, ent, occupation);
      }
    }
    assert lines[..|lines|] == lines;
  }

  /** The last accepted line about an entity decides both of its entries:
      later lines overwrite earlier ones. */
  lemma {:induction false} HumanMapsLast(lines: seq<string>, i: nat, e: string)
    requires i < |lines| && Names(lines[i], e)
    requires forall j :: i < j < |lines| ==> !Names(lines[j], e)
    ensures Get(HumanMaps(lines).0, e) == Some(Split(lines[i], '\t')[1])
    ensures Get(HumanMaps(lines).1, e) == Some(Split(lines[i], '\t')[2])
  {
    var init := lines[..|lines| - 1];
    if i < |lines| - 1 {
      assert init[i] == lines[i];
      HumanMapsLast(init, i, e);
      assert !Names(lines[|lines| - 1], e);
    }
  }

  /** An entity no accepted line names has no entry. */
  lemma {:induction false} HumanMapsNone(lines: seq<string>, e: string)
    requires forall j :: 0 <= j < |lines| ==> !Names(lines[j], e)
    ensures Get(HumanMaps(lines).0, e).None? && Get(HumanMaps(lines).1, e).None?
  {
    if lines != [] {
      var init := lines[..|lines| - 1];
      assert forall j :: 0 <= j < |init| ==> init[j] == lines[j];
      HumanMapsNone(init, e);
      assert !Names(lines[|lines| - 1], e);
    }
  }

  // ---------------------------------------------------------------------
  // humans.txt written by write_gen_occ and read back here

  /** A written line is its three fields joined by tabs. */
  lemma LineJoin(t: (string, string, string))
    ensures Line(t) == Join([t.0, t.1, t.2], '\t')
  {
    var xs := [t.0, t.1, t.2];
    assert xs[1..][1..] == [t.2];
    assert Join(xs[1..], '\t') == t.1 + "\t" + t.2;
  }

  /** Reading a written line gives back its fields, when none holds a tab. */
  lemma LineFields(t: (string, string, string))
    requires '\t' !in t.0 && '\t' !in t.1 && '\t' !in t.2
    ensures Split(Line(t), '\t') == [t.0, t.1, t.2]
  {
    LineJoin(t);
    SplitJoin([t.0, t.1, t.2], '\t');
  }

  /** No key or value of the dictionaries holds a tab. The round trip
      starts from the written lines, so line breaks inside a field, which
      `splitlines` would split on, are outside it. */
  predicate TabFree(d: Dict<string>)
  {
    forall i :: 0 <= i < |d| ==> '\t' !in d[i].0 && '\t' !in d[i].1
  }

  /** humans.txt round trip: reading back what `write_gen_occ` wrote gives
      every entity with a non-empty occupation its occupation and its
      gender ("" when it had none), and nobody else an entry: a line with
      only a gender is written but not read back. */
  lemma RoundTrip(occupations: Dict<string>, genders: Dict<string>, order: seq<string>, e: string)
    requires Distinct(order)
    requires Elements(order) == Elements(Keys(occupations)) + Elements(Keys(genders))
    requires TabFree(occupations) && TabFree(genders)
    ensures GetOr(occupations, e, "") != "" ==>
      Get(HumanMaps(Lines(Rows(order, occupations, genders))).1, e) == Some(GetOr(occupations, e, "")) &&
      Get(HumanMaps(Lines(Rows(order, occupations, genders))).0, e) == Some(GetOr(genders, e, ""))
    ensures GetOr(occupations, e, "") == "" ==>
      Get(HumanMaps(Lines(Rows(order, occupations, genders))).1, e).None? &&
      Get(HumanMaps(Lines(Rows(order, occupations, genders))).0, e).None?
  {
    RowsMeaning(order, occupations, genders);
    LinesFields(occupations, genders, order);
    if GetOr(occupations, e, "") != "" {
      ReadBack(occupations, genders, order, e);
    } else {
      NotReadBack(occupations, genders, order, e);
    }
  }

  /** Each written line reads back as its three fields. */
  lemma LinesFields(occupations: Dict<string>, genders: Dict<string>, order: seq<string>)
    requires Distinct(order)
    requires TabFree(occupations) && TabFree(genders)
    ensures forall j :: 0 <= j < |Rows(order, occupations, genders)| ==>
      Split(Lines(Rows(order, occupations, genders))[j], '\t') ==
        [Rows(order, occupations, genders)[j].0, Rows(order, occupations, genders)[j].1, Rows(order, occupations, genders)[j].2]
  {
    var rows := Rows(order, occupations, genders);
    RowsMeaning(order, occupations, genders);
    forall j | 0 <= j < |rows| ensures Split(Lines(rows)[j], '\t') == [rows[j].0, rows[j].1, rows[j].2] {
      assert rows[j] in rows;
      TabFreeFields(occupations, genders, rows[j].0);
      LineFields(rows[j]);
    }
  }

  lemma ReadBack(occupations: Dict<string>, genders: Dict<string>, order: seq<string>, e: string)
    requires Distinct(order)
    requires Elements(order) == Elements(Keys(occupations)) + Elements(Keys(genders))
    requires GetOr(occupations, e, "") != ""
    requires forall j :: 0 <= j < |Rows(order, occupations, genders)| ==>
      Split(Lines(Rows(order, occupations, genders))[j], '\t') ==
        [Rows(order, occupations, genders)[j].0, Rows(order, occupations, genders)[j].1, Rows(order, occupations, genders)[j].2]
    ensures Get(HumanMaps(Lines(Rows(order, occupations, genders))).1, e) == Some(GetOr(occupations, e, ""))
    ensures Get(HumanMaps(Lines(Rows(order, occupations, genders))).0, e) == Some(GetOr(genders, e, ""))
  {
    var rows := Rows(order, occupations, genders);
    var lines := Lines(rows);
    RowsMeaning(order, occupations, genders);
    var t := Fields(occupations, genders, e);
    KeyInOrder(occupations, genders, order, e);
    assert t in rows;
    var i :| 0 <= i < |rows| && rows[i] == t;
    assert Names(lines[i], e);
    forall j | i < j < |lines| ensures !Names(lines[j], e) {
      assert rows[i].0 != rows[j].0;
    }
    HumanMapsLast(lines, i, e);
  }

  lemma NotReadBack(occupations: Dict<string>, genders: Dict<string>, order: seq<string>, e: string)
    requires Distinct(order)
    requires GetOr(occupations, e, "") == ""
    requires forall j :: 0 <= j < |Rows(order, occupations, genders)| ==>
      Split(Lines(Rows(order, occupations, genders))[j], '\t') ==
        [Rows(order, occupations, genders)[j].0, Rows(order, occupations, genders)[j].1, Rows(order, occupations, genders)[j].2]
    ensures Get(HumanMaps(Lines(Rows(order, occupations, genders))).1, e).None?
    ensures Get(HumanMaps(Lines(Rows(order, occupations, genders))).0, e).None?
  {
    var rows := Rows(order, occupations, genders);
    var lines := Lines(rows);
    RowsMeaning(order, occupations, genders);
    forall j | 0 <= j < |lines| ensures !Names(lines[j], e) {
      assert rows[j] in rows;
      if rows[j].0 == e {
        assert rows[j] == Fields(occupations, genders, e);
      }
    }
    HumanMapsNone(lines, e);
  }

  /** Every field of a candidate line is tab-free when the dictionaries
      and the entity are. */
  lemma TabFreeFields(occupations: Dict<string>, genders: Dict<string>, e: string)
    requires TabFree(occupations) && TabFree(genders)
    requires Get(occupations, e).Some? || Get(genders, e).Some?
    ensures '\t' !in e && '\t' !in GetOr(genders, e, "") && '\t' !in GetOr(occupations, e, "")
  {
    GetMeaning(occupations, e);
    GetMeaning(genders, e);
    if Get(occupations, e).Some? {
      var i :| 0 <= i < |occupations| && occupations[i] == (e, Get(occupations, e).value);
    } else {
      var i :| 0 <= i < |genders| && genders[i] == (e, Get(genders, e).value);
    }
    if Get(genders, e).Some? {
      var i :| 0 <= i < |genders| && genders[i] == (e, Get(genders, e).value);
    }
  }

  /** An entity with an occupation is visited. */
  lemma KeyInOrder(occupations: Dict<string>, genders: Dict<string>, order: seq<string>, e: string)
    requires Elements(order) == Elements(Keys(occupations)) + Elements(Keys(genders))
    requires Get(occupations, e).Some?
    ensures e in order
  {
    GetMeaning(occupations, e);
    var i :| 0 <= i < |occupations| && occupations[i] == (e, Get(occupations, e).value);
    assert Keys(occupations)[i] == e;
    assert e in Elements(order);
  }
}
