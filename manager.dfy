/** The extractor registry and the run accumulator (`DataMgr` in
    parser/code/entityparsers/manager.py). */
module Manager {
  import opened Common
  import opened Record
  import FullParser
  import HumanParser
  import LabelsParser
  import HumanTempParser
  import CountryParser
  import HumanDefParser

  /** The registered extractors. The "women" extractor is not registered. */
  datatype Kind = FullKind | HumanKind | LabelKind | HumanTempKind | CountryKind | HumanDefKind

  /** `self.parsers`: registry names in registration order. */
  const REGISTRY: Dict<Kind> := [
    ("full", FullKind),
    ("human", HumanKind),
    ("label", LabelKind),
    ("human_temp", HumanTempKind),
    ("country", CountryKind),
    ("human_def", HumanDefKind)]

  /** An extractor object after `process`: one variant per registered extractor. */
  datatype EntData =
    | FullEnt(fullData: FullParser.FullData)
    | HumanEnt(humanData: HumanParser.HumanData)
    | LabelEnt(labelData: LabelsParser.LabelData)
    | TempEnt(tempData: HumanTempParser.TempData)
    | CountryEnt(countryData: CountryParser.CountryData)
    | DefEnt(defData: HumanDefParser.DefData)
  {
    /** The `id` attribute every extractor object has. */
    function Id(): string
    {
      match this
      case FullEnt(d) => d.id
      case HumanEnt(d) => d.id
      case LabelEnt(d) => d.id
      case TempEnt(d) => d.id
      case CountryEnt(d) => d.id
      case DefEnt(d) => d.id
    }
  }

  /** An extractor's result, tagged with its variant. */
  function Lift<T>(r: Result<Option<T>>, tag: T -> EntData): (s: Result<Option<EntData>>)
    ensures Status(s) == Status(r)
    ensures s.Ok? && s.value.Some? ==> s.value.value == tag(r.value.value)
  {
    match r
    case Fail(e) => Fail(e)
    case Ok(None) => Ok(None)
    case Ok(Some(d)) => Ok(Some(tag(d)))
  }

  /** What `self.parser(id).process(record)` yields for extractor `kind`. */
  function Run(kind: Kind, e: Entity): Result<Option<EntData>>
  {
    match kind
    case FullKind => Lift(FullParser.Extract(e), (d: FullParser.FullData) => FullEnt(d))
    case HumanKind => Lift(HumanParser.Extract(e), (d: HumanParser.HumanData) => HumanEnt(d))
    case LabelKind => Lift(LabelsParser.Extract(e), (d: LabelsParser.LabelData) => LabelEnt(d))
    case HumanTempKind => Lift(HumanTempParser.Extract(e), (d: HumanTempParser.TempData) => TempEnt(d))
    case CountryKind => Lift(CountryParser.Extract(e), (d: CountryParser.CountryData) => CountryEnt(d))
    case HumanDefKind => Lift(HumanDefParser.Extract(e), (d: HumanDefParser.DefData) => DefEnt(d))
  }

  /** Every extractor is built from the record's id and keeps it: a saved
      object is filed under the id of the record it came from. */
  lemma RunKeepsId(kind: Kind, e: Entity)
    requires Run(kind, e).Ok? && Run(kind, e).value.Some?
    ensures Run(kind, e).value.value.Id() == e.id
  {
  }

  /** The tagged result of `process` seen from the caller: it raised,
      returned None or returned the object. */
  function Outcome(st: Result<bool>, d: EntData): (r: Result<Option<EntData>>)
    ensures Status(r) == st
    ensures r.Ok? && r.value.Some? ==> r.value.value == d
  {
    match st
    case Fail(e) => Fail(e)
    case Ok(saved) => if saved then Ok(Some(d)) else Ok(None)
  }

  /** The contract every extractor's `process` keeps, turned into its tagged result. */
  lemma OutcomeIsLift<T>(r: Result<Option<T>>, st: Result<bool>, snap: T, tag: T -> EntData)
    requires st == Status(r) && (st == Ok(true) ==> snap == r.value.value)
    ensures Outcome(st, tag(snap)) == Lift(r, tag)
  {
  }

  /** A registered name and the extractor it selects. */
  function Lookup(name: string): (r: Option<Kind>)
    ensures r.Some? <==> name in Keys(REGISTRY)
  {
    GetMeaning(REGISTRY, name);
    Get(REGISTRY, name)
  }

  /** Dumped contents: the `entities` map each `dump_current` appended to
      the file `<name>.p`. */
  datatype Dump = Dump(name: string, entities: map<string, EntData>)

  /** `DataMgr`. */
  class DataMgr {
    var entities: map<string, EntData>
    var processed: nat
    var saved: nat
    var selectedParser: string
    /** `self.parser`: absent until `set_parser` succeeds. */
    var parser: Option<Kind>
    /** The pickle sink: every dump, in order. */
    var dumps: seq<Dump>

    /** A record is saved only after it was counted as processed. */
    predicate Valid()
      reads this
    {
      saved <= processed
    }

    constructor ()
      ensures Valid()
      ensures entities == map[] && processed == 0 && saved == 0
      ensures selectedParser == "" && parser.None? && dumps == []
    {
      entities := map[];
      processed := 0;
      saved := 0;
      selectedParser := "";
      parser := None;
      dumps := [];
    }

    /** `get_parsers`: the registry names in registration order. */
    method GetParsers() returns (names: seq<string>)
      ensures |names| == |REGISTRY|
      ensures forall name :: name in names <==> Lookup(name).Some?
    {
      names := Keys(REGISTRY);
    }

    /** `set_parser`: the name is recorded before the registry lookup, so
        an unknown name is recorded and then raises KeyError, leaving the
        previous extractor selected. */
    method SetParser(name: string) returns (r: Result<()>)
      modifies this`selectedParser, this`parser
      ensures selectedParser == name
      ensures r.Ok? <==> Lookup(name).Some?
      ensures r.Ok? ==> parser == Lookup(name)
      ensures r.Fail? ==> r.error == KeyError && parser == old(parser)
    {
      selectedParser := name;
      var kind := Lookup(name);
      if kind.None? {
        return Fail(KeyError);
      }
      parser := kind;
      return Ok(());
    }

    /** `process_entity`: `processed` counts every call, even one that
        raises; `saved` counts the objects returned. Without a selected
        extractor, reading `self.parser` raises AttributeError. */
    method ProcessEntity(entData: Entity) returns (r: Result<Option<EntData>>)
      requires Valid()
      modifies this`processed, this`saved
      ensures Valid()
      ensures processed == old(processed) + 1
      ensures r == if parser.None? then Fail(AttributeError) else Run(parser.value, entData)
      ensures saved == old(saved) + if r.Ok? && r.value.Some? then 1 else 0
    {
      processed := processed + 1;
      if parser.None? {
        return Fail(AttributeError);
      }
      r := Build(parser.value, entData);
      if r.Ok? && r.value.Some? {
        saved := saved + 1;
      }
    }

    /** `dump_current`: the current map goes to the sink and is wiped; the
        counters are untouched. */
    method DumpCurrent(name: string)
      modifies this`entities, this`dumps
      ensures dumps == old(dumps) + [Dump(name, old(entities))]
      ensures entities == map[]
    {
      dumps := dumps + [Dump(name, entities)];
      entities := map[];
    }

    /** `add_entities`: `dict.update`, so an incoming id replaces a stored one. */
    method AddEntities(incoming: map<string, EntData>)
      modifies this`entities
      ensures entities == old(entities) + incoming
    {
      entities := entities + incoming;
    }

    /** `get_size`. */
    function Size(): nat
      reads this
    {
      saved
    }

    /** `get_processed`. */
    function Processed(): nat
      reads this
    {
      processed
    }
  }

  /** `self.parser(ent_data['id']).process(ent_data)`: a fresh extractor
      object for the record's id, run on the record. */
  method Build(kind: Kind, data: Entity) returns (r: Result<Option<EntData>>)
    ensures r == Run(kind, data)
  {
    match kind
    case FullKind =>
      var p := new FullParser.FullEnt(data.id);
      var st := p.Process(data);
      OutcomeIsLift(FullParser.Extract(data), st, p.Snapshot(), (d: FullParser.FullData) => FullEnt(d));
      r := Outcome(st, FullEnt(p.Snapshot()));
    case HumanKind =>
      var p := new HumanParser.Human(data.id);
      var st := p.Process(data);
      OutcomeIsLift(HumanParser.Extract(data), st, p.Snapshot(), (d: HumanParser.HumanData) => HumanEnt(d));
      r := Outcome(st, HumanEnt(p.Snapshot()));
    case LabelKind =>
      var p := new LabelsParser.Labels(data.id);
      var st := p.Process(data);
      OutcomeIsLift(LabelsParser.Extract(data), st, p.Snapshot(), (d: LabelsParser.LabelData) => LabelEnt(d));
      r := Outcome(st, LabelEnt(p.Snapshot()));
    case HumanTempKind =>
      var p := new HumanTempParser.TempHuman(data.id);
      var st := p.Process(data);
      OutcomeIsLift(HumanTempParser.Extract(data), st, p.Snapshot(), (d: HumanTempParser.TempData) => TempEnt(d));
      r := Outcome(st, TempEnt(p.Snapshot()));
    case CountryKind =>
      var p := new CountryParser.Country(data.id);
      var st := p.Process(data);
      OutcomeIsLift(CountryParser.Extract(data), st, p.Snapshot(), (d: CountryParser.CountryData) => CountryEnt(d));
      r := Outcome(st, CountryEnt(p.Snapshot()));
    case HumanDefKind =>
      var p := new HumanDefParser.HumanDef(data.id);
      var st := p.Process(data);
      OutcomeIsLift(HumanDefParser.Extract(data), st, p.Snapshot(), (d: HumanDefParser.DefData) => DefEnt(d));
      r := Outcome(st, DefEnt(p.Snapshot()));
  }
}
