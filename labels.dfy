/** The "label" extractor (`Labels` in parser/code/entityparsers/labels.py):
    one label per record, the English one when there is one. */
module LabelsParser {
  import opened Common
  import opened Record

  /** What `label` ends up holding: the initial empty string or the value
      of the "en" label is text; without an "en" label the first label
      object is stored whole (language and value), not its value. */
  datatype LabelValue = Text(s: string) | Entry(term: Term)

  /** `caption` is the extractor's `label` field (`label` is a Dafny keyword). */
  datatype LabelData = LabelData(id: string, caption: LabelValue)

  /** The label chosen for a record. */
  function PickLabel(e: Entity): (r: LabelValue)
    ensures e.labels.None? || e.labels.value == [] ==> r == Text("")
    ensures e.labels.Some? && Get(e.labels.value, "en").Some? ==>
      r == Text(Get(e.labels.value, "en").value.value)
    ensures e.labels.Some? && e.labels.value != [] && Get(e.labels.value, "en").None? ==>
      r == Entry(e.labels.value[0].1)
  {
    if e.labels.None? || |e.labels.value| == 0 then Text("")
    else match Get(e.labels.value, "en")
      case None => Entry(e.labels.value[0].1)
      case Some(en) => Text(en.value)
  }

  /** `Labels(e.id).process(e)`: every record yields its label. */
  function Extract(e: Entity): (r: Result<Option<LabelData>>)
    ensures r.Ok? && r.value.Some? && r.value.value.id == e.id
  {
    Ok(Some(LabelData(e.id, PickLabel(e))))
  }

  /** The label is always taken from the record: a whole label object
      exactly when the record has labels but none in English, and then its
      first one; any non-empty text is the value of an "en" entry. */
  lemma LabelFromRecord(e: Entity)
    ensures PickLabel(e).Entry? <==>
      e.labels.Some? && e.labels.value != [] &&
      forall i :: 0 <= i < |e.labels.value| ==> e.labels.value[i].0 != "en"
    ensures PickLabel(e).Entry? ==> PickLabel(e).term == e.labels.value[0].1
    ensures PickLabel(e).Text? && PickLabel(e).s != "" ==>
      exists i :: 0 <= i < |e.labels.value| && e.labels.value[i].0 == "en" &&
        e.labels.value[i].1.value == PickLabel(e).s
  {
    if e.labels.Some? {
      GetMeaning(e.labels.value, "en");
    }
  }

  /** `Labels`: the extractor object the manager builds for one record. */
  class Labels {
    var id: string
    var caption: LabelValue

    function Snapshot(): LabelData
      reads this
    {
      LabelData(id, caption)
    }

    constructor (id: string)
      ensures this.id == id && caption == Text("")
    {
      this.id := id;
      caption := Text("");
    }

    /** `process`: never rejects a record. */
    method Process(data: Entity) returns (r: Result<bool>)
      requires caption == Text("") && id == data.id
      modifies this`caption
      ensures r == Status(Extract(data)) && r == Ok(true)
      ensures Snapshot() == Extract(data).value.value
    {
      var labels := data.labels;
      if labels.Some? && |labels.value| > 0 {
        var en := Get(labels.value, "en");
        if en.None? {
          caption := Entry(Get(labels.value, Keys(labels.value)[0]).value);
        } else {
          caption := Text(en.value.value);
        }
      }
      return Ok(true);
    }
  }
}
