/** The run helpers of parser/code/helper.py: the line framing of
    `read_lines` and the checkpoint decision of `check_progress`. */
module ParserHelper {
  import opened Common
  import opened Record
  import opened Manager

  /** One physical line of the dump: the ones that carry a record end in
      ",\n", and the "[" and "]" lines that frame the array are at most two
      characters long. `None` for a dropped line. */
  function Frame(line: string): (r: Option<string>)
    ensures r.None? <==> |line| <= 2
    ensures r.Some? ==> r.value + line[|line| - 2..] == line
  {
    if |line| > 2 then Some(line[..|line| - 2]) else None
  }

  /** The texts `read_lines` hands to the JSON decoder, in line order. */
  function FrameLines(lines: seq<string>): seq<string>
  {
    if lines == [] then []
    else
      var last := lines[|lines| - 1];
      FrameLines(lines[..|lines| - 1]) + (if |last| > 2 then [Frame(last).value] else [])
  }

  lemma FrameLinesSnoc(lines: seq<string>, line: string)
    ensures FrameLines(lines + [line]) == FrameLines(lines) + (if |line| > 2 then [Frame(line).value] else [])
  {
    assert (lines + [line])[..|lines|] == lines;
  }

  /** Framing distributes over concatenation: it works line by line and
      keeps the order. */
  lemma {:induction false} FrameLinesAppend(a: seq<string>, b: seq<string>)
    ensures FrameLines(a + b) == FrameLines(a) + FrameLines(b)
  {
    if b == [] {
      assert a + b == a;
    } else {
      var init, last := b[..|b| - 1], b[|b| - 1];
      assert a + b == (a + init) + [last];
      assert b == init + [last];
      FrameLinesAppend(a, init);
      FrameLinesSnoc(a + init, last);
      FrameLinesSnoc(init, last);
    }
  }

  /** One text per line longer than two characters, each that line
      without its last two characters. */
  lemma {:induction false} FrameLinesMeaning(lines: seq<string>)
    ensures |FrameLines(lines)| == CountIf(lines, Long)
    ensures forall t :: t in FrameLines(lines) ==> exists l :: l in lines && |l| > 2 && t == l[..|l| - 2]
  {
    if lines != [] {
      var init, last := lines[..|lines| - 1], lines[|lines| - 1];
      assert lines == init + [last];
      FrameLinesMeaning(init);
      forall t | t in FrameLines(lines)
        ensures exists l :: l in lines && |l| > 2 && t == l[..|l| - 2]
      {
        if t in FrameLines(init) {
          var l :| l in init && |l| > 2 && t == l[..|l| - 2];
          assert l in lines;
        } else {
          assert last in lines;
        }
      }
    }
  }

  predicate Long(line: string)
  {
    |line| > 2
  }

  /** The dump's layout: an opening "[" line, one line per record text
      followed by ",", and a closing "]" line. A last record line without
      the "," is not part of this layout. */
  function Document(texts: seq<string>): seq<string>
  {
    ["[\n"] + Lines(texts) + ["]\n"]
  }

  function Lines(texts: seq<string>): (r: seq<string>)
    ensures |r| == |texts|
  {
    if texts == [] then [] else Lines(texts[..|texts| - 1]) + [texts[|texts| - 1] + ",\n"]
  }

  /** Framing undoes the layout: every non-empty record text comes back,
      in order, and the two framing lines are dropped. */
  lemma {:induction false} FrameDocument(texts: seq<string>)
    requires forall t :: t in texts ==> t != ""
    ensures FrameLines(Document(texts)) == texts
  {
    FrameLinesAppend(["[\n"] + Lines(texts), ["]\n"]);
    FrameLinesAppend(["[\n"], Lines(texts));
    assert FrameLines(["[\n"]) == [] by { assert ["[\n"][..0] == []; }
    assert FrameLines(["]\n"]) == [] by { assert ["]\n"][..0] == []; }
    FrameLinesOfLines(texts);
  }

  lemma {:induction false} FrameLinesOfLines(texts: seq<string>)
    requires forall t :: t in texts ==> t != ""
    ensures FrameLines(Lines(texts)) == texts
  {
    if texts != [] {
      var init, last := texts[..|texts| - 1], texts[|texts| - 1];
      assert texts == init + [last];
      assert last in texts;
      assert forall t :: t in init ==> t in texts;
      FrameLinesOfLines(init);
      FrameLinesSnoc(Lines(init), last + ",\n");
      assert (last + ",\n")[..|last + ",\n"| - 2] == last;
    }
  }

  /** The decoded records of framed texts, one per text. */
  function DecodeAll(texts: seq<string>, decode: string -> Entity): (r: seq<Entity>)
    ensures |r| == |texts| && forall i :: 0 <= i < |texts| ==> r[i] == decode(texts[i])
  {
    seq(|texts|, i requires 0 <= i < |texts| => decode(texts[i]))
  }

  /** `read_lines` on the physical lines `bytelines` that `readlines`
      returned; `decode` stands for `json.loads`. A closed file yields no
      records. */
  method ReadLines(closed: bool, bytelines: seq<string>, decode: string -> Entity) returns (strlines: seq<Entity>)
    ensures strlines == if closed then [] else DecodeAll(FrameLines(bytelines), decode)
  {
    if closed {
      return [];
    }
    strlines := [];
    var i := 0;
    while i < |bytelines|
      invariant 0 <= i <= |bytelines|
      invariant strlines == DecodeAll(FrameLines(bytelines[..i]), decode)
    {
      var line := bytelines[i];
      FrameLinesSnoc(bytelines[..i], line);
      assert bytelines[..i + 1] == bytelines[..i] + [line];
      if |line| > 2 {
        strlines := strlines + [decode(line[..|line| - 2])];
      }
      i := i + 1;
    }
    assert bytelines[..i] == bytelines;
  }

  /** Saved records per progress report. */
  const MINOR_STEP: nat := 100000
  /** Progress reports per dump. */
  const DUMP_EVERY: nat := 10

  /** `check_progress`: `minor` when the saved count has passed another
      100,000 mark beyond `passed`; `major`, with a dump of the current
      map under the selected extractor's name, when `passed` is a non-zero
      multiple of ten. `int(saved / 100_000)` is a float division
      truncated toward zero, which for a count is the integer quotient. */
  method CheckProgress(data: DataMgr, passed: nat) returns (major: bool, minor: bool)
    modifies data`entities, data`dumps
    ensures minor <==> data.saved / MINOR_STEP > passed
    ensures major <==> passed != 0 && passed % DUMP_EVERY == 0
    ensures major ==> data.dumps == old(data.dumps) + [Dump(data.selectedParser, old(data.entities))]
    ensures major ==> data.entities == map[]
    ensures !major ==> data.dumps == old(data.dumps) && data.entities == old(data.entities)
  {
    var saved := data.Size();
    major := false;
    minor := saved / MINOR_STEP > passed;
    if passed != 0 && passed % DUMP_EVERY == 0 {
      major := true;
      data.DumpCurrent(data.selectedParser);
    }
  }

  /** `passed` after one batch of the driver loop: incremented when minor
      fires, then reset when major fires. */
  function NextPassed(passed: nat, saved: nat): (r: nat)
    ensures passed != 0 && passed % DUMP_EVERY == 0 ==> r == 0
    ensures !(passed != 0 && passed % DUMP_EVERY == 0) ==>
      r == if saved / MINOR_STEP > passed then passed + 1 else passed
  {
    var minor := saved / MINOR_STEP > passed;
    var major := passed != 0 && passed % DUMP_EVERY == 0;
    var p := if minor then passed + 1 else passed;
    if major then 0 else p
  }

  /** `passed` never exceeds ten: at ten a dump fires and resets it. */
  lemma PassedBound(passed: nat, saved: nat)
    requires passed <= DUMP_EVERY
    ensures NextPassed(passed, saved) <= DUMP_EVERY
  {
  }

  /** Once 1,100,000 records are saved, `passed` (at most ten) can never
      catch up with the saved count, so every batch reports progress and
      the dumps follow batch counts, one every eleven batches, rather than
      saved counts. */
  lemma {:induction false} EveryBatchIsMinor(passed: nat, saved: nat)
    requires passed <= DUMP_EVERY && saved >= (DUMP_EVERY + 1) * MINOR_STEP
    ensures saved / MINOR_STEP > passed
  {
    var q := saved / MINOR_STEP;
    assert saved == q * MINOR_STEP + saved % MINOR_STEP;
  }

  /** `passed` after a run of batches, given the saved count after each one. */
  function PassedAfter(saves: seq<nat>): (r: nat)
  {
    if saves == [] then 0 else NextPassed(PassedAfter(saves[..|saves| - 1]), saves[|saves| - 1])
  }

  lemma PassedAfterSnoc(saves: seq<nat>, s: nat)
    ensures PassedAfter(saves + [s]) == NextPassed(PassedAfter(saves), s)
  {
    assert (saves + [s])[..|saves|] == saves;
  }

  /** Past 1,100,000 saved records a dump happens exactly every eleventh
      batch: from a reset, ten batches count `passed` up to ten and the
      eleventh dumps and resets. */
  lemma {:induction false} ElevenBatchCycle(saves: seq<nat>, more: seq<nat>)
    requires PassedAfter(saves) == 0
    requires |more| <= DUMP_EVERY + 1
    requires forall s :: s in more ==> s >= (DUMP_EVERY + 1) * MINOR_STEP
    ensures PassedAfter(saves + more) == if |more| == DUMP_EVERY + 1 then 0 else |more|
  {
    if more == [] {
      assert saves + more == saves;
    } else {
      var init, last := more[..|more| - 1], more[|more| - 1];
      assert more == init + [last];
      assert forall s :: s in init ==> s in more;
      ElevenBatchCycle(saves, init);
      assert saves + more == (saves + init) + [last];
      PassedAfterSnoc(saves + init, last);
      assert last in more;
      EveryBatchIsMinor(PassedAfter(saves + init), last);
    }
  }
}
