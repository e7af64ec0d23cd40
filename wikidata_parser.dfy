/** The run driver (parser/code/wikidata_parser.py): skip a number of
    lines of the dump, then read, extract and accumulate batches until an
    empty one, dumping on the way and once more at the end. */
module WikidataParser {
  import opened Common
  import opened Record
  import opened Manager
  import opened ParserHelper

  /** What processing one record yields. */
  type Extractor = Entity -> Result<Option<EntData>>

  function Min(a: nat, b: nat): nat
  {
    if a < b then a else b
  }

  /** The decompressed dump, read line by line. `readlines(3 * 10^8)`
      returns whole lines up to a size hint; here it returns `chunk` lines,
      or the rest of the file when fewer are left. */
  class DumpFile {
    const lines: seq<string>
    const chunk: nat
    var pos: nat
    var closed: bool

    predicate Valid()
      reads this
    {
      pos <= |lines|
    }

    constructor (lines: seq<string>, chunk: nat)
      ensures Valid() && this.lines == lines && this.chunk == chunk && pos == 0 && !closed
    {
      this.lines := lines;
      this.chunk := chunk;
      pos := 0;
      closed := false;
    }

    /** `readline`: the next line, or "" at the end of the file. */
    method ReadLine() returns (line: string)
      requires Valid()
      modifies this`pos
      ensures Valid()
      ensures pos == Min(old(pos) + 1, |lines|)
      ensures line == if old(pos) < |lines| then lines[old(pos)] else ""
    {
      if pos < |lines| {
        line := lines[pos];
        pos := pos + 1;
      } else {
        line := "";
      }
    }

    /** `readlines(hint)`: the next chunk of lines, empty at the end of the file. */
    method ReadChunk() returns (chunkLines: seq<string>)
      requires Valid()
      modifies this`pos
      ensures Valid()
      ensures pos == old(pos) + Min(chunk, |lines| - old(pos))
      ensures chunkLines == lines[old(pos)..pos]
    {
      var n := Min(chunk, |lines| - pos);
      chunkLines := lines[pos..pos + n];
      pos := pos + n;
    }
  }

  /** The skip loop: `skip` calls of `readline`, which consume `skip`
      lines, or every line of a shorter file. */
  method SkipLines(f: DumpFile, skip: nat)
    requires f.Valid()
    modifies f`pos
    ensures f.Valid()
    ensures f.pos == Min(old(f.pos) + skip, |f.lines|)
  {
    var i := 0;
    while i < skip
      invariant 0 <= i <= skip
      invariant f.Valid()
      invariant f.pos == Min(old(f.pos) + i, |f.lines|)
    {
      var _ := f.ReadLine();
      i := i + 1;
    }
  }

  /** The record batches the loop processes from the lines `rest` on:
      each is the framed and decoded next chunk, and the first empty one
      ends the loop, even when lines remain after it. */
  function Batches(rest: seq<string>, chunk: nat, decode: string -> Entity): seq<seq<Entity>>
    decreases |rest|
  {
    var n := Min(chunk, |rest|);
    var b := DecodeAll(FrameLines(rest[..n]), decode);
    if n == 0 || b == [] then [] else [b] + Batches(rest[n..], chunk, decode)
  }

  /** The batches still to come when `lines` was just read and `rest` is unread. */
  function Pending(lines: seq<Entity>, rest: seq<string>, chunk: nat, decode: string -> Entity): seq<seq<Entity>>
  {
    if lines == [] then [] else [lines] + Batches(rest, chunk, decode)
  }

  /** One `read_lines` call from position `p` unfolds `Batches` by one step. */
  lemma BatchesRead(all: seq<string>, p: nat, chunk: nat, decode: string -> Entity)
    requires p <= |all|
    ensures var n := Min(chunk, |all| - p);
      Batches(all[p..], chunk, decode) ==
        Pending(DecodeAll(FrameLines(all[p..p + n]), decode), all[p + n..], chunk, decode)
  {
    var n := Min(chunk, |all| - p);
    assert all[p..][..n] == all[p..p + n];
    assert all[p..][n..] == all[p + n..];
    if n == 0 {
      assert all[p..p + n] == [];
    }
  }

  /** `lambda e: data.process_entity(e)` once an extractor is selected. */
  function Runner(kind: Kind): Extractor
  {
    (e: Entity) => Run(kind, e)
  }

  /** `run` does on every record what extractor `kind` does. The driver is
      stated for such a `run`, so that its proof never unfolds the
      extractors themselves. */
  ghost predicate Selects(run: Extractor, kind: Kind)
  {
    forall e {:trigger Run(kind, e)} :: run(e) == Run(kind, e)
  }

  lemma RunnerSelects(kind: Kind)
    ensures Selects(Runner(kind), kind)
  {
  }

  /** The saved objects of a run over `bs`, batch after batch; the first
      record that raises ends the run. */
  function RunAll(run: Extractor, bs: seq<seq<Entity>>): Result<seq<EntData>>
  {
    if bs == [] then Ok([])
    else
      match RunAll(run, bs[..|bs| - 1])
      case Fail(e) => Fail(e)
      case Ok(prev) =>
        match Collect(bs[|bs| - 1], run)
        case Fail(e) => Fail(e)
        case Ok(s) => Ok(prev + s)
  }

  lemma RunAllSnoc(run: Extractor, bs: seq<seq<Entity>>, b: seq<Entity>)
    ensures RunAll(run, bs + [b]) ==
      match RunAll(run, bs)
      case Fail(e) => Fail(e)
      case Ok(prev) =>
        match Collect(b, run)
        case Fail(e) => Fail(e)
        case Ok(s) => Ok(prev + s)
  {
    assert (bs + [b])[..|bs|] == bs;
  }

  /** Once a batch raised, the run has raised whatever follows. */
  lemma {:induction false} RunAllFailPersists(run: Extractor, bs: seq<seq<Entity>>, more: seq<seq<Entity>>)
    requires RunAll(run, bs).Fail?
    ensures RunAll(run, bs + more).Fail?
  {
    if more == [] {
      assert bs + more == bs;
    } else {
      var init := more[..|more| - 1];
      RunAllFailPersists(run, bs, init);
      assert bs + more == (bs + init) + [more[|more| - 1]];
      RunAllSnoc(run, bs + init, more[|more| - 1]);
    }
  }

  /** The number of records in the batches. */
  function Total(bs: seq<seq<Entity>>): nat
  {
    if bs == [] then 0 else Total(bs[..|bs| - 1]) + |bs[|bs| - 1]|
  }

  lemma TotalSnoc(bs: seq<seq<Entity>>, b: seq<Entity>)
    ensures Total(bs + [b]) == Total(bs) + |b|
  {
    assert (bs + [b])[..|bs|] == bs;
  }

  /** `{ent.id: ent for ent in entities}`: a later object replaces an
      earlier one with the same id. */
  function Index(es: seq<EntData>): (m: map<string, EntData>)
  {
    if es == [] then map[] else Index(es[..|es| - 1])[es[|es| - 1].Id() := es[|es| - 1]]
  }

  /** Indexing two runs one after the other is indexing their
      concatenation: later objects win across batches as within one. */
  lemma {:induction false} IndexAppend(a: seq<EntData>, b: seq<EntData>)
    ensures Index(a + b) == Index(a) + Index(b)
  {
    if b == [] {
      assert a + b == a;
    } else {
      var init, last := b[..|b| - 1], b[|b| - 1];
      assert a + b == (a + init) + [last];
      assert b == init + [last];
      IndexAppend(a, init);
      assert (a + b)[..|a + b| - 1] == a + init;
    }
  }

  /** An id is indexed exactly when some object has it, and it maps to the
      last object with that id. */
  lemma {:induction false} IndexMeaning(es: seq<EntData>, id: string)
    ensures id in Index(es) <==> exists i :: 0 <= i < |es| && es[i].Id() == id
    ensures id in Index(es) ==>
      exists i :: 0 <= i < |es| && Index(es)[id] == es[i] && es[i].Id() == id && LastWith(es, i, id)
  {
    if es != [] {
      var init, last := es[..|es| - 1], es[|es| - 1];
      IndexMeaning(init, id);
      if last.Id() != id {
        if id in Index(init) {
          var i :| 0 <= i < |init| && Index(init)[id] == init[i] && init[i].Id() == id && LastWith(init, i, id);
          assert es[i] == init[i];
          assert LastWith(es, i, id);
        }
        if exists i :: 0 <= i < |es| && es[i].Id() == id {
          var i :| 0 <= i < |es| && es[i].Id() == id;
          assert init[i] == es[i];
        }
      }
    }
  }

  /** No object after the `i`-th has id `id`. */
  predicate LastWith(es: seq<EntData>, i: nat, id: string)
  {
    forall j :: i < j < |es| ==> es[j].Id() != id
  }

  /** Everything dumped, read back in order: later dumps win. */
  function MergeDumps(ds: seq<Dump>): map<string, EntData>
  {
    if ds == [] then map[] else MergeDumps(ds[..|ds| - 1]) + ds[|ds| - 1].entities
  }

  lemma MergeDumpsSnoc(ds: seq<Dump>, d: Dump)
    ensures MergeDumps(ds + [d]) == MergeDumps(ds) + d.entities
  {
    assert (ds + [d])[..|ds|] == ds;
  }

  lemma ConsAssoc<T>(a: seq<T>, x: T, c: seq<T>)
    ensures a + ([x] + c) == (a + [x]) + c
  {
  }

  lemma MapUnion<K, V>(a: map<K, V>, b: map<K, V>, c: map<K, V>)
    ensures (a + b) + c == a + (b + c)
  {
  }

  /** `list(filter(None, map(data.process_entity, lines)))`: the records
      are processed in order and the saved objects kept; a record that
      raises ends the batch after it was counted. */
  method ProcessBatch(data: DataMgr, batch: seq<Entity>, ghost run: Extractor) returns (r: Result<seq<EntData>>)
    requires data.Valid() && data.parser.Some? && Selects(run, data.parser.value)
    modifies data`processed, data`saved
    ensures data.Valid()
    ensures r == Collect(batch, run)
    ensures r.Ok? ==> data.processed == old(data.processed) + |batch|
    ensures r.Ok? ==> data.saved == old(data.saved) + |r.value|
  {
    var kept: seq<EntData> := [];
    var i := 0;
    while i < |batch|
      invariant 0 <= i <= |batch|
      invariant data.Valid()
      invariant Collect(batch[..i], run) == Ok(kept)
      invariant data.processed == old(data.processed) + i
      invariant data.saved == old(data.saved) + |kept|
    {
      var ent := data.ProcessEntity(batch[i]);
      CollectPrefixStep(batch, i, run, kept, ent);
      if ent.Fail? {
        return Fail(ent.error);
      }
      if ent.value.Some? {
        kept := kept + [ent.value.value];
      }
      i := i + 1;
    }
    assert batch[..i] == batch;
    return Ok(kept);
  }

  /** `read_lines(f)` in the driver: the next chunk, framed and decoded;
      what is left of `Batches` moves on by one. */
  method ReadBatch(f: DumpFile, decode: string -> Entity) returns (lines: seq<Entity>)
    requires f.Valid() && !f.closed
    modifies f`pos
    ensures f.Valid() && old(f.pos) <= f.pos
    ensures Batches(f.lines[old(f.pos)..], f.chunk, decode) == Pending(lines, f.lines[f.pos..], f.chunk, decode)
    ensures lines != [] ==> old(f.pos) < f.pos
  {
    ghost var all, p := f.lines, f.pos;
    BatchesRead(all, p, f.chunk, decode);
    var chunkLines := f.ReadChunk();
    assert f.lines == all && chunkLines == all[p..f.pos];
    lines := ReadLines(f.closed, chunkLines, decode);
    assert lines == DecodeAll(FrameLines(all[p..f.pos]), decode);
    if lines != [] {
      assert chunkLines != [];
    }
  }

  /** Reading the next batch moves one batch from pending to done. */
  lemma PendingStep(bs: seq<seq<Entity>>, done: seq<seq<Entity>>, next: seq<Entity>, rest: seq<string>,
                    lines: seq<Entity>, rest': seq<string>, chunk: nat, decode: string -> Entity)
    requires next != [] && bs == done + Pending(next, rest, chunk, decode)
    requires Batches(rest, chunk, decode) == Pending(lines, rest', chunk, decode)
    ensures bs == (done + [next]) + Pending(lines, rest', chunk, decode)
  {
    ConsAssoc(done, next, Pending(lines, rest', chunk, decode));
  }

  /** A batch extends the run: its failure is the run's, and its saved
      objects follow those of the earlier batches. */
  lemma RunAllStep(run: Extractor, done: seq<seq<Entity>>, lines: seq<Entity>, saved: seq<EntData>,
                   r: Result<seq<EntData>>)
    requires RunAll(run, done) == Ok(saved) && r == Collect(lines, run)
    ensures r.Fail? ==> RunAll(run, done + [lines]).Fail?
    ensures r.Ok? ==> RunAll(run, done + [lines]) == Ok(saved + r.value)
  {
    RunAllSnoc(run, done, lines);
  }

  /** Adding a batch's objects by id keeps what was dumped and what is held
      together equal to the index of everything saved. */
  lemma AddStep(dumped: map<string, EntData>, held: map<string, EntData>, saved: seq<EntData>, kept: seq<EntData>)
    requires dumped + held == Index(saved)
    ensures dumped + (held + Index(kept)) == Index(saved + kept)
  {
    IndexAppend(saved, kept);
    MapUnion(dumped, held, Index(kept));
  }

  /** A dump moves what is held to the dumps without changing their union. */
  lemma DumpStep(ds: seq<Dump>, name: string, held: map<string, EntData>)
    ensures MergeDumps(ds + [Dump(name, held)]) + map[] == MergeDumps(ds) + held
  {
    MergeDumpsSnoc(ds, Dump(name, held));
    var m := MergeDumps(ds + [Dump(name, held)]);
    assert m + map[] == m;
  }

  /** The rest of a loop turn once the batch was processed: add the saved
      objects by id, check progress and move `passed` on. */
  method Accumulate(data: DataMgr, kept: seq<EntData>, passed: nat, ghost saved: seq<EntData>)
    returns (passed': nat)
    requires MergeDumps(data.dumps) + data.entities == Index(saved)
    requires passed <= DUMP_EVERY
    modifies data`entities, data`dumps
    ensures MergeDumps(data.dumps) + data.entities == Index(saved + kept)
    ensures passed' == NextPassed(passed, data.saved) && passed' <= DUMP_EVERY
  {
    AddStep(MergeDumps(data.dumps), data.entities, saved, kept);
    data.AddEntities(Index(kept));
    DumpStep(data.dumps, data.selectedParser, data.entities);
    var major, minor := CheckProgress(data, passed);
    passed' := passed;
    if minor {
      passed' := passed' + 1;
    }
    if major {
      passed' := 0;
    }
    PassedBound(passed, data.saved);
  }

  /** The driver loop of `wikidata_parser.py`, from the batch `lines` just
      read: batches are processed until one raises or a read comes back
      empty. The batches from `start` on are `done`, already processed with
      the saved objects `saved`, then those still pending. */
  method Loop(data: DataMgr, f: DumpFile, decode: string -> Entity, ghost run: Extractor, ghost start: nat,
              lines: seq<Entity>, passed: nat, ghost done: seq<seq<Entity>>, ghost saved: seq<EntData>)
    returns (r: Result<()>, ghost done': seq<seq<Entity>>, ghost saved': seq<EntData>)
    requires f.Valid() && !f.closed && start <= f.pos
    requires data.Valid() && data.parser.Some? && Selects(run, data.parser.value)
    requires Batches(f.lines[start..], f.chunk, decode) == done + Pending(lines, f.lines[f.pos..], f.chunk, decode)
    requires RunAll(run, done) == Ok(saved)
    requires MergeDumps(data.dumps) + data.entities == Index(saved)
    requires passed <= DUMP_EVERY
    modifies data`entities, data`dumps, data`processed, data`saved, f`pos
    ensures data.Valid()
    ensures r.Fail? ==> RunAll(run, Batches(f.lines[start..], f.chunk, decode)).Fail?
    ensures r.Ok? ==> Batches(f.lines[start..], f.chunk, decode) == done'
    ensures r.Ok? ==> RunAll(run, done') == Ok(saved')
    ensures r.Ok? ==> data.processed + Total(done) == old(data.processed) + Total(done')
    ensures r.Ok? ==> data.saved + |saved| == old(data.saved) + |saved'|
    ensures r.Ok? ==> MergeDumps(data.dumps) + data.entities == Index(saved')
  {
    var next: seq<Entity>, p: nat := lines, passed;
    done', saved' := done, saved;
    ghost var bs := Batches(f.lines[start..], f.chunk, decode);
    while next != []
      invariant f.Valid() && !f.closed && start <= f.pos
      invariant data.Valid()
      invariant bs == done' + Pending(next, f.lines[f.pos..], f.chunk, decode)
      invariant RunAll(run, done') == Ok(saved')
      invariant data.processed + Total(done) == old(data.processed) + Total(done')
      invariant data.saved + |saved| == old(data.saved) + |saved'|
      invariant MergeDumps(data.dumps) + data.entities == Index(saved')
      invariant p <= DUMP_EVERY
      decreases |f.lines| - f.pos + (if next == [] then 0 else 1)
    {
      ghost var rest := f.lines[f.pos..];
      var entities := ProcessBatch(data, next, run);
      RunAllStep(run, done', next, saved', entities);
      if entities.Fail? {
        ConsAssoc(done', next, Batches(rest, f.chunk, decode));
        RunAllFailPersists(run, done' + [next], Batches(rest, f.chunk, decode));
        return Fail(entities.error), done', saved';
      }
      p := Accumulate(data, entities.value, p, saved');
      TotalSnoc(done', next);
      var read := ReadBatch(f, decode);
      PendingStep(bs, done', next, rest, read, f.lines[f.pos..], f.chunk, decode);
      done' := done' + [next];
      saved' := saved' + entities.value;
      next := read;
    }
    assert done' + [] == done';
    return Ok(()), done', saved';
  }

  /** The driver of `wikidata_parser.py` once an extractor is selected:
      skip `skip` lines, run the loop, then dump what is left under the
      extractor's name. On success the run is the one over the batches of
      the unskipped lines, every processed record is counted, every saved
      object is in the dumps under its id (later ones win) and the map is
      left empty. */
  method Drive(data: DataMgr, f: DumpFile, skip: nat, decode: string -> Entity, ghost run: Extractor)
    returns (r: Result<()>, ghost saved: seq<EntData>)
    requires data.Valid() && data.parser.Some? && Selects(run, data.parser.value)
    requires data.entities == map[] && data.dumps == []
    requires f.Valid() && f.pos == 0 && !f.closed
    modifies data`entities, data`dumps, data`processed, data`saved, f`pos
    ensures data.Valid()
    ensures var bs := Batches(f.lines[Min(skip, |f.lines|)..], f.chunk, decode);
      r.Ok? <==> RunAll(run, bs).Ok?
    ensures var bs := Batches(f.lines[Min(skip, |f.lines|)..], f.chunk, decode);
      r.Ok? ==> RunAll(run, bs) == Ok(saved)
    ensures var bs := Batches(f.lines[Min(skip, |f.lines|)..], f.chunk, decode);
      r.Ok? ==> data.processed == old(data.processed) + Total(bs)
    ensures r.Ok? ==> data.saved == old(data.saved) + |saved|
    ensures r.Ok? ==> data.entities == map[] && MergeDumps(data.dumps) == Index(saved)
    ensures r.Ok? ==> |data.dumps| >= 1 && data.dumps[|data.dumps| - 1].name == data.selectedParser
  {
    SkipLines(f, skip);
    var start := f.pos;
    assert start == Min(skip, |f.lines|);
    ghost var bs := Batches(f.lines[start..], f.chunk, decode);
    ghost var all := f.lines;
    var lines := ReadBatch(f, decode);
    assert [] + Pending(lines, f.lines[f.pos..], f.chunk, decode) == Pending(lines, f.lines[f.pos..], f.chunk, decode);
    ghost var done;
    ghost var before := data.processed;
    r, done, saved := Loop(data, f, decode, run, start, lines, 0, [], []);
    assert f.lines == all;
    if r.Fail? {
      assert RunAll(run, bs).Fail?;
      return;
    }
    assert bs == done && RunAll(run, bs) == Ok(saved);
    assert data.processed == before + Total(bs);
    ghost var entities := data.entities;
    ghost var dumps := data.dumps;
    MergeDumpsSnoc(dumps, Dump(data.selectedParser, entities));
    data.DumpCurrent(data.selectedParser);
  }
}
