/**
 * DeserializeOfficialFile: read a data file in rounds, partition each
 * non-empty chunk, deserialize it batch by batch, then route the records to
 * their tables and save once per chunk.
 */
module Ingest {
  import opened Wrappers
  import opened Models
  import opened Seqs
  import opened LineReader
  import opened Partition
  import opened Deserializer
  import opened Database

  /** Ingestion of one file so far: the store, the subject counter, and the fault that ended it, if any. */
  datatype FileRun = FileRun(db: Db, next: int, fault: Option<Fault>)

  /**
   * One round of the outer loop. A chunk that kept nothing is skipped. A
   * chunk with a throwing line ends the file before any of its records is
   * added. Otherwise its slots, in index order, go to their tables and the
   * context is saved once.
   */
  function ChunkStep(parse: Parser, kind: EntityKind, st: FileRun, chunk: seq<string>): FileRun {
    if st.fault.Some? || chunk == [] then st
    else
      var b := RunBatches(parse, kind, Batches(chunk), st.next);
      if b.faults != [] then st.(next := b.next, fault := Some(b.faults[0]))
      else
        var t := RouteAll(st.db.tracked, Concat(b.slots));
        FileRun(Db(t, t, st.db.saves + 1), b.next, None)
  }

  /** The rounds, one after another. */
  function IngestChunks(parse: Parser, kind: EntityKind, chunks: seq<seq<string>>, st: FileRun): FileRun {
    if chunks == [] then st
    else ChunkStep(parse, kind, IngestChunks(parse, kind, chunks[..|chunks| - 1], st), chunks[|chunks| - 1])
  }

  /** A whole file; the subject counter starts at 1 once per file. */
  function IngestFile(parse: Parser, kind: EntityKind, raw: seq<string>, db: Db): FileRun {
    IngestChunks(parse, kind, Rounds(raw), FileRun(db, 1, None))
  }

  /**
   * Ingestion never touches the manifest table and commits only by saving
   * everything tracked: with no save the committed rows are unchanged, and
   * after any save they hold the manifest rows tracked at the start.
   */
  lemma {:induction false} IngestChunksCommits(parse: Parser, kind: EntityKind, chunks: seq<seq<string>>, st: FileRun)
    ensures var out := IngestChunks(parse, kind, chunks, st);
      && out.db.tracked.archiveInfo == st.db.tracked.archiveInfo
      && out.db.saves >= st.db.saves
      && (out.db.saves == st.db.saves ==> out.db.committed == st.db.committed)
      && (out.db.saves > st.db.saves ==> out.db.committed.archiveInfo == st.db.tracked.archiveInfo)
  {
    if chunks != [] {
      var prev := IngestChunks(parse, kind, chunks[..|chunks| - 1], st);
      IngestChunksCommits(parse, kind, chunks[..|chunks| - 1], st);
      var chunk := chunks[|chunks| - 1];
      if prev.fault.None? && chunk != [] {
        var b := RunBatches(parse, kind, Batches(chunk), prev.next);
        RouteAllByKind(prev.db.tracked, Concat(b.slots));
      }
    }
  }

  /** Number of chunks that kept at least one line (each is saved once). */
  function NonEmptyCount(chunks: seq<seq<string>>): nat {
    if chunks == [] then 0
    else NonEmptyCount(chunks[..|chunks| - 1]) + (if chunks[|chunks| - 1] != [] then 1 else 0)
  }

  lemma {:induction false} RouteAllAppend(t: Tables, a: seq<Record>, b: seq<Record>)
    ensures RouteAll(t, a + b) == RouteAll(RouteAll(t, a), b)
    decreases |b|
  {
    if b == [] {
      assert a + b == a;
    } else {
      assert (a + b)[..|a + b| - 1] == a + b[..|b| - 1];
      RouteAllAppend(t, a, b[..|b| - 1]);
    }
  }

  /**
   * A chunk's batch-wise processing has the effect of a sequential pass
   * over the chunk: on success its records, in line order, are routed and
   * saved once; on a fault nothing changes in the store.
   */
  lemma ChunkStepSequential(parse: Parser, kind: EntityKind, st: FileRun, chunk: seq<string>)
    requires st.fault.None? && chunk != []
    ensures var out, run := ChunkStep(parse, kind, st, chunk), ParseLines(parse, kind, chunk, st.next);
      && (run.Done? ==>
            var t := RouteAll(st.db.tracked, run.records);
            out == FileRun(Db(t, t, st.db.saves + 1), run.next, None))
      && (run.Faulted? ==> out.db == st.db && out.fault == Some(run.fault))
  {
    PartitionExact(chunk);
    BatchesAgree(parse, kind, Batches(chunk), st.next);
  }

  /**
   * The rounds together have the effect of one sequential pass over their
   * lines: the file fails exactly when a line throws, with the first such
   * line; otherwise the records are routed in line order, saved once per
   * non-empty chunk, and the saved rows are the context's rows (unless no
   * chunk had a line).
   */
  lemma {:induction false} IngestChunksSequential(parse: Parser, kind: EntityKind, chunks: seq<seq<string>>, st: FileRun)
    requires st.fault.None?
    ensures var out, run := IngestChunks(parse, kind, chunks, st), ParseLines(parse, kind, Concat(chunks), st.next);
      && (out.fault.None? <==> run.Done?)
      && (run.Faulted? ==> out.fault == Some(run.fault))
      && (run.Done? ==>
            && out.next == run.next
            && out.db.tracked == RouteAll(st.db.tracked, run.records)
            && out.db.saves == st.db.saves + NonEmptyCount(chunks)
            && out.db.committed == (if Concat(chunks) == [] then st.db.committed else out.db.tracked))
  {
    if chunks != [] {
      var init, last := chunks[..|chunks| - 1], chunks[|chunks| - 1];
      IngestChunksSequential(parse, kind, init, st);
      assert Concat(chunks) == Concat(init) + last;
      ParseLinesAppend(parse, kind, Concat(init), last, st.next);
      var prev := IngestChunks(parse, kind, init, st);
      var prevRun := ParseLines(parse, kind, Concat(init), st.next);
      if prevRun.Done? && last != [] {
        ChunkStepSequential(parse, kind, prev, last);
        var lastRun := ParseLines(parse, kind, last, prevRun.next);
        if lastRun.Done? {
          RouteAllAppend(st.db.tracked, prevRun.records, lastRun.records);
        }
      } else if prevRun.Done? {
        assert Concat(chunks) == Concat(init);
        assert ParseLines(parse, kind, last, prevRun.next) == Done([], prevRun.next);
        assert prevRun.records + [] == prevRun.records;
      }
    }
  }

  /** Once a fault has ended the file, further rounds change nothing. */
  lemma {:induction false} FaultIsFinal(parse: Parser, kind: EntityKind, chunks: seq<seq<string>>, st: FileRun, j: nat)
    requires j <= |chunks| && IngestChunks(parse, kind, chunks[..j], st).fault.Some?
    ensures IngestChunks(parse, kind, chunks, st) == IngestChunks(parse, kind, chunks[..j], st)
    decreases |chunks| - j
  {
    if j < |chunks| {
      assert chunks[..j + 1][..j] == chunks[..j];
      FaultIsFinal(parse, kind, chunks, st, j + 1);
    } else {
      assert chunks[..j] == chunks;
    }
  }

  /**
   * Parse failure is fail-fast: when chunk j is the first to hold a throwing
   * line, the file fails and the store is exactly what the chunks before j
   * left: their records routed and saved, nothing of chunk j or later.
   */
  lemma FailFast(parse: Parser, kind: EntityKind, chunks: seq<seq<string>>, st: FileRun, j: nat)
    requires st.fault.None? && j < |chunks|
    requires Clean(parse, kind, Concat(chunks[..j])) && !Clean(parse, kind, chunks[j])
    ensures var out, before := IngestChunks(parse, kind, chunks, st), IngestChunks(parse, kind, chunks[..j], st);
      && out.fault.Some?
      && before.fault.None?
      && out.db == before.db
      && ParseLines(parse, kind, Concat(chunks[..j]), st.next).Done?
      && before.db.tracked == RouteAll(st.db.tracked, ParseLines(parse, kind, Concat(chunks[..j]), st.next).records)
  {
    var before := IngestChunks(parse, kind, chunks[..j], st);
    IngestChunksSequential(parse, kind, chunks[..j], st);
    DoneIffClean(parse, kind, Concat(chunks[..j]), st.next);
    DoneIffClean(parse, kind, chunks[j], before.next);
    assert chunks[..j + 1][..j] == chunks[..j];
    assert chunks[j] != [];
    ChunkStepSequential(parse, kind, before, chunks[j]);
    FaultIsFinal(parse, kind, chunks, st, j + 1);
  }

  /**
   * A whole file behaves as one sequential pass over its non-empty lines with
   * the counter starting at 1: it fails exactly when a line throws;
   * otherwise its records are routed in line order and saved once per
   * non-empty chunk.
   */
  lemma IngestFileSequential(parse: Parser, kind: EntityKind, raw: seq<string>, db: Db)
    ensures var out, run := IngestFile(parse, kind, raw, db), ParseLines(parse, kind, Kept(raw), 1);
      && (out.fault.None? <==> Clean(parse, kind, Kept(raw)))
      && (run.Faulted? ==> out.fault == Some(run.fault))
      && (run.Done? ==>
            && out.db.tracked == RouteAll(db.tracked, run.records)
            && out.db.saves == db.saves + NonEmptyCount(Rounds(raw))
            && out.db.committed == (if Kept(raw) == [] then db.committed else out.db.tracked))
  {
    RoundsLossless(raw);
    IngestChunksSequential(parse, kind, Rounds(raw), FileRun(db, 1, None));
    DoneIffClean(parse, kind, Kept(raw), 1);
  }

  /**
   * A subject file that ingests without fault appends to the Subject table
   * one row per line that parsed to a Subject, with ids 1, 2, ..., N in line
   * order, and leaves every other table unchanged.
   */
  lemma SubjectFileIds(parse: Parser, raw: seq<string>, db: Db)
    ensures var out, values := IngestFile(parse, SubjectKind, raw, db), Values(parse, SubjectKind, Kept(raw));
      out.fault.None? ==>
        && |out.db.tracked.subject| == |db.tracked.subject| + |Subjects(values)|
        && out.db.tracked.subject[..|db.tracked.subject|] == db.tracked.subject
        && (var added := out.db.tracked.subject[|db.tracked.subject|..];
            forall i :: 0 <= i < |added| ==> added[i].id == i + 1)
        && out.db.tracked.(subject := db.tracked.subject) == db.tracked
  {
    var run := ParseLines(parse, SubjectKind, Kept(raw), 1);
    IngestFileSequential(parse, SubjectKind, raw, db);
    DoneIffClean(parse, SubjectKind, Kept(raw), 1);
    if run.Done? {
      SubjectIdsDense(parse, SubjectKind, Kept(raw), 1);
      RecordsOfKind(parse, SubjectKind, Kept(raw), 1);
      SingleKindTouchesOneTable(db.tracked, run.records, SubjectKind);
    }
  }

  /**
   * For every type but Subject the rows appended are exactly the lines'
   * deserialized values, in line order, with nulls dropped; only the file's
   * own table changes.
   */
  lemma FileRowsAreValues(parse: Parser, kind: EntityKind, raw: seq<string>, db: Db)
    requires kind != SubjectKind
    ensures var out := IngestFile(parse, kind, raw, db);
      out.fault.None? ==> out.db.tracked == RouteAll(db.tracked, Values(parse, kind, Kept(raw)))
  {
    IngestFileSequential(parse, kind, raw, db);
    DoneIffClean(parse, kind, Kept(raw), 1);
    RecordsAreValues(parse, kind, Kept(raw), 1);
  }

  /** The inner `for`: consume up to MAX_LINES raw lines from `pos`, keeping the non-empty ones. */
  method ReadRound(raw: seq<string>, pos: nat) returns (lines: seq<string>, end: nat)
    requires pos < |raw|
    ensures end == pos + RoundLength(|raw| - pos)
    ensures lines == Kept(raw[pos..end])
  {
    lines := [];
    end := pos;
    var i := 0;
    while i < MAX_LINES && end < |raw|
      invariant 0 <= i <= MAX_LINES && end == pos + i <= |raw|
      invariant lines == Kept(raw[pos..end])
    {
      var line := raw[end];
      assert raw[pos..end + 1] == raw[pos..end] + [line];
      if line != "" {
        lines := lines + [line];
      }
      end := end + 1;
      i := i + 1;
    }
  }

  /** The batch lambda: deserialize the batch's lines in order until one throws. */
  method DeserializeBatch(parse: Parser, kind: EntityKind, batch: seq<string>, start: int)
    returns (records: seq<Record>, fault: Option<Fault>, next: int)
    ensures ParseLines(parse, kind, batch, start)
         == if fault.None? then Done(records, next) else Faulted(fault.value, next)
  {
    records, fault, next := [], None, start;
    var i := 0;
    while i < |batch| && fault.None?
      invariant 0 <= i <= |batch|
      decreases |batch| - i
      invariant ParseLines(parse, kind, batch[..i], start)
             == if fault.None? then Done(records, next) else Faulted(fault.value, next)
    {
      var line := batch[i];
      assert batch[..i + 1][..i] == batch[..i];
      match parse(kind, line) {
        case Malformed(message) =>
          fault := Some(Fault(line, message));
        case Null =>
        case Value(r) =>
          if r.SubjectRecord? {
            records := records + [SubjectRecord(r.subject.(id := next))];
            next := next + 1;
          } else {
            records := records + [r];
          }
      }
      i := i + 1;
    }
    if fault.Some? {
      FaultIsFinalInBatch(parse, kind, batch, start, i);
    } else {
      assert batch[..i] == batch;
    }
  }

  /** A fault in a prefix of a batch is the batch's fault. */
  lemma FaultIsFinalInBatch(parse: Parser, kind: EntityKind, batch: seq<string>, start: int, i: nat)
    requires i <= |batch| && ParseLines(parse, kind, batch[..i], start).Faulted?
    ensures ParseLines(parse, kind, batch, start) == ParseLines(parse, kind, batch[..i], start)
  {
    ParseLinesAppend(parse, kind, batch[..i], batch[i..], start);
    assert batch[..i] + batch[i..] == batch;
  }

  /** Run every batch's lambda in order, each filling its own slot. */
  method DeserializeBatches(parse: Parser, kind: EntityKind, batches: seq<seq<string>>, start: int)
    returns (slots: array<seq<Record>>, faults: seq<Fault>, next: int)
    ensures fresh(slots)
    ensures RunBatches(parse, kind, batches, start) == Batched(slots[..], faults, next)
  {
    slots := new seq<Record>[|batches|];
    faults, next := [], start;
    var index := 0;
    while index < |batches|
      invariant 0 <= index <= |batches| == slots.Length
      invariant RunBatches(parse, kind, batches[..index], start) == Batched(slots[..index], faults, next)
    {
      assert batches[..index + 1][..index] == batches[..index];
      var records, fault, after := DeserializeBatch(parse, kind, batches[index], next);
      if fault.None? {
        slots[index] := records;
      } else {
        slots[index] := [];
        faults := faults + [fault.value];
      }
      next := after;
      index := index + 1;
    }
    assert batches[..index] == batches;
    assert slots[..index] == slots[..];
  }

  /** Route every record of every slot, in index order, to its table. */
  method AddSlots(store: ArchiveDbContext, slots: array<seq<Record>>)
    requires store.Valid()
    modifies store
    ensures store.Valid()
    ensures store.State() == old(store.State()).(tracked := RouteAll(old(store.tracked), Concat(slots[..])))
  {
    var index := 0;
    while index < slots.Length
      invariant 0 <= index <= slots.Length
      invariant store.Valid()
      invariant store.State() == old(store.State()).(tracked := RouteAll(old(store.tracked), Concat(slots[..index])))
    {
      var records := slots[index];
      var k := 0;
      assert Concat(slots[..index]) + records[..k] == Concat(slots[..index]);
      while k < |records|
        invariant 0 <= k <= |records|
        invariant store.Valid()
        invariant store.State()
               == old(store.State()).(tracked := RouteAll(old(store.tracked), Concat(slots[..index]) + records[..k]))
      {
        assert (Concat(slots[..index]) + records[..k + 1])[..|Concat(slots[..index]) + records[..k]|]
            == Concat(slots[..index]) + records[..k];
        store.Add(records[k]);
        k := k + 1;
      }
      assert slots[..index + 1][..index] == slots[..index];
      assert records[..k] == records;
      index := index + 1;
    }
    assert slots[..index] == slots[..];
  }

  /** Reading one more round extends the rounds read so far and the ingestion by one chunk step. */
  lemma NextRound(parse: Parser, kind: EntityKind, raw: seq<string>, pos: nat, end: nat,
                  done: seq<seq<string>>, lines: seq<string>, init: FileRun)
    requires pos < |raw| && end == pos + RoundLength(|raw| - pos) && lines == Kept(raw[pos..end])
    requires done + Rounds(raw[pos..]) == Rounds(raw)
    ensures (done + [lines]) + Rounds(raw[end..]) == Rounds(raw)
    ensures IngestChunks(parse, kind, done + [lines], init) == ChunkStep(parse, kind, IngestChunks(parse, kind, done, init), lines)
  {
    assert raw[pos..][..RoundLength(|raw| - pos)] == raw[pos..end];
    assert raw[pos..][RoundLength(|raw| - pos)..] == raw[end..];
    assert Rounds(raw[pos..]) == [lines] + Rounds(raw[end..]);
    assert (done + [lines])[..|done|] == done;
  }

  /** A fault after the rounds read so far is the file's outcome. */
  lemma FaultEndsFile(parse: Parser, kind: EntityKind, raw: seq<string>, pos: nat, done: seq<seq<string>>, init: FileRun)
    requires pos <= |raw| && done + Rounds(raw[pos..]) == Rounds(raw)
    requires IngestChunks(parse, kind, done, init).fault.Some?
    ensures IngestChunks(parse, kind, Rounds(raw), init) == IngestChunks(parse, kind, done, init)
  {
    assert Rounds(raw)[..|done|] == done;
    FaultIsFinal(parse, kind, Rounds(raw), init, |done|);
  }

  /**
   * The body of the outer loop for a chunk that kept lines: partition,
   * deserialize batch by batch, and, unless a line threw, add the slots'
   * records in index order and save.
   */
  method IngestChunk(store: ArchiveDbContext, parse: Parser, kind: EntityKind, chunk: seq<string>, start: int)
    returns (fault: Option<Fault>, next: int)
    requires store.Valid() && chunk != []
    modifies store
    ensures store.Valid()
    ensures ChunkStep(parse, kind, FileRun(old(store.State()), start, None), chunk) == FileRun(store.State(), next, fault)
  {
    var batches := Batches(chunk);
    var slots, faults, after := DeserializeBatches(parse, kind, batches, start);
    next := after;
    if faults != [] {
      fault := Some(faults[0]);
      return;
    }
    AddSlots(store, slots);
    store.SaveChanges();
    fault := None;
  }

  /**
   * DeserializeOfficialFile. Returns the fault that ends the file, if any
   * (the source throws it); the store is left as IngestFile says.
   */
  method DeserializeOfficialFile(store: ArchiveDbContext, parse: Parser, kind: EntityKind, raw: seq<string>)
    returns (fault: Option<Fault>)
    requires store.Valid()
    modifies store
    ensures store.Valid()
    ensures var out := IngestFile(parse, kind, raw, old(store.State()));
      store.State() == out.db && fault == out.fault
  {
    var pos := 0;
    var lineCount := 1;
    ghost var done: seq<seq<string>> := [];
    ghost var init := FileRun(store.State(), 1, None);
    while pos < |raw|
      invariant pos <= |raw|
      invariant store.Valid()
      invariant done + Rounds(raw[pos..]) == Rounds(raw)
      invariant IngestChunks(parse, kind, done, init) == FileRun(store.State(), lineCount, None)
    {
      var lines, end := ReadRound(raw, pos);
      NextRound(parse, kind, raw, pos, end, done, lines, init);
      done := done + [lines];
      pos := end;
      if lines == [] {
        continue;
      }
      fault, lineCount := IngestChunk(store, parse, kind, lines, lineCount);
      if fault.Some? {
        FaultEndsFile(parse, kind, raw, pos, done, init);
        return;
      }
    }
    assert raw[pos..] == [];
    assert done == Rounds(raw);
    fault := None;
  }
}
