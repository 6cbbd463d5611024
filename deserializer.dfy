/**
 * Deserialization of a chunk's lines: the per-line work of the batch lambda
 * (parse, number subjects, drop nulls, fail on the first malformed line) and
 * the batch-by-batch run that fills the per-batch slots.
 */
module Deserializer {
  import opened Wrappers
  import opened Models
  import opened Seqs

  /** What deserializing one line yields: an exception (with its message), a JSON `null`, or a record. */
  datatype Parsed = Malformed(message: string) | Null | Value(record: Record)

  /** `JsonSerializer.Deserialize<T>` returns a T: a record parsed for `kind` has that kind. */
  predicate ParsesAs(p: Parsed, kind: EntityKind) {
    p.Value? ==> KindOf(p.record) == kind
  }

  /** The JSON deserializer, a foreign call: any well-typed function from a line to an outcome. */
  type Parser = parse: (EntityKind, string) -> Parsed
    | forall kind, line :: ParsesAs(parse(kind, line), kind)
    witness (kind: EntityKind, line: string) => Null

  /** The offending line (written to the console) and the exception it raised. */
  datatype Fault = Fault(line: string, message: string)

  /**
   * The state of a run over some lines: the records gathered and the next
   * subject id, or the first fault and the subject id counter at that point.
   */
  datatype Run = Done(records: seq<Record>, next: int) | Faulted(fault: Fault, next: int)

  /**
   * One iteration of the batch's `foreach`: deserialize, give a Subject the
   * next id, keep non-null records; a throwing line ends the batch.
   */
  function Feed(parse: Parser, kind: EntityKind, run: Run, line: string): Run {
    match run
    case Faulted(_, _) => run
    case Done(records, next) =>
      match parse(kind, line)
      case Malformed(message) => Faulted(Fault(line, message), next)
      case Null => run
      case Value(r) =>
        if r.SubjectRecord? then Done(records + [SubjectRecord(r.subject.(id := next))], next + 1)
        else Done(records + [r], next)
  }

  /** A strictly sequential pass over `lines` with the subject counter starting at `start`. */
  function ParseLines(parse: Parser, kind: EntityKind, lines: seq<string>, start: int): Run {
    if lines == [] then Done([], start)
    else Feed(parse, kind, ParseLines(parse, kind, lines[..|lines| - 1], start), lines[|lines| - 1])
  }

  /** Continues a run over further lines. */
  function Resume(parse: Parser, kind: EntityKind, run: Run, lines: seq<string>): Run {
    match run
    case Faulted(_, _) => run
    case Done(records, next) =>
      match ParseLines(parse, kind, lines, next)
      case Done(more, last) => Done(records + more, last)
      case Faulted(fault, last) => Faulted(fault, last)
  }

  /** Parsing a + b is parsing a and then carrying on, counter and records included, over b. */
  lemma {:induction false} ParseLinesAppend(parse: Parser, kind: EntityKind, a: seq<string>, b: seq<string>, start: int)
    ensures ParseLines(parse, kind, a + b, start) == Resume(parse, kind, ParseLines(parse, kind, a, start), b)
    decreases |b|
  {
    if b == [] {
      assert a + b == a;
    } else {
      var init, x := b[..|b| - 1], b[|b| - 1];
      assert (a + b)[..|a + b| - 1] == a + init;
      ParseLinesAppend(parse, kind, a, init, start);
      var first := ParseLines(parse, kind, a, start);
      if first.Done? {
        var rest := ParseLines(parse, kind, init, first.next);
        if rest.Done? && parse(kind, x).Value? {
          assert first.records + rest.records + [Feed(parse, kind, rest, x).records[|rest.records|]]
              == first.records + Feed(parse, kind, rest, x).records;
        }
      }
    }
  }

  /** No line of `lines` throws. */
  predicate Clean(parse: Parser, kind: EntityKind, lines: seq<string>) {
    forall i :: 0 <= i < |lines| ==> !parse(kind, lines[i]).Malformed?
  }

  /** A sequential pass completes exactly when no line throws. */
  lemma {:induction false} DoneIffClean(parse: Parser, kind: EntityKind, lines: seq<string>, start: int)
    ensures ParseLines(parse, kind, lines, start).Done? <==> Clean(parse, kind, lines)
  {
    if lines != [] {
      var init := lines[..|lines| - 1];
      DoneIffClean(parse, kind, init, start);
      assert forall i :: 0 <= i < |init| ==> init[i] == lines[i];
    }
  }

  /** A failed pass reports the first throwing line and its exception. */
  lemma {:induction false} FaultIsFirstMalformed(parse: Parser, kind: EntityKind, lines: seq<string>, start: int)
    ensures var run := ParseLines(parse, kind, lines, start);
      run.Faulted? ==>
        exists i :: 0 <= i < |lines| && Clean(parse, kind, lines[..i])
          && lines[i] == run.fault.line && parse(kind, lines[i]) == Malformed(run.fault.message)
  {
    if lines != [] {
      var init := lines[..|lines| - 1];
      var prev := ParseLines(parse, kind, init, start);
      if prev.Faulted? {
        FaultIsFirstMalformed(parse, kind, init, start);
        var i :| 0 <= i < |init| && Clean(parse, kind, init[..i])
          && init[i] == prev.fault.line && parse(kind, init[i]) == Malformed(prev.fault.message);
        assert lines[..i] == init[..i];
      } else {
        DoneIffClean(parse, kind, init, start);
        assert lines[..|init|] == init;
      }
    }
  }

  /** The records the lines deserialize to, in line order, with nulls and failures skipped. */
  function Values(parse: Parser, kind: EntityKind, lines: seq<string>): seq<Record> {
    if lines == [] then []
    else
      Values(parse, kind, lines[..|lines| - 1])
      + (match parse(kind, lines[|lines| - 1]) case Value(r) => [r] case _ => [])
  }

  /** A record with its subject id blanked out (the id is the pipeline's, not the line's). */
  function Erase(r: Record): Record {
    if r.SubjectRecord? then SubjectRecord(r.subject.(id := 0)) else r
  }

  /**
   * Reassembly keeps order: a completed pass yields exactly the deserialized
   * values of the lines, in line order, nulls dropped; only subject ids differ.
   */
  lemma {:induction false} RecordsFollowLines(parse: Parser, kind: EntityKind, lines: seq<string>, start: int)
    ensures var run, values := ParseLines(parse, kind, lines, start), Values(parse, kind, lines);
      run.Done? ==>
        && |run.records| == |values|
        && (forall i :: 0 <= i < |values| ==> Erase(run.records[i]) == Erase(values[i]))
        && (forall i :: 0 <= i < |values| ==> !values[i].SubjectRecord? ==> run.records[i] == values[i])
  {
    if lines != [] {
      RecordsFollowLines(parse, kind, lines[..|lines| - 1], start);
    }
  }

  /** The subjects among some records, in order. */
  function Subjects(records: seq<Record>): seq<Subject> {
    Select(records, AsSubject)
  }

  /** The line's outcome is a Subject record. */
  predicate IsSubjectValue(p: Parsed) {
    p.Value? && p.record.SubjectRecord?
  }

  /** One completed step adds at most one subject, numbered with the current counter. */
  lemma FeedSubjects(parse: Parser, kind: EntityKind, run: Run, x: string)
    requires run.Done? && Feed(parse, kind, run, x).Done?
    ensures var after, p := Feed(parse, kind, run, x), parse(kind, x);
      && Subjects(after.records)
         == Subjects(run.records) + (if IsSubjectValue(p) then [p.record.subject.(id := run.next)] else [])
      && after.next == run.next + (if IsSubjectValue(p) then 1 else 0)
  {
    var p := parse(kind, x);
    if p.Value? {
      var added := if p.record.SubjectRecord? then SubjectRecord(p.record.subject.(id := run.next)) else p.record;
      SelectAppend(run.records, [added], AsSubject);
      assert [added][..0] == [];
    }
  }

  /** The values of one more line add at most one subject. */
  lemma ValuesSubjects(parse: Parser, kind: EntityKind, lines: seq<string>)
    requires lines != []
    ensures var p := parse(kind, lines[|lines| - 1]);
      Subjects(Values(parse, kind, lines))
      == Subjects(Values(parse, kind, lines[..|lines| - 1])) + (if IsSubjectValue(p) then [p.record.subject] else [])
  {
    var p := parse(kind, lines[|lines| - 1]);
    var init := Values(parse, kind, lines[..|lines| - 1]);
    if p.Value? {
      SelectAppend(init, [p.record], AsSubject);
      assert [p.record][..0] == [];
    } else {
      assert Values(parse, kind, lines) == init;
    }
  }

  /**
   * Subject ids are dense: a completed pass numbers its subjects start,
   * start + 1, ... in line order, one per line that parsed to a Subject,
   * and leaves the counter just past the last.
   */
  lemma {:induction false} SubjectIdsDense(parse: Parser, kind: EntityKind, lines: seq<string>, start: int)
    ensures var run := ParseLines(parse, kind, lines, start);
      run.Done? ==>
        && |Subjects(run.records)| == |Subjects(Values(parse, kind, lines))|
        && run.next == start + |Subjects(run.records)|
        && (forall i :: 0 <= i < |Subjects(run.records)| ==> Subjects(run.records)[i].id == start + i)
  {
    if lines != [] {
      var init, x := lines[..|lines| - 1], lines[|lines| - 1];
      SubjectIdsDense(parse, kind, init, start);
      var prev := ParseLines(parse, kind, init, start);
      if prev.Done? && Feed(parse, kind, prev, x).Done? {
        FeedSubjects(parse, kind, prev, x);
        ValuesSubjects(parse, kind, lines);
      }
    }
  }

  /** A file of kind `kind` yields only records of that kind. */
  lemma {:induction false} RecordsOfKind(parse: Parser, kind: EntityKind, lines: seq<string>, start: int)
    ensures var run := ParseLines(parse, kind, lines, start);
      run.Done? ==> forall i :: 0 <= i < |run.records| ==> KindOf(run.records[i]) == kind
  {
    if lines != [] {
      var init, x := lines[..|lines| - 1], lines[|lines| - 1];
      RecordsOfKind(parse, kind, init, start);
      assert ParsesAs(parse(kind, x), kind);
      var prev := ParseLines(parse, kind, init, start);
      var run := ParseLines(parse, kind, lines, start);
      if prev.Done? && run.Done? && |run.records| > |prev.records| {
        assert run.records == prev.records + [run.records[|prev.records|]];
      }
    }
  }

  /** For every type but Subject, a completed pass gathers exactly the non-null parse results. */
  lemma RecordsAreValues(parse: Parser, kind: EntityKind, lines: seq<string>, start: int)
    requires kind != SubjectKind
    ensures var run := ParseLines(parse, kind, lines, start);
      run.Done? ==> run.records == Values(parse, kind, lines)
  {
    var run := ParseLines(parse, kind, lines, start);
    if run.Done? {
      var values := Values(parse, kind, lines);
      RecordsFollowLines(parse, kind, lines, start);
      RecordsOfKind(parse, kind, lines, start);
      forall i | 0 <= i < |values|
        ensures run.records[i] == values[i]
      {
        assert KindOf(run.records[i]) == kind;
      }
    }
  }

  /**
   * The batches run one after another: each fills its slot, or adds its
   * fault (a faulted batch leaves its slot unset); the counter runs on
   * through all of them.
   */
  datatype Batched = Batched(slots: seq<seq<Record>>, faults: seq<Fault>, next: int)

  function RunBatches(parse: Parser, kind: EntityKind, batches: seq<seq<string>>, start: int): (b: Batched)
    ensures |b.slots| == |batches|
  {
    if batches == [] then Batched([], [], start)
    else
      var prev := RunBatches(parse, kind, batches[..|batches| - 1], start);
      match ParseLines(parse, kind, batches[|batches| - 1], prev.next)
      case Done(records, next) => Batched(prev.slots + [records], prev.faults, next)
      case Faulted(fault, next) => Batched(prev.slots + [[]], prev.faults + [fault], next)
  }

  /**
   * Batch-wise deserialization agrees with a sequential pass over the
   * concatenated batches: it fails exactly when the pass does, with the same
   * first fault, and otherwise its slots, read back in index order, are the
   * pass's records and its counter the pass's counter.
   */
  lemma {:induction false} BatchesAgree(parse: Parser, kind: EntityKind, batches: seq<seq<string>>, start: int)
    ensures var b, run := RunBatches(parse, kind, batches, start), ParseLines(parse, kind, Concat(batches), start);
      && (b.faults == [] <==> run.Done?)
      && (b.faults == [] ==> run == Done(Concat(b.slots), b.next))
      && (b.faults != [] ==> run.fault == b.faults[0])
  {
    if batches != [] {
      var init, last := batches[..|batches| - 1], batches[|batches| - 1];
      BatchesAgree(parse, kind, init, start);
      ParseLinesAppend(parse, kind, Concat(init), last, start);
      var prev := RunBatches(parse, kind, init, start);
      var b := RunBatches(parse, kind, batches, start);
      assert b.slots[..|prev.slots|] == prev.slots;
    }
  }
}
