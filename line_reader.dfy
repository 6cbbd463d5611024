/**
 * Chunked reading of one data file (the outer `while` and inner `for` of
 * DeserializeOfficialFile). A file is the sequence of lines a StreamReader
 * yields; each round consumes up to MAX_LINES of them and keeps the ones
 * that are not exactly empty.
 */
module LineReader {
  import opened Seqs

  /** Raw lines consumed per round. */
  const MAX_LINES: nat := 200000

  /** The lines a round keeps: every raw line except the exactly-empty ones, in order. */
  function Kept(raw: seq<string>): (kept: seq<string>)
    ensures |kept| <= |raw|
  {
    if raw == [] then []
    else Kept(raw[..|raw| - 1]) + (if raw[|raw| - 1] != "" then [raw[|raw| - 1]] else [])
  }

  /** A line survives reading exactly when it occurs in the file and is not empty (whitespace counts as content). */
  lemma {:induction false} KeptMembership(raw: seq<string>, line: string)
    ensures line in Kept(raw) <==> line in raw && line != ""
  {
    if raw != [] {
      var init := raw[..|raw| - 1];
      KeptMembership(init, line);
      assert raw == init + [raw[|raw| - 1]];
    }
  }

  lemma {:induction false} KeptAppend(a: seq<string>, b: seq<string>)
    ensures Kept(a + b) == Kept(a) + Kept(b)
    decreases |b|
  {
    if b == [] {
      assert a + b == a;
    } else {
      var init := b[..|b| - 1];
      assert (a + b)[..|a + b| - 1] == a + init;
      KeptAppend(a, init);
    }
  }

  /** Raw lines the next round consumes when `remaining` are left. */
  function RoundLength(remaining: nat): nat {
    Min(MAX_LINES, remaining)
  }

  /**
   * The kept lines of every round, in reading order. A round that keeps
   * nothing is still listed (as []): the reader skips it.
   */
  function Rounds(raw: seq<string>): (rounds: seq<seq<string>>)
    ensures forall i :: 0 <= i < |rounds| ==> |rounds[i]| <= MAX_LINES
    decreases |raw|
  {
    if raw == [] then []
    else [Kept(raw[..RoundLength(|raw|)])] + Rounds(raw[RoundLength(|raw|)..])
  }

  /** There are ceil(|raw| / MAX_LINES) rounds. */
  lemma {:induction false} RoundCount(raw: seq<string>)
    ensures |Rounds(raw)| == (|raw| + MAX_LINES - 1) / MAX_LINES
    decreases |raw|
  {
    if raw != [] {
      RoundCount(raw[RoundLength(|raw|)..]);
    }
  }

  /** Chunking is lossless: the rounds, concatenated, are the file's non-empty lines in order. */
  lemma {:induction false} RoundsLossless(raw: seq<string>)
    ensures Concat(Rounds(raw)) == Kept(raw)
    decreases |raw|
  {
    if raw != [] {
      var len := RoundLength(|raw|);
      var first, rest := raw[..len], raw[len..];
      RoundsLossless(rest);
      ConcatAppend([Kept(first)], Rounds(rest));
      ConcatSingle(Kept(first));
      KeptAppend(first, rest);
      assert first + rest == raw;
    }
  }
}
