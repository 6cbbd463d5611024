/** Sequence helpers shared by the pipeline stages. */
module Seqs {
  import opened Wrappers

  function Min(a: int, b: int): int { if a <= b then a else b }

  function Max(a: int, b: int): int { if a >= b then a else b }

  /** Flattens a sequence of sequences, in order. */
  function Concat<T>(ss: seq<seq<T>>): seq<T> {
    if ss == [] then [] else Concat(ss[..|ss| - 1]) + ss[|ss| - 1]
  }

  lemma {:induction false} ConcatAppend<T>(a: seq<seq<T>>, b: seq<seq<T>>)
    ensures Concat(a + b) == Concat(a) + Concat(b)
    decreases |b|
  {
    if b == [] {
      assert a + b == a;
    } else {
      var init := b[..|b| - 1];
      assert (a + b)[..|a + b| - 1] == a + init;
      ConcatAppend(a, init);
    }
  }

  lemma ConcatSingle<T>(s: seq<T>)
    ensures Concat([s]) == s
  {
    assert [s][..0] == [];
  }

  /** Keeps, in order, the values `pick` extracts, dropping the elements it maps to None. */
  function Select<T, U>(s: seq<T>, pick: T -> Option<U>): seq<U> {
    if s == [] then []
    else
      Select(s[..|s| - 1], pick)
      + (match pick(s[|s| - 1]) case Some(u) => [u] case None => [])
  }

  lemma {:induction false} SelectAppend<T, U>(a: seq<T>, b: seq<T>, pick: T -> Option<U>)
    ensures Select(a + b, pick) == Select(a, pick) + Select(b, pick)
    decreases |b|
  {
    if b == [] {
      assert a + b == a;
    } else {
      var init := b[..|b| - 1];
      assert (a + b)[..|a + b| - 1] == a + init;
      SelectAppend(a, init, pick);
    }
  }

  /** Nothing is selected from a sequence all of whose elements `pick` rejects. */
  lemma {:induction false} SelectNone<T, U>(s: seq<T>, pick: T -> Option<U>)
    requires forall i :: 0 <= i < |s| ==> pick(s[i]).None?
    ensures Select(s, pick) == []
  {
    if s != [] {
      SelectNone(s[..|s| - 1], pick);
    }
  }

  /** Every element is selected, in order, from a sequence all of whose elements `pick` accepts. */
  lemma {:induction false} SelectAll<T, U>(s: seq<T>, pick: T -> Option<U>)
    requires forall i :: 0 <= i < |s| ==> pick(s[i]).Some?
    ensures |Select(s, pick)| == |s|
    ensures forall i :: 0 <= i < |s| ==> Select(s, pick)[i] == pick(s[i]).value
  {
    if s != [] {
      SelectAll(s[..|s| - 1], pick);
    }
  }
}
