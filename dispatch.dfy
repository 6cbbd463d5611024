/**
 * The file-name `switch` of CreateArchiveDatabase: the lower-cased file name
 * without its extension picks one of the eight entity types.
 */
module Dispatch {
  import opened Wrappers
  import opened Models

  /** Index of the last occurrence of `c` in `s`, or -1. */
  function LastIndexOf(s: string, c: char): (i: int)
    ensures -1 <= i < |s|
    ensures 0 <= i ==> s[i] == c
    ensures forall j :: i < j < |s| ==> s[j] != c
  {
    if s == [] then -1
    else if s[|s| - 1] == c then |s| - 1
    else LastIndexOf(s[..|s| - 1], c)
  }

  /** `Path.GetFileName`: what follows the last directory separator. */
  function FileName(path: string): string {
    path[LastIndexOf(path, '/') + 1..]
  }

  /** `Path.GetFileNameWithoutExtension`: the file name up to its last '.', if any. */
  function FileStem(path: string): string {
    var name := FileName(path);
    var dot := LastIndexOf(name, '.');
    if dot < 0 then name else name[..dot]
  }

  /** `ToLower` on the letters A-Z. */
  function Lower(s: string): string {
    seq(|s|, i requires 0 <= i < |s| => if 'A' <= s[i] <= 'Z' then (s[i] as int + 32) as char else s[i])
  }

  /** The name a data file of each type carries. */
  function KindName(kind: EntityKind): string {
    match kind
    case CharacterKind => "character"
    case EpisodeKind => "episode"
    case PersonKind => "person"
    case PersonCharacterKind => "person-characters"
    case SubjectKind => "subject"
    case SubjectCharacterKind => "subject-characters"
    case SubjectPersonKind => "subject-persons"
    case SubjectRelationKind => "subject-relations"
  }

  /** The `switch` itself: exact matches on the eight names, anything else unknown. */
  function KindOfName(name: string): Option<EntityKind> {
    match name
    case "character" => Some(CharacterKind)
    case "episode" => Some(EpisodeKind)
    case "person" => Some(PersonKind)
    case "person-characters" => Some(PersonCharacterKind)
    case "subject" => Some(SubjectKind)
    case "subject-characters" => Some(SubjectCharacterKind)
    case "subject-persons" => Some(SubjectPersonKind)
    case "subject-relations" => Some(SubjectRelationKind)
    case _ => None
  }

  /** The type a data file is ingested as, if its name is known. */
  function KindOfPath(path: string): Option<EntityKind> {
    KindOfName(Lower(FileStem(path)))
  }

  /** The table is exact and exhaustive: a name selects a type exactly when it is that type's name. */
  lemma KindOfNameExact(name: string, kind: EntityKind)
    ensures KindOfName(name) == Some(kind) <==> name == KindName(kind)
  {
  }

  /** A name selects nothing exactly when it is none of the eight names. */
  lemma UnknownName(name: string)
    ensures KindOfName(name) == None <==> forall k :: name != KindName(k)
  {
    if KindOfName(name).Some? {
      KindOfNameExact(name, KindOfName(name).value);
    }
  }

  /** Distinct types have distinct names, so every type is reachable and no name is ambiguous. */
  lemma KindNamesDistinct(a: EntityKind, b: EntityKind)
    ensures KindName(a) == KindName(b) <==> a == b
  {
  }

  /** The last occurrence is the one with no occurrence after it. */
  lemma LastIndexOfAt(s: string, c: char, k: nat)
    requires k < |s| && s[k] == c && forall j :: k < j < |s| ==> s[j] != c
    ensures LastIndexOf(s, c) == k
  {
  }

  /** Nothing after the stem of `<stem>.jsonlines` is a '.' but the extension's own. */
  lemma NoDotAfterStem(stem: string)
    ensures var name := stem + ".jsonlines";
      forall j :: |stem| < j < |name| ==> name[j] != '.'
  {
    var name := stem + ".jsonlines";
    forall j | |stem| < j < |name|
      ensures name[j] != '.'
    {
      assert name[j] == ".jsonlines"[j - |stem|];
    }
  }

  /**
   * A file `<dir>/<stem>.jsonlines` whose stem holds no '/' has that stem;
   * a stem may itself contain dots, as in `subject.v2.jsonlines`.
   */
  lemma StemOfDataFile(dir: string, stem: string)
    requires '/' !in stem
    ensures FileStem(dir + "/" + stem + ".jsonlines") == stem
  {
    var path := dir + "/" + stem + ".jsonlines";
    assert forall j :: |dir| < j < |path| ==> path[j] == (stem + ".jsonlines")[j - |dir| - 1];
    LastIndexOfAt(path, '/', |dir|);
    assert FileName(path) == stem + ".jsonlines";
    NoDotAfterStem(stem);
    LastIndexOfAt(stem + ".jsonlines", '.', |stem|);
  }

  /**
   * Dispatch is exact-match after lower-casing and stripping the extension:
   * `<dir>/<stem>.jsonlines` selects a type exactly when the lower-cased stem
   * is that type's name, and is unknown when it is none of them (so
   * `subject.v2.jsonlines` is skipped).
   */
  lemma DispatchDataFile(dir: string, stem: string, kind: EntityKind)
    requires '/' !in stem
    ensures KindOfPath(dir + "/" + stem + ".jsonlines") == Some(kind) <==> Lower(stem) == KindName(kind)
    ensures KindOfPath(dir + "/" + stem + ".jsonlines") == None <==> forall k :: Lower(stem) != KindName(k)
  {
    var name := Lower(stem);
    StemOfDataFile(dir, stem);
    assert KindOfPath(dir + "/" + stem + ".jsonlines") == KindOfName(name);
    KindOfNameExact(name, kind);
    UnknownName(name);
  }
}
