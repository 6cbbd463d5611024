/**
 * The destination store (BangumiArchiveDbContext): one table per entity
 * type plus the manifest table. The context tracks added rows until
 * SaveChanges writes them; the model keeps both views and counts the saves.
 */
module Database {
  import opened Wrappers
  import opened Models
  import opened Seqs

  /** The contents of the nine tables (DbSets). */
  datatype Tables = Tables(
    archiveInfo: seq<ArchiveDatabaseInfo>,
    subject: seq<Subject>,
    episode: seq<Episode>,
    character: seq<Character>,
    person: seq<Person>,
    personCharacter: seq<PersonCharacter>,
    subjectCharacter: seq<SubjectCharacter>,
    subjectPerson: seq<SubjectPerson>,
    subjectRelation: seq<SubjectRelation>)

  /** The context's rows (tracked, saved or not), the rows saved to the database, and the number of saves. */
  datatype Db = Db(tracked: Tables, committed: Tables, saves: nat)

  /** The persistence `switch`: a record is appended to the table of its own type. */
  function Route(t: Tables, r: Record): Tables {
    match r
    case CharacterRecord(c) => t.(character := t.character + [c])
    case EpisodeRecord(e) => t.(episode := t.episode + [e])
    case PersonRecord(p) => t.(person := t.person + [p])
    case PersonCharacterRecord(pc) => t.(personCharacter := t.personCharacter + [pc])
    case SubjectRecord(s) => t.(subject := t.subject + [s])
    case SubjectCharacterRecord(sc) => t.(subjectCharacter := t.subjectCharacter + [sc])
    case SubjectPersonRecord(sp) => t.(subjectPerson := t.subjectPerson + [sp])
    case SubjectRelationRecord(sr) => t.(subjectRelation := t.subjectRelation + [sr])
  }

  /** Routes the records one after another, in order. */
  function RouteAll(t: Tables, records: seq<Record>): Tables {
    if records == [] then t
    else Route(RouteAll(t, records[..|records| - 1]), records[|records| - 1])
  }

  /** One record: its own table gains it, every other table is unchanged. */
  lemma RouteByKind(t: Tables, r: Record)
    ensures var u := Route(t, r);
      && u.archiveInfo == t.archiveInfo
      && u.character == t.character + Select([r], AsCharacter)
      && u.episode == t.episode + Select([r], AsEpisode)
      && u.person == t.person + Select([r], AsPerson)
      && u.personCharacter == t.personCharacter + Select([r], AsPersonCharacter)
      && u.subject == t.subject + Select([r], AsSubject)
      && u.subjectCharacter == t.subjectCharacter + Select([r], AsSubjectCharacter)
      && u.subjectPerson == t.subjectPerson + Select([r], AsSubjectPerson)
      && u.subjectRelation == t.subjectRelation + Select([r], AsSubjectRelation)
  {
    assert [r][..0] == [];
  }

  /**
   * Routing touches one table per record: each table gains exactly the
   * records of its own type, in order, and the manifest table is untouched.
   */
  lemma {:induction false} RouteAllByKind(t: Tables, records: seq<Record>)
    ensures var u := RouteAll(t, records);
      && u.archiveInfo == t.archiveInfo
      && u.character == t.character + Select(records, AsCharacter)
      && u.episode == t.episode + Select(records, AsEpisode)
      && u.person == t.person + Select(records, AsPerson)
      && u.personCharacter == t.personCharacter + Select(records, AsPersonCharacter)
      && u.subject == t.subject + Select(records, AsSubject)
      && u.subjectCharacter == t.subjectCharacter + Select(records, AsSubjectCharacter)
      && u.subjectPerson == t.subjectPerson + Select(records, AsSubjectPerson)
      && u.subjectRelation == t.subjectRelation + Select(records, AsSubjectRelation)
  {
    if records != [] {
      var init, last := records[..|records| - 1], records[|records| - 1];
      RouteAllByKind(t, init);
      RouteByKind(RouteAll(t, init), last);
      assert records == init + [last];
      SelectAppend(init, [last], AsCharacter);
      SelectAppend(init, [last], AsEpisode);
      SelectAppend(init, [last], AsPerson);
      SelectAppend(init, [last], AsPersonCharacter);
      SelectAppend(init, [last], AsSubject);
      SelectAppend(init, [last], AsSubjectCharacter);
      SelectAppend(init, [last], AsSubjectPerson);
      SelectAppend(init, [last], AsSubjectRelation);
    }
  }

  /** All records have the given type. */
  predicate OfKind(records: seq<Record>, kind: EntityKind) {
    forall i :: 0 <= i < |records| ==> KindOf(records[i]) == kind
  }

  /** Records of one type leave every other table, and the manifest table, unchanged. */
  lemma SingleKindOthersUnchanged(t: Tables, records: seq<Record>, kind: EntityKind)
    requires OfKind(records, kind)
    ensures var u := RouteAll(t, records);
      && u.archiveInfo == t.archiveInfo
      && (kind != CharacterKind ==> u.character == t.character)
      && (kind != EpisodeKind ==> u.episode == t.episode)
      && (kind != PersonKind ==> u.person == t.person)
      && (kind != PersonCharacterKind ==> u.personCharacter == t.personCharacter)
      && (kind != SubjectKind ==> u.subject == t.subject)
      && (kind != SubjectCharacterKind ==> u.subjectCharacter == t.subjectCharacter)
      && (kind != SubjectPersonKind ==> u.subjectPerson == t.subjectPerson)
      && (kind != SubjectRelationKind ==> u.subjectRelation == t.subjectRelation)
  {
    RouteAllByKind(t, records);
    if kind != CharacterKind { SelectNone(records, AsCharacter); }
    if kind != EpisodeKind { SelectNone(records, AsEpisode); }
    if kind != PersonKind { SelectNone(records, AsPerson); }
    if kind != PersonCharacterKind { SelectNone(records, AsPersonCharacter); }
    if kind != SubjectKind { SelectNone(records, AsSubject); }
    if kind != SubjectCharacterKind { SelectNone(records, AsSubjectCharacter); }
    if kind != SubjectPersonKind { SelectNone(records, AsSubjectPerson); }
    if kind != SubjectRelationKind { SelectNone(records, AsSubjectRelation); }
  }

  /** Records of one type all land in that type's table, in order. */
  lemma SingleKindOwnTable(t: Tables, records: seq<Record>, kind: EntityKind)
    requires OfKind(records, kind)
    ensures var u := RouteAll(t, records);
      && (kind == CharacterKind ==>
            u.character == t.character + Select(records, AsCharacter) && |Select(records, AsCharacter)| == |records|)
      && (kind == EpisodeKind ==>
            u.episode == t.episode + Select(records, AsEpisode) && |Select(records, AsEpisode)| == |records|)
      && (kind == PersonKind ==>
            u.person == t.person + Select(records, AsPerson) && |Select(records, AsPerson)| == |records|)
      && (kind == PersonCharacterKind ==>
            u.personCharacter == t.personCharacter + Select(records, AsPersonCharacter)
            && |Select(records, AsPersonCharacter)| == |records|)
      && (kind == SubjectKind ==>
            u.subject == t.subject + Select(records, AsSubject) && |Select(records, AsSubject)| == |records|)
      && (kind == SubjectCharacterKind ==>
            u.subjectCharacter == t.subjectCharacter + Select(records, AsSubjectCharacter)
            && |Select(records, AsSubjectCharacter)| == |records|)
      && (kind == SubjectPersonKind ==>
            u.subjectPerson == t.subjectPerson + Select(records, AsSubjectPerson)
            && |Select(records, AsSubjectPerson)| == |records|)
      && (kind == SubjectRelationKind ==>
            u.subjectRelation == t.subjectRelation + Select(records, AsSubjectRelation)
            && |Select(records, AsSubjectRelation)| == |records|)
  {
    RouteAllByKind(t, records);
    match kind {
      case CharacterKind => SelectAll(records, AsCharacter);
      case EpisodeKind => SelectAll(records, AsEpisode);
      case PersonKind => SelectAll(records, AsPerson);
      case PersonCharacterKind => SelectAll(records, AsPersonCharacter);
      case SubjectKind => SelectAll(records, AsSubject);
      case SubjectCharacterKind => SelectAll(records, AsSubjectCharacter);
      case SubjectPersonKind => SelectAll(records, AsSubjectPerson);
      case SubjectRelationKind => SelectAll(records, AsSubjectRelation);
    }
  }

  /**
   * Records of one type change only that type's table, which gains all of
   * them; every other table, the manifest table included, is unchanged.
   */
  lemma SingleKindTouchesOneTable(t: Tables, records: seq<Record>, kind: EntityKind)
    requires OfKind(records, kind)
    ensures var u := RouteAll(t, records);
      && u.archiveInfo == t.archiveInfo
      && (kind != CharacterKind ==> u.character == t.character)
      && (kind != EpisodeKind ==> u.episode == t.episode)
      && (kind != PersonKind ==> u.person == t.person)
      && (kind != PersonCharacterKind ==> u.personCharacter == t.personCharacter)
      && (kind != SubjectKind ==> u.subject == t.subject)
      && (kind != SubjectCharacterKind ==> u.subjectCharacter == t.subjectCharacter)
      && (kind != SubjectPersonKind ==> u.subjectPerson == t.subjectPerson)
      && (kind != SubjectRelationKind ==> u.subjectRelation == t.subjectRelation)
      && (kind == CharacterKind ==>
            u.character == t.character + Select(records, AsCharacter) && |Select(records, AsCharacter)| == |records|)
      && (kind == EpisodeKind ==>
            u.episode == t.episode + Select(records, AsEpisode) && |Select(records, AsEpisode)| == |records|)
      && (kind == PersonKind ==>
            u.person == t.person + Select(records, AsPerson) && |Select(records, AsPerson)| == |records|)
      && (kind == PersonCharacterKind ==>
            u.personCharacter == t.personCharacter + Select(records, AsPersonCharacter)
            && |Select(records, AsPersonCharacter)| == |records|)
      && (kind == SubjectKind ==>
            u.subject == t.subject + Select(records, AsSubject) && |Select(records, AsSubject)| == |records|)
      && (kind == SubjectCharacterKind ==>
            u.subjectCharacter == t.subjectCharacter + Select(records, AsSubjectCharacter)
            && |Select(records, AsSubjectCharacter)| == |records|)
      && (kind == SubjectPersonKind ==>
            u.subjectPerson == t.subjectPerson + Select(records, AsSubjectPerson)
            && |Select(records, AsSubjectPerson)| == |records|)
      && (kind == SubjectRelationKind ==>
            u.subjectRelation == t.subjectRelation + Select(records, AsSubjectRelation)
            && |Select(records, AsSubjectRelation)| == |records|)
  {
    SingleKindOthersUnchanged(t, records, kind);
    SingleKindOwnTable(t, records, kind);
  }

  /** Every table of `t` is a prefix of the same table of `u`: rows are only ever appended. */
  predicate Extends(t: Tables, u: Tables) {
    && t.archiveInfo <= u.archiveInfo
    && t.subject <= u.subject
    && t.episode <= u.episode
    && t.character <= u.character
    && t.person <= u.person
    && t.personCharacter <= u.personCharacter
    && t.subjectCharacter <= u.subjectCharacter
    && t.subjectPerson <= u.subjectPerson
    && t.subjectRelation <= u.subjectRelation
  }

  lemma RouteAllExtends(s: Tables, t: Tables, records: seq<Record>)
    requires Extends(s, t)
    ensures Extends(s, RouteAll(t, records))
  {
    RouteAllByKind(t, records);
  }

  /** Adds the manifest row. */
  function AddInfo(t: Tables, info: ArchiveDatabaseInfo): Tables {
    t.(archiveInfo := t.archiveInfo + [info])
  }

  /** The database context: rows added so far, rows saved so far, and the number of saves. */
  class ArchiveDbContext {
    var tracked: Tables
    var committed: Tables
    var saves: nat

    /** The saved rows are always a per-table prefix of the context's rows. */
    ghost predicate Valid()
      reads this
    {
      Extends(committed, tracked)
    }

    function State(): Db
      reads this
    {
      Db(tracked, committed, saves)
    }

    /** A context over a database already holding `existing` (migrated, not necessarily empty). */
    constructor (existing: Tables)
      ensures Valid() && State() == Db(existing, existing, 0)
    {
      tracked, committed, saves := existing, existing, 0;
    }

    /** `ArchiveDatabaseInfo.Add`: tracks the manifest row without saving it. */
    method AddArchiveInfo(info: ArchiveDatabaseInfo)
      requires Valid()
      modifies this
      ensures Valid()
      ensures State() == old(State()).(tracked := AddInfo(old(tracked), info))
    {
      tracked := AddInfo(tracked, info);
    }

    /** `AddAsync` on the record's own DbSet. */
    method Add(r: Record)
      requires Valid()
      modifies this
      ensures Valid()
      ensures State() == old(State()).(tracked := Route(old(tracked), r))
    {
      RouteAllExtends(committed, tracked, [r]);
      assert [r][..0] == [];
      tracked := Route(tracked, r);
    }

    /** `SaveChangesAsync`: every tracked row is written. */
    method SaveChanges()
      requires Valid()
      modifies this
      ensures Valid()
      ensures State() == Db(old(tracked), old(tracked), old(saves) + 1)
    {
      committed := tracked;
      saves := saves + 1;
    }
  }
}
