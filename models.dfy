/**
 * The entity classes of the archive (BangumiArchiveDatabaseModels), as values.
 * Every field the source declares is kept; the pipeline itself only ever
 * inspects a record's kind and, for a Subject, writes its id.
 */
module Models {
  import opened Wrappers

  /** A `double` kept as its IEEE 754 bit pattern; the pipeline never inspects it. */
  datatype Float64 = Float64(bits: bv64)

  /** A .NET `decimal` kept as its four 32-bit words; the pipeline never inspects it. */
  datatype Decimal = Decimal(lo: bv32, mid: bv32, hi: bv32, flags: bv32)

  /** The release manifest (one row per run). */
  datatype ArchiveDatabaseInfo = ArchiveDatabaseInfo(
    browserDownloadUrl: string,
    contentType: string,
    createdAt: string,
    id: int,
    assetLabel: string,
    name: string,
    nodeId: string,
    size: int,
    updatedAt: string,
    url: string)

  /**
   * A subject. Tags, score breakdown and favourite breakdown are kept in
   * their stored (serialized) form only.
   */
  datatype Subject = Subject(
    id: int,
    typeCode: int,
    name: string,
    nameCn: string,
    infoBox: string,
    platform: int,
    summary: string,
    nsfw: bool,
    tagsJson: string,
    score: Float64,
    scoreDetailsJson: string,
    rank: int,
    date: string,
    favoriteJson: string,
    series: bool)

  datatype Character = Character(
    id: int,
    role: int,
    name: string,
    infoBox: string,
    summary: string,
    comments: int,
    collects: int)

  datatype Episode = Episode(
    id: int,
    name: string,
    nameCn: string,
    description: string,
    airDate: string,
    disc: int,
    duration: string,
    subjectId: int,
    sort: Decimal,
    typeCode: int)

  datatype Person = Person(
    id: int,
    name: string,
    typeCode: int,
    career: Option<seq<string>>,
    infoBox: string,
    summary: string,
    comments: int,
    collects: int)

  datatype PersonCharacter = PersonCharacter(
    personId: int,
    subjectId: int,
    characterId: int,
    summary: string)

  datatype SubjectCharacter = SubjectCharacter(
    characterId: int,
    subjectId: int,
    typeCode: int,
    order: int)

  datatype SubjectPerson = SubjectPerson(
    personId: int,
    subjectId: int,
    position: int)

  datatype SubjectRelation = SubjectRelation(
    relationId: int,
    subjectId: int,
    relationType: int,
    relatedSubjectId: int,
    order: int)

  /** The eight entity types a data file can hold. */
  datatype EntityKind =
    | CharacterKind
    | EpisodeKind
    | PersonKind
    | PersonCharacterKind
    | SubjectKind
    | SubjectCharacterKind
    | SubjectPersonKind
    | SubjectRelationKind

  /** One deserialized record: a closed union over the eight entity types. */
  datatype Record =
    | CharacterRecord(character: Character)
    | EpisodeRecord(episode: Episode)
    | PersonRecord(person: Person)
    | PersonCharacterRecord(personCharacter: PersonCharacter)
    | SubjectRecord(subject: Subject)
    | SubjectCharacterRecord(subjectCharacter: SubjectCharacter)
    | SubjectPersonRecord(subjectPerson: SubjectPerson)
    | SubjectRelationRecord(subjectRelation: SubjectRelation)

  /** The runtime type of a record. */
  function KindOf(r: Record): EntityKind {
    match r
    case CharacterRecord(_) => CharacterKind
    case EpisodeRecord(_) => EpisodeKind
    case PersonRecord(_) => PersonKind
    case PersonCharacterRecord(_) => PersonCharacterKind
    case SubjectRecord(_) => SubjectKind
    case SubjectCharacterRecord(_) => SubjectCharacterKind
    case SubjectPersonRecord(_) => SubjectPersonKind
    case SubjectRelationRecord(_) => SubjectRelationKind
  }

  /** The pattern tests of the persistence switch: each yields the record when it has that type. */
  function AsCharacter(r: Record): Option<Character> {
    if r.CharacterRecord? then Some(r.character) else None
  }

  function AsEpisode(r: Record): Option<Episode> {
    if r.EpisodeRecord? then Some(r.episode) else None
  }

  function AsPerson(r: Record): Option<Person> {
    if r.PersonRecord? then Some(r.person) else None
  }

  function AsPersonCharacter(r: Record): Option<PersonCharacter> {
    if r.PersonCharacterRecord? then Some(r.personCharacter) else None
  }

  function AsSubject(r: Record): Option<Subject> {
    if r.SubjectRecord? then Some(r.subject) else None
  }

  function AsSubjectCharacter(r: Record): Option<SubjectCharacter> {
    if r.SubjectCharacterRecord? then Some(r.subjectCharacter) else None
  }

  function AsSubjectPerson(r: Record): Option<SubjectPerson> {
    if r.SubjectPersonRecord? then Some(r.subjectPerson) else None
  }

  function AsSubjectRelation(r: Record): Option<SubjectRelation> {
    if r.SubjectRelationRecord? then Some(r.subjectRelation) else None
  }
}
