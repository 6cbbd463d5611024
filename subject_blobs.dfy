/**
 * The unmapped accessors of a Subject: `Tags` and `Score_Details` read and
 * write their serialized columns through a JSON codec. As written, the
 * `Tags` setter stores into the score-details column; `SetTags` is the
 * intended setter.
 */
module SubjectBlobs {
  import opened Models

  /** One entry of a subject's tag list. */
  datatype TagItem = TagItem(name: string, count: int)

  /** A JSON serializer and deserializer for values of type T. */
  datatype Codec<!T> = Codec(encode: T -> string, decode: string -> T)

  /** Deserializing what was serialized gives the value back. */
  ghost predicate RoundTrips<T(!new)>(codec: Codec<T>) {
    forall x :: codec.decode(codec.encode(x)) == x
  }

  /** The `Tags` getter: deserializes `Tags_Json`. */
  function Tags(s: Subject, codec: Codec<seq<TagItem>>): seq<TagItem> {
    codec.decode(s.tagsJson)
  }

  /** The `Score_Details` getter: deserializes `Score_Details_Json`. */
  function ScoreDetails(s: Subject, codec: Codec<map<string, int>>): map<string, int> {
    codec.decode(s.scoreDetailsJson)
  }

  /** The `Score_Details` setter. */
  function SetScoreDetails(s: Subject, codec: Codec<map<string, int>>, details: map<string, int>): Subject {
    s.(scoreDetailsJson := codec.encode(details))
  }

  /** The `Tags` setter as written: the serialized tags land in `Score_Details_Json`. */
  function SetTagsAsWritten(s: Subject, codec: Codec<seq<TagItem>>, tags: seq<TagItem>): Subject {
    s.(scoreDetailsJson := codec.encode(tags))
  }

  /** The `Tags` setter as intended: the serialized tags land in `Tags_Json`. */
  function SetTags(s: Subject, codec: Codec<seq<TagItem>>, tags: seq<TagItem>): Subject {
    s.(tagsJson := codec.encode(tags))
  }

  /**
   * As written, setting tags loses them: reading `Tags` back gives the old
   * tags, so any new list differing from them does not round-trip, and the
   * score details now hold the tag list's JSON.
   */
  lemma SetTagsAsWrittenLosesTags(s: Subject, tagCodec: Codec<seq<TagItem>>, scoreCodec: Codec<map<string, int>>,
                                  tags: seq<TagItem>)
    requires tags != Tags(s, tagCodec)
    ensures Tags(SetTagsAsWritten(s, tagCodec, tags), tagCodec) != tags
    ensures ScoreDetails(SetTagsAsWritten(s, tagCodec, tags), scoreCodec) == scoreCodec.decode(tagCodec.encode(tags))
  {
  }

  /** The intended setter round-trips through the getter and leaves the score details alone. */
  lemma TagsRoundTrip(s: Subject, tagCodec: Codec<seq<TagItem>>, scoreCodec: Codec<map<string, int>>,
                      tags: seq<TagItem>)
    requires RoundTrips(tagCodec)
    ensures Tags(SetTags(s, tagCodec, tags), tagCodec) == tags
    ensures ScoreDetails(SetTags(s, tagCodec, tags), scoreCodec) == ScoreDetails(s, scoreCodec)
  {
  }

  /** The score-details setter round-trips and leaves the tags alone. */
  lemma ScoreDetailsRoundTrip(s: Subject, tagCodec: Codec<seq<TagItem>>, scoreCodec: Codec<map<string, int>>,
                              details: map<string, int>)
    requires RoundTrips(scoreCodec)
    ensures ScoreDetails(SetScoreDetails(s, scoreCodec, details), scoreCodec) == details
    ensures Tags(SetScoreDetails(s, scoreCodec, details), tagCodec) == Tags(s, tagCodec)
  {
  }
}
