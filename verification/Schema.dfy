/**
 * The two fixed export schemas and the CSV writer's handling of one row: the header
 * row maps each field name to itself, and a data row (a mapping from field names to
 * values) is laid out in schema order, missing fields written empty and unknown
 * fields refused.
 */
module Schema {
  import opened Wrappers
  import opened Records

  /** The field delimiter of the output file. */
  const Delimiter: char := '~'

  const FirstStageFields: seq<string> := [
    "comment_id",
    "mk_id",
    "mk_name",
    "parent_status_id",
    "parent_status_content",
    "parent_status_link",
    "comment_link",
    "content",
    "content_processed",
    "published",
    "commentator_id",
    "commentator_also_liked_status",
    "like_count",
    "comment_count",
    "language"
  ]

  /** The second-stage schema, in the six column groups the row is built from. */
  const SecondStageFields: seq<string> :=
    CommentFields + CommentatorFields + MkFields + PostFields + DateFields + EngagementFields

  /** Second-stage columns: identity, text and count columns. */
  const CommentFields: seq<string> := [
    "comment_id",
    "MK_ID",
    "mk_name",
    "parent_status_id",
    "parent_status_content",
    "parent_status_link",
    "comment_link",
    "content",
    "content_processed",
    "published",
    "comment_like_count",
    "comment_comment_count",
    "language"
  ]

  /** Second-stage columns: the comment text and its author. */
  const CommentatorFields: seq<string> := [
    "LEN_MESSAGE",
    "COMMENTATOR_LIKED_POST",
    "HAS_NAME_OF_POST_WRITER_MK_IN_COMMENT",
    "NON_POST_WRITER_MK_IDS_IN_COMMENT",
    "NUM_OF_COMMENTS_BY_COMMENTATOR_ON_POST",
    "COMMENTATOR_ID"
  ]

  /** Second-stage columns: the MK and the roles of the feed. */
  const MkFields: seq<string> := [
    "POLITICAL_WING",
    "PARTY_NAME",
    "GENDER",
    "AGE",
    "MK_POLITICAL_STATUS",
    "MK_POLITICAL_SENIORITY",
    "IS_CURRENT_OR_PAST_PARTY_LEADER",
    "IS_CURRENT_OR_PAST_PM_CONTENDER",
    "IS_PM"
  ]

  /** Second-stage columns: the parent status. */
  const PostFields: seq<string> := [
    "POST_TIME_OF_PUBLICATION",
    "POST_WITH_PHOTO",
    "POST_WITH_LINK",
    "POST_WITH_VIDEO",
    "POST_WITH_STATUS",
    "POST_WITH_TEXT_ONLY",
    "POST_IN_HEBREW",
    "POST_IN_ENGLISH",
    "POST_IN_ARABIC",
    "POST_IN_OTHER"
  ]

  /** Second-stage columns: day offsets and rest-day flags. */
  const DateFields: seq<string> := [
    "DAYS_FROM_ELECTION",
    "DAYS_FROM_THREE_TEENAGER_KIDNAP",
    "DAYS_FROM_PROTECTIVE_EDGE_OFFICIAL_START_DATE",
    "DAYS_FROM_PROTECTIVE_EDGE_OFFICIAL_END_DATE",
    "DAYS_FROM_THIRD_INTIFADA_START_DATE",
    "POST_PUBLISHED_ON_SATURDAY",
    "COMMENT_PUBLISHED_ON_SATURDAY"
  ]

  /** Second-stage columns: the commentator's engagement with the feed. */
  const EngagementFields: seq<string> := [
    "NUM_OF_COMMENTS_BY_COMMENTATOR_ID_ON_GIVEN_MK_POSTS",
    "NUM_OF_LIKES_BY_COMMENTATOR_ID_ON_GIVEN_MK_POSTS",
    "RATIO_OF_COMMENTS_BY_COMMENTATOR_ID_ON_GIVEN_MK_POSTS",
    "RATIO_OF_LIKES_BY_COMMENTATOR_ID_ON_GIVEN_MK_POSTS"
  ]

  /** The schema of the chosen export mode. */
  function Fields(secondStage: bool): (fields: seq<string>)
    ensures |fields| == if secondStage then 49 else 15
  {
    if secondStage then SecondStageFields else FirstStageFields
  }

  /** One cell of a feature row. */
  datatype Value =
    | Text(s: string)
    | Int(i: int)
    | Flag(b: bool)
    | Time(t: int)              // seconds
    | Fraction(num: int, den: int)
    | Ids(ids: seq<int>)
    | Null

  /** A feature row: field name to value. */
  type Row = map<string, Value>

  /** The set of names of a schema. */
  function FieldSet(fields: seq<string>): set<string>
  {
    set f | f in fields
  }

  /** No later position of the schema repeats the field at position `i`. */
  predicate LastOccurrence(fields: seq<string>, i: int)
    requires 0 <= i < |fields|
  {
    forall j :: i < j < |fields| ==> fields[j] != fields[i]
  }

  /**
   * The row that maps each field to the value at the same position, as a dict display
   * listing the fields in schema order would: a repeated field keeps its last value.
   */
  function RowOf(fields: seq<string>, values: seq<Value>): (row: Row)
    requires |values| == |fields|
    ensures row.Keys == FieldSet(fields)
    ensures forall i :: 0 <= i < |fields| && LastOccurrence(fields, i) ==> row[fields[i]] == values[i]
  {
    if fields == [] then map[]
    else
      var n := |fields| - 1;
      var init := RowOf(fields[..n], values[..n]);
      assert forall i :: 0 <= i < n ==> fields[..n][i] == fields[i] && values[..n][i] == values[i];
      RowOfStep(fields, values, init);
      init[fields[n] := values[n]]
  }

  /** Adding the last field to the row of the others gives the row of all fields. */
  lemma RowOfStep(fields: seq<string>, values: seq<Value>, init: Row)
    requires |values| == |fields| > 0
    requires init.Keys == FieldSet(fields[..|fields| - 1])
    requires forall i :: 0 <= i < |fields| - 1 && LastOccurrence(fields[..|fields| - 1], i) ==> init[fields[i]] == values[i]
    ensures init[fields[|fields| - 1] := values[|fields| - 1]].Keys == FieldSet(fields)
    ensures forall i :: 0 <= i < |fields| && LastOccurrence(fields, i) ==>
      init[fields[|fields| - 1] := values[|fields| - 1]][fields[i]] == values[i]
  {
    var n := |fields| - 1;
    var row := init[fields[n] := values[n]];
    assert fields == fields[..n] + [fields[n]];
    forall i | 0 <= i < |fields| && LastOccurrence(fields, i)
      ensures row[fields[i]] == values[i]
    {
      if i < n {
        assert fields[i] != fields[n];
        assert LastOccurrence(fields[..n], i) by {
          forall j | i < j < n
            ensures fields[..n][j] != fields[..n][i]
          {
            assert fields[..n][j] == fields[j];
          }
        }
      }
    }
  }

  /** The header row: every field name mapped to itself. */
  function HeaderRow(fields: seq<string>): (row: Row)
    ensures row.Keys == FieldSet(fields)
    ensures forall i :: 0 <= i < |fields| ==> row[fields[i]] == Text(fields[i])
  {
    map f | f in FieldSet(fields) :: Text(f)
  }

  /**
   * The cells the CSV writer produces for a row: the row's value of each schema field,
   * in schema order, the empty string for a field the row lacks; a row with a field
   * outside the schema is refused, and so is a row that is None.
   */
  function WriteRow(fields: seq<string>, row: Option<Row>): (r: Result<seq<Value>, ExportError>)
    ensures row.None? ==> r == Failure(NotAMapping)
    ensures row.Some? ==> (r.Success? <==> row.value.Keys <= FieldSet(fields))
    ensures row.Some? && r.Failure? ==> r.error == UnknownFields(row.value.Keys - FieldSet(fields))
    ensures r.Success? ==> |r.value| == |fields|
    ensures r.Success? ==> forall i :: 0 <= i < |fields| && fields[i] in row.value ==> r.value[i] == row.value[fields[i]]
    ensures r.Success? ==> forall i :: 0 <= i < |fields| && fields[i] !in row.value ==> r.value[i] == Text("")
  {
    match row
    case None => Failure(NotAMapping)
    case Some(m) =>
      var unknown := m.Keys - FieldSet(fields);
      if unknown != {} then
        var k :| k in unknown;
        assert k in m.Keys && k !in FieldSet(fields);
        Failure(UnknownFields(unknown))
      else
        assert m.Keys <= FieldSet(fields) by {
          forall k | k in m.Keys
            ensures k in FieldSet(fields)
          {
            assert k !in unknown;
          }
        }
        Success(seq(|fields|, i requires 0 <= i < |fields| => if fields[i] in m then m[fields[i]] else Text("")))
  }

  /** Writing the header row gives back the field names, in schema order. */
  lemma HeaderRowWritesFieldNames(fields: seq<string>)
    ensures WriteRow(fields, Some(HeaderRow(fields))).Success?
    ensures forall i :: 0 <= i < |fields| ==> WriteRow(fields, Some(HeaderRow(fields))).value[i] == Text(fields[i])
  {
  }

  /** A row whose keys are exactly the schema is written in full, one cell per field. */
  lemma FullRowWritesEveryField(fields: seq<string>, row: Row)
    requires row.Keys == FieldSet(fields)
    ensures WriteRow(fields, Some(row)).Success?
    ensures forall i :: 0 <= i < |fields| ==> WriteRow(fields, Some(row)).value[i] == row[fields[i]]
  {
    assert forall i :: 0 <= i < |fields| ==> fields[i] in FieldSet(fields);
  }

  /** A row built positionally is written back in the same positions, for every field not repeated later. */
  lemma WrittenCell(fields: seq<string>, values: seq<Value>, i: int)
    requires |values| == |fields| && 0 <= i < |fields| && LastOccurrence(fields, i)
    ensures WriteRow(fields, Some(RowOf(fields, values))).Success?
    ensures WriteRow(fields, Some(RowOf(fields, values))).value[i] == values[i]
  {
    FullRowWritesEveryField(fields, RowOf(fields, values));
  }
}
