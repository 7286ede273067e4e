/**
 * Per-comment feature extraction and the export loop.  The first stage writes
 * identity, text, count and language fields; the second stage adds the derived
 * political, attachment, language-mix, date and engagement features.  The text
 * utilities (flattening, MK-name replacement, translation, emoji replacement,
 * mention detection) and the language detector are external and passed in.
 */
module Features {
  import opened Wrappers
  import opened Records
  import opened Politics
  import opened Calendar
  import opened Attachments
  import opened Languages
  import opened Engagement
  import opened Schema
  import FileNames
  import Strings

  /** The external text utilities. */
  datatype Processor = Processor(
    flatten: (string, Option<char>) -> string,        // flatten_text, with an optional delimiter
    replaceMkNames: (string, Status) -> string,
    translate: string -> string,
    replaceEmojis: string -> string,
    isMkIdPatternInText: (string, int) -> bool,
    getMentionedMks: string -> seq<int>)

  /**
   * The processed comment text: MK names replaced, optionally translated, emojis
   * named.  Without the translate option the translator is never consulted; with
   * it, translation comes after the name replacement and before the emoji naming.
   */
  function ProcessedText(comment: Comment, processor: Processor, translate: bool): (text: string)
    ensures !translate ==> text == processor.replaceEmojis(processor.replaceMkNames(comment.content, comment.parent))
    ensures translate ==> text == processor.replaceEmojis(processor.translate(processor.replaceMkNames(comment.content, comment.parent)))
  {
    var replaced := processor.replaceMkNames(comment.content, comment.parent);
    var translated := if translate then processor.translate(replaced) else replaced;
    processor.replaceEmojis(translated)
  }

  /**
   * Translating is the same as not translating with a name replacer that translates
   * its own output: the translator sits between name replacement and emoji naming.
   */
  lemma TranslationFollowsNames(comment: Comment, processor: Processor)
    ensures ProcessedText(comment, processor, true)
         == ProcessedText(comment, processor.(replaceMkNames := (t, s) => processor.translate(processor.replaceMkNames(t, s))), false)
  {
  }

  function Flatten(processor: Processor, text: string): string
  {
    processor.flatten(text, Some(Delimiter))
  }

  function CommentLink(commentId: string): string
  {
    "www.facebook.com/" + commentId
  }

  /**
   * The first-stage row of a comment.  Reading the MK's id fails when the feed's
   * persona has no MK; otherwise the row holds exactly the 15 first-stage fields.
   */
  function FirstStageFeatures(comment: Comment, processedText: string, processor: Processor): (r: Result<Row, ExportError>)
    ensures r.Failure? <==> comment.feed.persona.None?
    ensures r.Failure? ==> r.error == MissingPersona
    ensures r.Success? ==> r.value.Keys == FieldSet(FirstStageFields)
  {
    match comment.feed.persona
    case None => Failure(MissingPersona)
    case Some(mk) => Success(RowOf(FirstStageFields, FirstStageValues(comment, mk, processedText, processor)))
  }

  /** The 15 first-stage values of a comment, in schema order. */
  function FirstStageValues(comment: Comment, mk: Mk, processedText: string, processor: Processor): (values: seq<Value>)
    ensures |values| == 15
  {
    [
      Text(comment.commentId),  // comment_id
      Int(mk.id),  // mk_id
      Text(Flatten(processor, mk.name)),  // mk_name
      Text(comment.parent.statusId),  // parent_status_id
      Text(Flatten(processor, comment.parent.content)),  // parent_status_content
      Text(comment.parent.link),  // parent_status_link
      Text(CommentLink(comment.commentId)),  // comment_link
      Text(Flatten(processor, comment.content)),  // content
      Text(Flatten(processor, processedText)),  // content_processed
      Time(comment.published),  // published
      Text(comment.author.facebookId),  // commentator_id
      Flag(LikedStatus(comment.author, comment.parent)),  // commentator_also_liked_status
      Int(comment.likeCount),  // like_count
      Int(comment.commentCount),  // comment_count
      Text(comment.contentLang)  // language
    ]
  }

  /** The text of an optional wing: its name, or None. */
  function WingValue(w: Option<Wing>): Value
  {
    match w
    case Some(wing) => Text(WingName(wing))
    case None => Null
  }

  function RatioValue(r: Ratio): Value
  {
    Fraction(r.num, r.den)
  }

  /** Identity, text and count columns of the second-stage row (comment_id .. language). */
  function CommentColumns(comment: Comment, mk: Mk, processedText: string, processor: Processor): (values: seq<Value>)
    ensures |values| == 13
  {
    var parent := comment.parent;
    [
      Text(comment.commentId),  // comment_id
      Int(mk.id),  // MK_ID
      Text(Flatten(processor, mk.name)),  // mk_name
      Text(parent.statusId),  // parent_status_id
      Text(Flatten(processor, parent.content)),  // parent_status_content
      Text(parent.link),  // parent_status_link
      Text(CommentLink(comment.commentId)),  // comment_link
      Text(Flatten(processor, comment.content)),  // content
      Text(Flatten(processor, processedText)),  // content_processed
      Time(comment.published),  // published
      Int(comment.likeCount),  // comment_like_count
      Int(comment.commentCount),  // comment_comment_count
      Text(comment.contentLang)  // language
    ]
  }

  /** Columns about the comment's text and its author (LEN_MESSAGE .. COMMENTATOR_ID). */
  function CommentatorColumns(comment: Comment, mk: Mk, processor: Processor): (values: seq<Value>)
    ensures |values| == 6
  {
    var parent := comment.parent;
    var author := comment.author;
    [
      Int(|comment.content|),  // LEN_MESSAGE
      Flag(LikedStatus(author, parent)),  // COMMENTATOR_LIKED_POST
      Flag(processor.isMkIdPatternInText(comment.content, mk.id)),  // HAS_NAME_OF_POST_WRITER_MK_IN_COMMENT
      Ids(processor.getMentionedMks(comment.content)),  // NON_POST_WRITER_MK_IDS_IN_COMMENT
      Int(NumberOfCommentsOnStatuses(author, [parent])),  // NUM_OF_COMMENTS_BY_COMMENTATOR_ON_POST
      Text(author.facebookId)  // COMMENTATOR_ID
    ]
  }

  /** Columns about the MK and the feed's roles (POLITICAL_WING .. IS_PM). */
  function MkColumns(mk: Mk, feed: Feed, processor: Processor): (values: seq<Value>)
    ensures |values| == 9
  {
    [
      WingValue(GetPoliticalWing(mk.currentParty.id)),  // POLITICAL_WING
      Text(processor.flatten(mk.currentParty.name, None)),  // PARTY_NAME
      Text(processor.flatten(mk.gender, None)),  // GENDER
      Int(mk.ageYears),  // AGE
      Null,  // MK_POLITICAL_STATUS
      Null,  // MK_POLITICAL_SENIORITY
      Flag(IsPartyLeader(feed.id)),  // IS_CURRENT_OR_PAST_PARTY_LEADER
      Flag(IsPmContender(feed.id)),  // IS_CURRENT_OR_PAST_PM_CONTENDER
      Flag(IsPm(feed.id))  // IS_PM
    ]
  }

  /** The attachment flags of a status (POST_WITH_PHOTO .. POST_WITH_TEXT_ONLY). */
  function AttachmentColumns(attachment: Option<Attachment>): (values: seq<Value>)
    ensures |values| == 5
  {
    var f := GetAttachmentFlags(attachment);
    [Flag(f.photo), Flag(f.link), Flag(f.video), Flag(f.status), Flag(f.textOnly)]
  }

  /** The language flags of a status (POST_IN_HEBREW .. POST_IN_OTHER). */
  function LanguageColumns(langs: seq<string>): (values: seq<Value>)
    ensures |values| == 4
  {
    var f := GetLanguageFlags(langs);
    [Flag(f.hebrew), Flag(f.english), Flag(f.arabic), Flag(f.other)]
  }

  /** Columns about the parent status (POST_TIME_OF_PUBLICATION .. POST_IN_OTHER). */
  function PostColumns(parent: Status, detect: Detector): (values: seq<Value>)
    ensures |values| == 10
  {
    [Time(parent.published)]  // POST_TIME_OF_PUBLICATION
      + AttachmentColumns(parent.attachment)
      + LanguageColumns(DetectLanguages(parent.content, detect))
  }

  /** Day offsets of the post from the reference dates and the rest-day flags. */
  function DateColumns(comment: Comment, holidays: seq<Interval>): (values: seq<Value>)
    ensures |values| == 7
  {
    var parent := comment.parent;
    [
      Int(DaysFromEvent(parent.published, ElectionDate)),  // DAYS_FROM_ELECTION
      Int(DaysFromEvent(parent.published, ThreeTeenagerKidnapDate)),  // DAYS_FROM_THREE_TEENAGER_KIDNAP
      Int(DaysFromEvent(parent.published, ProtectiveEdgeStartDate)),  // DAYS_FROM_PROTECTIVE_EDGE_OFFICIAL_START_DATE
      Int(DaysFromEvent(parent.published, ProtectiveEdgeEndDate)),  // DAYS_FROM_PROTECTIVE_EDGE_OFFICIAL_END_DATE
      Int(DaysFromEvent(parent.published, ThirdIntifadaStartDate)),  // DAYS_FROM_THIRD_INTIFADA_START_DATE
      Flag(InSomeInterval(holidays, parent.published)),  // POST_PUBLISHED_ON_SATURDAY
      Flag(InSomeInterval(holidays, comment.published))  // COMMENT_PUBLISHED_ON_SATURDAY
    ]
  }

  /** The commentator's engagement with the feed; the ratios need a feed with statuses. */
  function EngagementColumns(author: Commentator, feed: Feed): (values: seq<Value>)
    requires |feed.statuses| > 0
    ensures |values| == 4
  {
    var commentRatio := RatioOfCommentedStatusesForFeed(author, feed).value;
    var likeRatio := RatioOfLikesForFeed(author, feed).value;
    [
      Int(NumberOfCommentsOnStatuses(author, feed.statuses)),  // NUM_OF_COMMENTS_BY_COMMENTATOR_ID_ON_GIVEN_MK_POSTS
      Int(NumberOfLikesOnStatuses(author, feed.statuses)),  // NUM_OF_LIKES_BY_COMMENTATOR_ID_ON_GIVEN_MK_POSTS
      RatioValue(commentRatio),  // RATIO_OF_COMMENTS_BY_COMMENTATOR_ID_ON_GIVEN_MK_POSTS
      RatioValue(likeRatio)  // RATIO_OF_LIKES_BY_COMMENTATOR_ID_ON_GIVEN_MK_POSTS
    ]
  }

  /**
   * The second-stage row of a comment.  Without an MK there is no row (None); with an
   * MK, the engagement ratios divide by the feed's status count and fail on an empty
   * feed; otherwise the row holds exactly the 49 second-stage fields.
   */
  function SecondStageFeatures(comment: Comment, processedText: string, processor: Processor,
                               detect: Detector, holidays: seq<Interval>): (r: Result<Option<Row>, ExportError>)
    ensures r.Success? && r.value.None? <==> comment.feed.persona.None?
    ensures r.Failure? <==> comment.feed.persona.Some? && |comment.feed.statuses| == 0
    ensures r.Failure? ==> r.error == ZeroDivision
    ensures r.Success? && r.value.Some? ==> r.value.value.Keys == FieldSet(SecondStageFields)
  {
    var feed := comment.feed;
    match feed.persona
    case None => Success(None)
    case Some(mk) =>
      if |feed.statuses| == 0 then Failure(ZeroDivision)
      else
        Success(Some(RowOf(SecondStageFields, SecondStageValues(comment, processedText, processor, detect, holidays))))
  }

  /** The 49 second-stage values of a comment whose feed has an MK and statuses, in schema order. */
  function SecondStageValues(comment: Comment, processedText: string, processor: Processor,
                             detect: Detector, holidays: seq<Interval>): (values: seq<Value>)
    requires comment.feed.persona.Some? && |comment.feed.statuses| > 0
    ensures |values| == 49
  {
    var mk := comment.feed.persona.value;
    CommentColumns(comment, mk, processedText, processor)
      + CommentatorColumns(comment, mk, processor)
      + MkColumns(mk, comment.feed, processor)
      + PostColumns(comment.parent, detect)
      + DateColumns(comment, holidays)
      + EngagementColumns(comment.author, comment.feed)
  }

  /** The command's options: the input path the output name derives from, and the two flags. */
  datatype Options = Options(filePath: string, translate: bool, secondStage: bool)

  /** The written file: its name and its lines of cells, the header first. */
  datatype Output = Output(fileName: string, lines: seq<seq<Value>>)

  /**
   * The output name for the chosen mode, with the corrected second-stage name: it
   * starts with the input's stem and agrees with the command whenever the stem
   * holds no dot.
   */
  function OutputFileName(options: Options): (name: string)
    ensures |name| > |FileNames.Stem(options.filePath)|
    ensures name[..|FileNames.Stem(options.filePath)|] == FileNames.Stem(options.filePath)
    ensures Strings.Free(FileNames.Stem(options.filePath), ".") ==>
      name == if options.secondStage then FileNames.SecondStageName(options.filePath)
              else FileNames.FirstStageName(options.filePath)
  {
    if options.secondStage then FileNames.IntendedSecondStageName(options.filePath)
    else FileNames.FirstStageName(options.filePath)
  }

  /** The comment's row can be produced: its feed has an MK, and in the second stage at least one status. */
  predicate RowExtractable(comment: Comment, secondStage: bool)
  {
    comment.feed.persona.Some? && (secondStage ==> |comment.feed.statuses| > 0)
  }

  /** The error the run stops with at a comment whose row cannot be produced. */
  function RowError(comment: Comment, secondStage: bool): ExportError
  {
    if comment.feed.persona.None? then (if secondStage then NotAMapping else MissingPersona)
    else ZeroDivision
  }

  /**
   * A comment as the database relates it: its parent is one of the statuses of the
   * feed it is read through, and that feed holds each status once.
   */
  predicate WellFormed(comment: Comment)
  {
    comment.parent in comment.feed.statuses && DistinctIds(comment.feed.statuses)
  }

  /**
   * For a well-formed comment the division by the feed's status count cannot fail:
   * its line exists exactly when the feed has an MK, and otherwise the run stops with
   * the missing-MK error of the chosen stage.
   */
  lemma WellFormedLine(comment: Comment, options: Options, processor: Processor,
                       detect: Detector, holidays: seq<Interval>)
    requires WellFormed(comment)
    ensures CommentLine(comment, options, processor, detect, holidays).Success? <==> comment.feed.persona.Some?
    ensures CommentLine(comment, options, processor, detect, holidays).Failure? ==>
      CommentLine(comment, options, processor, detect, holidays).error
        == (if options.secondStage then NotAMapping else MissingPersona)
  {
    assert |comment.feed.statuses| > 0;
  }

  /**
   * The cells of one comment's line: the features of the chosen stage handed to the
   * CSV writer.  It fails exactly when the row cannot be produced (a second-stage row
   * that is None is refused by the writer); otherwise it has one cell per schema field.
   */
  function CommentLine(comment: Comment, options: Options, processor: Processor,
                       detect: Detector, holidays: seq<Interval>): (r: Result<seq<Value>, ExportError>)
    ensures r.Success? <==> RowExtractable(comment, options.secondStage)
    ensures r.Failure? ==> r.error == RowError(comment, options.secondStage)
    ensures r.Success? ==> |r.value| == |Fields(options.secondStage)|
  {
    var fields := Fields(options.secondStage);
    var text := ProcessedText(comment, processor, options.translate);
    if options.secondStage then
      (match SecondStageFeatures(comment, text, processor, detect, holidays)
       case Failure(e) => Failure(e)
       case Success(row) => WriteRow(fields, row))
    else
      (match FirstStageFeatures(comment, text, processor)
       case Failure(e) => Failure(e)
       case Success(row) => WriteRow(fields, Some(row)))
  }

  /** The header line of a schema: the field names themselves. */
  function HeaderLine(fields: seq<string>): (line: seq<Value>)
    ensures |line| == |fields|
    ensures forall k :: 0 <= k < |fields| ==> line[k] == Text(fields[k])
  {
    HeaderRowWritesFieldNames(fields);
    WriteRow(fields, Some(HeaderRow(fields))).value
  }

  /** A second-stage line is the writer's layout of the row built from the second-stage values. */
  lemma SecondStageLine(comment: Comment, options: Options, processor: Processor,
                        detect: Detector, holidays: seq<Interval>)
    requires options.secondStage && RowExtractable(comment, true)
    ensures CommentLine(comment, options, processor, detect, holidays).Success?
    ensures CommentLine(comment, options, processor, detect, holidays).value
      == WriteRow(SecondStageFields, Some(RowOf(SecondStageFields,
           SecondStageValues(comment, ProcessedText(comment, processor, options.translate), processor, detect, holidays)))).value
  {
  }

  /** The second-stage values are the six column groups in schema order. */
  lemma SecondStageGroups(comment: Comment, processedText: string, processor: Processor,
                          detect: Detector, holidays: seq<Interval>)
    requires comment.feed.persona.Some? && |comment.feed.statuses| > 0
    ensures SecondStageValues(comment, processedText, processor, detect, holidays)
      == CommentColumns(comment, comment.feed.persona.value, processedText, processor)
       + CommentatorColumns(comment, comment.feed.persona.value, processor)
       + MkColumns(comment.feed.persona.value, comment.feed, processor)
       + PostColumns(comment.parent, detect)
       + DateColumns(comment, holidays)
       + EngagementColumns(comment.author, comment.feed)
  {
  }

  /** Positions of the commentator, MK, post, date and engagement groups within the 49 second-stage columns. */
  lemma GroupPositions(comment: seq<Value>, commentator: seq<Value>, mk: seq<Value>,
                       post: seq<Value>, date: seq<Value>, engagement: seq<Value>)
    requires |comment| == 13 && |commentator| == 6 && |mk| == 9 && |post| == 10 && |date| == 7 && |engagement| == 4
    ensures forall k :: 0 <= k < 6 ==> (comment + commentator + mk + post + date + engagement)[13 + k] == commentator[k]
    ensures forall k :: 0 <= k < 9 ==> (comment + commentator + mk + post + date + engagement)[19 + k] == mk[k]
    ensures forall k :: 0 <= k < 10 ==> (comment + commentator + mk + post + date + engagement)[28 + k] == post[k]
    ensures forall k :: 0 <= k < 7 ==> (comment + commentator + mk + post + date + engagement)[38 + k] == date[k]
    ensures forall k :: 0 <= k < 4 ==> (comment + commentator + mk + post + date + engagement)[45 + k] == engagement[k]
  {
  }

  /** A cell of a second-stage line holds the value at its position, for a field not repeated later. */
  lemma SecondStageCell(comment: Comment, options: Options, processor: Processor,
                        detect: Detector, holidays: seq<Interval>, i: int)
    requires options.secondStage && RowExtractable(comment, true)
    requires 0 <= i < 49 && LastOccurrence(SecondStageFields, i)
    ensures CommentLine(comment, options, processor, detect, holidays).Success?
    ensures CommentLine(comment, options, processor, detect, holidays).value[i]
      == SecondStageValues(comment, ProcessedText(comment, processor, options.translate), processor, detect, holidays)[i]
  {
    var values := SecondStageValues(comment, ProcessedText(comment, processor, options.translate), processor, detect, holidays);
    SecondStageLine(comment, options, processor, detect, holidays);
    WrittenCell(SecondStageFields, values, i);
  }

  /** The second-stage values of a comment, cut into its six column groups. */
  lemma SecondStagePositions(comment: Comment, processedText: string, processor: Processor,
                             detect: Detector, holidays: seq<Interval>)
    requires comment.feed.persona.Some? && |comment.feed.statuses| > 0
    ensures forall k :: 0 <= k < 6 ==> (SecondStageValues(comment, processedText, processor, detect, holidays)[13 + k]
      == CommentatorColumns(comment, comment.feed.persona.value, processor)[k])
    ensures forall k :: 0 <= k < 9 ==> (SecondStageValues(comment, processedText, processor, detect, holidays)[19 + k]
      == MkColumns(comment.feed.persona.value, comment.feed, processor)[k])
    ensures forall k :: 0 <= k < 10 ==> (SecondStageValues(comment, processedText, processor, detect, holidays)[28 + k]
      == PostColumns(comment.parent, detect)[k])
    ensures forall k :: 0 <= k < 7 ==> (SecondStageValues(comment, processedText, processor, detect, holidays)[38 + k]
      == DateColumns(comment, holidays)[k])
    ensures forall k :: 0 <= k < 4 ==> (SecondStageValues(comment, processedText, processor, detect, holidays)[45 + k]
      == EngagementColumns(comment.author, comment.feed)[k])
  {
    var mk := comment.feed.persona.value;
    SecondStageGroups(comment, processedText, processor, detect, holidays);
    GroupPositions(CommentColumns(comment, mk, processedText, processor), CommentatorColumns(comment, mk, processor),
      MkColumns(mk, comment.feed, processor), PostColumns(comment.parent, detect), DateColumns(comment, holidays),
      EngagementColumns(comment.author, comment.feed));
  }

  /** A second-stage cell in the commentator group holds that group's value. */
  lemma CommentatorCell(comment: Comment, options: Options, processor: Processor,
                        detect: Detector, holidays: seq<Interval>, k: int)
    requires options.secondStage && RowExtractable(comment, true)
    requires 0 <= k < 6 && LastOccurrence(SecondStageFields, 13 + k)
    ensures CommentLine(comment, options, processor, detect, holidays).value[13 + k]
      == CommentatorColumns(comment, comment.feed.persona.value, processor)[k]
  {
    SecondStageCell(comment, options, processor, detect, holidays, 13 + k);
    SecondStagePositions(comment, ProcessedText(comment, processor, options.translate), processor, detect, holidays);
  }

  /** A second-stage cell in the MK group holds that group's value. */
  lemma MkCell(comment: Comment, options: Options, processor: Processor,
               detect: Detector, holidays: seq<Interval>, k: int)
    requires options.secondStage && RowExtractable(comment, true)
    requires 0 <= k < 9 && LastOccurrence(SecondStageFields, 19 + k)
    ensures CommentLine(comment, options, processor, detect, holidays).value[19 + k]
      == MkColumns(comment.feed.persona.value, comment.feed, processor)[k]
  {
    SecondStageCell(comment, options, processor, detect, holidays, 19 + k);
    SecondStagePositions(comment, ProcessedText(comment, processor, options.translate), processor, detect, holidays);
  }

  /** A second-stage cell in the post group holds that group's value. */
  lemma PostCell(comment: Comment, options: Options, processor: Processor,
                 detect: Detector, holidays: seq<Interval>, k: int)
    requires options.secondStage && RowExtractable(comment, true)
    requires 0 <= k < 10 && LastOccurrence(SecondStageFields, 28 + k)
    ensures CommentLine(comment, options, processor, detect, holidays).value[28 + k] == PostColumns(comment.parent, detect)[k]
  {
    SecondStageCell(comment, options, processor, detect, holidays, 28 + k);
    SecondStagePositions(comment, ProcessedText(comment, processor, options.translate), processor, detect, holidays);
  }

  /** A second-stage cell in the date group holds that group's value. */
  lemma DateCell(comment: Comment, options: Options, processor: Processor,
                 detect: Detector, holidays: seq<Interval>, k: int)
    requires options.secondStage && RowExtractable(comment, true)
    requires 0 <= k < 7 && LastOccurrence(SecondStageFields, 38 + k)
    ensures CommentLine(comment, options, processor, detect, holidays).value[38 + k] == DateColumns(comment, holidays)[k]
  {
    SecondStageCell(comment, options, processor, detect, holidays, 38 + k);
    SecondStagePositions(comment, ProcessedText(comment, processor, options.translate), processor, detect, holidays);
  }

  /** A second-stage cell in the engagement group holds that group's value. */
  lemma EngagementCell(comment: Comment, options: Options, processor: Processor,
                       detect: Detector, holidays: seq<Interval>, k: int)
    requires options.secondStage && RowExtractable(comment, true)
    requires 0 <= k < 4 && LastOccurrence(SecondStageFields, 45 + k)
    ensures CommentLine(comment, options, processor, detect, holidays).value[45 + k]
      == EngagementColumns(comment.author, comment.feed)[k]
  {
    SecondStageCell(comment, options, processor, detect, holidays, 45 + k);
    SecondStagePositions(comment, ProcessedText(comment, processor, options.translate), processor, detect, holidays);
  }

  /** The message length, the liked flag and the author's comment count under the parent status. */
  lemma CommentatorColumnsMeaning(comment: Comment, mk: Mk, processor: Processor)
    ensures CommentatorColumns(comment, mk, processor)[0] == Int(|comment.content|)
    ensures CommentatorColumns(comment, mk, processor)[1] == Flag(comment.parent.statusId in comment.author.likedStatuses)
    ensures CommentatorColumns(comment, mk, processor)[4]
      == Int(multiset(comment.author.commentParents)[comment.parent.statusId])
  {
    CommentsOnOneStatus(comment.author, comment.parent);
  }

  /** LEN_MESSAGE and COMMENTATOR_LIKED_POST sit at 13 and 14, each once. */
  lemma CommentatorFieldPositions()
    ensures SecondStageFields[13] == "LEN_MESSAGE" && LastOccurrence(SecondStageFields, 13)
    ensures SecondStageFields[14] == "COMMENTATOR_LIKED_POST" && LastOccurrence(SecondStageFields, 14)
  {
  }

  /** NUM_OF_COMMENTS_BY_COMMENTATOR_ON_POST sits at 17, once. */
  lemma CommentCountFieldPosition()
    ensures SecondStageFields[17] == "NUM_OF_COMMENTS_BY_COMMENTATOR_ON_POST" && LastOccurrence(SecondStageFields, 17)
  {
  }

  /**
   * The commentator columns of a second-stage line: LEN_MESSAGE is the length of the
   * comment, COMMENTATOR_LIKED_POST whether its author liked the parent status, and
   * NUM_OF_COMMENTS_BY_COMMENTATOR_ON_POST how many of the author's comments are
   * under the parent status.
   */
  lemma CommentatorCells(comment: Comment, options: Options, processor: Processor,
                         detect: Detector, holidays: seq<Interval>)
    requires options.secondStage && RowExtractable(comment, true)
    ensures SecondStageFields[13] == "LEN_MESSAGE" && SecondStageFields[14] == "COMMENTATOR_LIKED_POST"
    ensures SecondStageFields[17] == "NUM_OF_COMMENTS_BY_COMMENTATOR_ON_POST"
    ensures CommentLine(comment, options, processor, detect, holidays).value[13] == Int(|comment.content|)
    ensures CommentLine(comment, options, processor, detect, holidays).value[14]
      == Flag(comment.parent.statusId in comment.author.likedStatuses)
    ensures CommentLine(comment, options, processor, detect, holidays).value[17]
      == Int(multiset(comment.author.commentParents)[comment.parent.statusId])
  {
    CommentatorFieldPositions();
    CommentCountFieldPosition();
    CommentatorCell(comment, options, processor, detect, holidays, 0);
    CommentatorCell(comment, options, processor, detect, holidays, 1);
    CommentatorCell(comment, options, processor, detect, holidays, 4);
    CommentatorColumnsMeaning(comment, comment.feed.persona.value, processor);
  }

  /** POLITICAL_WING sits at 19, once. */
  lemma WingFieldPosition()
    ensures SecondStageFields[19] == "POLITICAL_WING" && LastOccurrence(SecondStageFields, 19)
  {
  }

  /** The two role flags and IS_PM sit at 25, 26 and 27, each once. */
  lemma PoliticalFieldPositions()
    ensures SecondStageFields[25] == "IS_CURRENT_OR_PAST_PARTY_LEADER" && LastOccurrence(SecondStageFields, 25)
    ensures SecondStageFields[26] == "IS_CURRENT_OR_PAST_PM_CONTENDER" && LastOccurrence(SecondStageFields, 26)
    ensures SecondStageFields[27] == "IS_PM" && LastOccurrence(SecondStageFields, 27)
  {
  }

  /**
   * The MK columns of a second-stage line: POLITICAL_WING is the wing of the MK's
   * current party; the party-leader, PM-contender and PM flags test the feed's id
   * against the leader list, the contender list and the PM's feed.
   */
  lemma PoliticalCells(comment: Comment, options: Options, processor: Processor,
                       detect: Detector, holidays: seq<Interval>)
    requires options.secondStage && RowExtractable(comment, true)
    ensures SecondStageFields[19] == "POLITICAL_WING" && SecondStageFields[27] == "IS_PM"
    ensures SecondStageFields[25] == "IS_CURRENT_OR_PAST_PARTY_LEADER"
    ensures SecondStageFields[26] == "IS_CURRENT_OR_PAST_PM_CONTENDER"
    ensures CommentLine(comment, options, processor, detect, holidays).value[19]
      == WingValue(GetPoliticalWing(comment.feed.persona.value.currentParty.id))
    ensures CommentLine(comment, options, processor, detect, holidays).value[25] == Flag(comment.feed.id in PartyLeaderFeeds)
    ensures CommentLine(comment, options, processor, detect, holidays).value[26] == Flag(comment.feed.id in PmContenderFeeds)
    ensures CommentLine(comment, options, processor, detect, holidays).value[27] == Flag(comment.feed.id == 30)
  {
    WingFieldPosition();
    PoliticalFieldPositions();
    MkCell(comment, options, processor, detect, holidays, 0);
    MkCell(comment, options, processor, detect, holidays, 6);
    MkCell(comment, options, processor, detect, holidays, 7);
    MkCell(comment, options, processor, detect, holidays, 8);
  }

  /** POST_WITH_PHOTO, POST_WITH_LINK and POST_WITH_VIDEO sit at 29 to 31, each once. */
  lemma AttachmentFieldPositions()
    ensures SecondStageFields[29] == "POST_WITH_PHOTO" && LastOccurrence(SecondStageFields, 29)
    ensures SecondStageFields[30] == "POST_WITH_LINK" && LastOccurrence(SecondStageFields, 30)
    ensures SecondStageFields[31] == "POST_WITH_VIDEO" && LastOccurrence(SecondStageFields, 31)
  {
  }

  /** POST_WITH_STATUS and POST_WITH_TEXT_ONLY sit at 32 and 33, each once. */
  lemma TextOnlyFieldPositions()
    ensures SecondStageFields[32] == "POST_WITH_STATUS" && LastOccurrence(SecondStageFields, 32)
    ensures SecondStageFields[33] == "POST_WITH_TEXT_ONLY" && LastOccurrence(SecondStageFields, 33)
  {
  }

  /** Positions of the attachment and language flags within the post group. */
  lemma PostGroupPositions(time: seq<Value>, attachments: seq<Value>, languages: seq<Value>)
    requires |time| == 1 && |attachments| == 5 && |languages| == 4
    ensures forall k :: 0 <= k < 5 ==> (time + attachments + languages)[1 + k] == attachments[k]
    ensures forall k :: 0 <= k < 4 ==> (time + attachments + languages)[6 + k] == languages[k]
  {
  }

  /** The attachment columns of the post group: one flag per attachment type, and one for no attachment. */
  lemma PostColumnsAttachments(parent: Status, detect: Detector)
    ensures PostColumns(parent, detect)[1] == Flag(parent.attachment.Some? && parent.attachment.value.kind == "photo")
    ensures PostColumns(parent, detect)[2] == Flag(parent.attachment.Some? && parent.attachment.value.kind == "link")
    ensures PostColumns(parent, detect)[3] == Flag(parent.attachment.Some? && parent.attachment.value.kind == "video")
    ensures PostColumns(parent, detect)[4] == Flag(parent.attachment.Some? && parent.attachment.value.kind == "status")
    ensures PostColumns(parent, detect)[5] == Flag(parent.attachment.None?)
  {
    PostGroupPositions([Time(parent.published)], AttachmentColumns(parent.attachment),
      LanguageColumns(DetectLanguages(parent.content, detect)));
    AttachmentColumnsMeaning(parent.attachment);
  }

  /** The attachment flags: one per attachment type, and one for no attachment. */
  lemma AttachmentColumnsMeaning(attachment: Option<Attachment>)
    ensures AttachmentColumns(attachment)[0] == Flag(attachment.Some? && attachment.value.kind == "photo")
    ensures AttachmentColumns(attachment)[1] == Flag(attachment.Some? && attachment.value.kind == "link")
    ensures AttachmentColumns(attachment)[2] == Flag(attachment.Some? && attachment.value.kind == "video")
    ensures AttachmentColumns(attachment)[3] == Flag(attachment.Some? && attachment.value.kind == "status")
    ensures AttachmentColumns(attachment)[4] == Flag(attachment.None?)
  {
  }

  /**
   * The attachment columns of a second-stage line: PHOTO, LINK, VIDEO and STATUS are
   * set when the parent status has an attachment of that type, TEXT_ONLY when it has
   * none.
   */
  lemma AttachmentCells(comment: Comment, options: Options, processor: Processor,
                        detect: Detector, holidays: seq<Interval>)
    requires options.secondStage && RowExtractable(comment, true)
    ensures SecondStageFields[29] == "POST_WITH_PHOTO" && SecondStageFields[30] == "POST_WITH_LINK"
    ensures SecondStageFields[31] == "POST_WITH_VIDEO" && SecondStageFields[32] == "POST_WITH_STATUS"
    ensures SecondStageFields[33] == "POST_WITH_TEXT_ONLY"
    ensures CommentLine(comment, options, processor, detect, holidays).value[29]
      == Flag(comment.parent.attachment.Some? && comment.parent.attachment.value.kind == "photo")
    ensures CommentLine(comment, options, processor, detect, holidays).value[30]
      == Flag(comment.parent.attachment.Some? && comment.parent.attachment.value.kind == "link")
    ensures CommentLine(comment, options, processor, detect, holidays).value[31]
      == Flag(comment.parent.attachment.Some? && comment.parent.attachment.value.kind == "video")
    ensures CommentLine(comment, options, processor, detect, holidays).value[32]
      == Flag(comment.parent.attachment.Some? && comment.parent.attachment.value.kind == "status")
    ensures CommentLine(comment, options, processor, detect, holidays).value[33]
      == Flag(comment.parent.attachment.None?)
  {
    AttachmentFieldPositions();
    TextOnlyFieldPositions();
    PostColumnsAttachments(comment.parent, detect);
    PostCell(comment, options, processor, detect, holidays, 1);
    PostCell(comment, options, processor, detect, holidays, 2);
    PostCell(comment, options, processor, detect, holidays, 3);
    PostCell(comment, options, processor, detect, holidays, 4);
    PostCell(comment, options, processor, detect, holidays, 5);
  }

  /** The four language columns sit at 34 to 37, each once. */
  lemma LanguageFieldPositions()
    ensures SecondStageFields[34] == "POST_IN_HEBREW" && LastOccurrence(SecondStageFields, 34)
    ensures SecondStageFields[35] == "POST_IN_ENGLISH" && LastOccurrence(SecondStageFields, 35)
    ensures SecondStageFields[36] == "POST_IN_ARABIC" && LastOccurrence(SecondStageFields, 36)
    ensures SecondStageFields[37] == "POST_IN_OTHER" && LastOccurrence(SecondStageFields, 37)
  {
  }

  /** The language flags: one per known code, and one for any other code. */
  lemma LanguageColumnsMeaning(langs: seq<string>)
    ensures LanguageColumns(langs)[0] == Flag("he" in langs)
    ensures LanguageColumns(langs)[1] == Flag("en" in langs)
    ensures LanguageColumns(langs)[2] == Flag("ar" in langs)
    ensures LanguageColumns(langs)[3] == Flag(exists x :: x in langs && x !in KnownLanguages)
  {
  }

  /** The language columns of the post group: a flag per known code detected, and one for any other code. */
  lemma PostColumnsLanguages(parent: Status, detect: Detector)
    ensures PostColumns(parent, detect)[6] == Flag("he" in DetectLanguages(parent.content, detect))
    ensures PostColumns(parent, detect)[7] == Flag("en" in DetectLanguages(parent.content, detect))
    ensures PostColumns(parent, detect)[8] == Flag("ar" in DetectLanguages(parent.content, detect))
    ensures PostColumns(parent, detect)[9] == Flag(exists x :: x in DetectLanguages(parent.content, detect) && x !in KnownLanguages)
  {
    var langs := DetectLanguages(parent.content, detect);
    PostGroupPositions([Time(parent.published)], AttachmentColumns(parent.attachment), LanguageColumns(langs));
    LanguageColumnsMeaning(langs);
  }

  /**
   * The language columns of a second-stage line: POST_IN_HEBREW, POST_IN_ENGLISH and
   * POST_IN_ARABIC are set when "he", "en" or "ar" is among the languages detected in
   * the parent status, POST_IN_OTHER when some detected code is none of these.
   */
  lemma LanguageCells(comment: Comment, options: Options, processor: Processor,
                      detect: Detector, holidays: seq<Interval>)
    requires options.secondStage && RowExtractable(comment, true)
    ensures SecondStageFields[34] == "POST_IN_HEBREW" && SecondStageFields[35] == "POST_IN_ENGLISH"
    ensures SecondStageFields[36] == "POST_IN_ARABIC" && SecondStageFields[37] == "POST_IN_OTHER"
    ensures CommentLine(comment, options, processor, detect, holidays).value[34]
      == Flag("he" in DetectLanguages(comment.parent.content, detect))
    ensures CommentLine(comment, options, processor, detect, holidays).value[35]
      == Flag("en" in DetectLanguages(comment.parent.content, detect))
    ensures CommentLine(comment, options, processor, detect, holidays).value[36]
      == Flag("ar" in DetectLanguages(comment.parent.content, detect))
    ensures CommentLine(comment, options, processor, detect, holidays).value[37]
      == Flag(exists x :: x in DetectLanguages(comment.parent.content, detect) && x !in KnownLanguages)
  {
    LanguageFieldPositions();
    PostColumnsLanguages(comment.parent, detect);
    PostCell(comment, options, processor, detect, holidays, 6);
    PostCell(comment, options, processor, detect, holidays, 7);
    PostCell(comment, options, processor, detect, holidays, 8);
    PostCell(comment, options, processor, detect, holidays, 9);
  }

  /** The five day-offset columns sit at 38 to 42, each once. */
  lemma DateFieldPositions()
    ensures SecondStageFields[38] == "DAYS_FROM_ELECTION" && LastOccurrence(SecondStageFields, 38)
    ensures SecondStageFields[39] == "DAYS_FROM_THREE_TEENAGER_KIDNAP" && LastOccurrence(SecondStageFields, 39)
    ensures SecondStageFields[40] == "DAYS_FROM_PROTECTIVE_EDGE_OFFICIAL_START_DATE" && LastOccurrence(SecondStageFields, 40)
    ensures SecondStageFields[41] == "DAYS_FROM_PROTECTIVE_EDGE_OFFICIAL_END_DATE" && LastOccurrence(SecondStageFields, 41)
    ensures SecondStageFields[42] == "DAYS_FROM_THIRD_INTIFADA_START_DATE" && LastOccurrence(SecondStageFields, 42)
  {
  }

  /**
   * The day-offset columns of a second-stage line: the whole days from each reference
   * date (election day 2015-03-17, the kidnapping 2014-06-12, Protective Edge's start
   * 2015-07-08 and end 2015-08-26, the third intifada 2015-09-13) to the parent
   * status's publication.
   */
  lemma DateCells(comment: Comment, options: Options, processor: Processor,
                  detect: Detector, holidays: seq<Interval>)
    requires options.secondStage && RowExtractable(comment, true)
    ensures SecondStageFields[38] == "DAYS_FROM_ELECTION"
    ensures SecondStageFields[39] == "DAYS_FROM_THREE_TEENAGER_KIDNAP"
    ensures SecondStageFields[40] == "DAYS_FROM_PROTECTIVE_EDGE_OFFICIAL_START_DATE"
    ensures SecondStageFields[41] == "DAYS_FROM_PROTECTIVE_EDGE_OFFICIAL_END_DATE"
    ensures SecondStageFields[42] == "DAYS_FROM_THIRD_INTIFADA_START_DATE"
    ensures CommentLine(comment, options, processor, detect, holidays).value[38]
      == Int(DaysFromEvent(comment.parent.published, Midnight(2015, 3, 17)))
    ensures CommentLine(comment, options, processor, detect, holidays).value[39]
      == Int(DaysFromEvent(comment.parent.published, Midnight(2014, 6, 12)))
    ensures CommentLine(comment, options, processor, detect, holidays).value[40]
      == Int(DaysFromEvent(comment.parent.published, Midnight(2015, 7, 8)))
    ensures CommentLine(comment, options, processor, detect, holidays).value[41]
      == Int(DaysFromEvent(comment.parent.published, Midnight(2015, 8, 26)))
    ensures CommentLine(comment, options, processor, detect, holidays).value[42]
      == Int(DaysFromEvent(comment.parent.published, Midnight(2015, 9, 13)))
  {
    DateFieldPositions();
    DateCell(comment, options, processor, detect, holidays, 0);
    DateCell(comment, options, processor, detect, holidays, 1);
    DateCell(comment, options, processor, detect, holidays, 2);
    DateCell(comment, options, processor, detect, holidays, 3);
    DateCell(comment, options, processor, detect, holidays, 4);
  }

  /** The two rest-day columns sit at 43 and 44, each once. */
  lemma RestDayFieldPositions()
    ensures SecondStageFields[43] == "POST_PUBLISHED_ON_SATURDAY" && LastOccurrence(SecondStageFields, 43)
    ensures SecondStageFields[44] == "COMMENT_PUBLISHED_ON_SATURDAY" && LastOccurrence(SecondStageFields, 44)
  {
  }

  /**
   * The rest-day columns of a second-stage line: POST_PUBLISHED_ON_SATURDAY whether the
   * parent status, COMMENT_PUBLISHED_ON_SATURDAY whether the comment, was published
   * inside one of the rest-day intervals, bounds included.
   */
  lemma RestDayCells(comment: Comment, options: Options, processor: Processor,
                     detect: Detector, holidays: seq<Interval>)
    requires options.secondStage && RowExtractable(comment, true)
    ensures SecondStageFields[43] == "POST_PUBLISHED_ON_SATURDAY"
    ensures SecondStageFields[44] == "COMMENT_PUBLISHED_ON_SATURDAY"
    ensures CommentLine(comment, options, processor, detect, holidays).value[43]
      == Flag(InSomeInterval(holidays, comment.parent.published))
    ensures CommentLine(comment, options, processor, detect, holidays).value[44]
      == Flag(InSomeInterval(holidays, comment.published))
  {
    RestDayFieldPositions();
    DateCell(comment, options, processor, detect, holidays, 5);
    DateCell(comment, options, processor, detect, holidays, 6);
  }

  /** The four engagement columns sit at 45 to 48, each once. */
  lemma EngagementFieldPositions()
    ensures SecondStageFields[45] == "NUM_OF_COMMENTS_BY_COMMENTATOR_ID_ON_GIVEN_MK_POSTS" && LastOccurrence(SecondStageFields, 45)
    ensures SecondStageFields[46] == "NUM_OF_LIKES_BY_COMMENTATOR_ID_ON_GIVEN_MK_POSTS" && LastOccurrence(SecondStageFields, 46)
    ensures SecondStageFields[47] == "RATIO_OF_COMMENTS_BY_COMMENTATOR_ID_ON_GIVEN_MK_POSTS" && LastOccurrence(SecondStageFields, 47)
    ensures SecondStageFields[48] == "RATIO_OF_LIKES_BY_COMMENTATOR_ID_ON_GIVEN_MK_POSTS" && LastOccurrence(SecondStageFields, 48)
  {
  }

  /**
   * The engagement columns of a second-stage line: the commentator's comments and likes
   * on the feed's statuses, then the statuses of the feed the commentator commented on
   * and the commentator's likes on the feed, each over the feed's status count.
   */
  lemma EngagementCells(comment: Comment, options: Options, processor: Processor,
                        detect: Detector, holidays: seq<Interval>)
    requires options.secondStage && RowExtractable(comment, true)
    ensures SecondStageFields[45] == "NUM_OF_COMMENTS_BY_COMMENTATOR_ID_ON_GIVEN_MK_POSTS"
    ensures SecondStageFields[46] == "NUM_OF_LIKES_BY_COMMENTATOR_ID_ON_GIVEN_MK_POSTS"
    ensures SecondStageFields[47] == "RATIO_OF_COMMENTS_BY_COMMENTATOR_ID_ON_GIVEN_MK_POSTS"
    ensures SecondStageFields[48] == "RATIO_OF_LIKES_BY_COMMENTATOR_ID_ON_GIVEN_MK_POSTS"
    ensures CommentLine(comment, options, processor, detect, holidays).value[45]
      == Int(NumberOfCommentsOnStatuses(comment.author, comment.feed.statuses))
    ensures CommentLine(comment, options, processor, detect, holidays).value[46]
      == Int(NumberOfLikesOnStatuses(comment.author, comment.feed.statuses))
    ensures CommentLine(comment, options, processor, detect, holidays).value[47]
      == Fraction(|CommentedStatuses(comment.author, comment.feed.statuses)|, |comment.feed.statuses|)
    ensures CommentLine(comment, options, processor, detect, holidays).value[48]
      == Fraction(NumberOfLikesOnStatuses(comment.author, comment.feed.statuses), |comment.feed.statuses|)
  {
    EngagementFieldPositions();
    EngagementCell(comment, options, processor, detect, holidays, 0);
    EngagementCell(comment, options, processor, detect, holidays, 1);
    EngagementCell(comment, options, processor, detect, holidays, 2);
    EngagementCell(comment, options, processor, detect, holidays, 3);
  }

  /** A cell of a first-stage line holds the value at its position, for a field not repeated later. */
  lemma FirstStageCell(comment: Comment, options: Options, processor: Processor,
                       detect: Detector, holidays: seq<Interval>, i: int)
    requires !options.secondStage && RowExtractable(comment, false)
    requires 0 <= i < 15 && LastOccurrence(FirstStageFields, i)
    ensures CommentLine(comment, options, processor, detect, holidays).Success?
    ensures CommentLine(comment, options, processor, detect, holidays).value[i]
      == FirstStageValues(comment, comment.feed.persona.value, ProcessedText(comment, processor, options.translate), processor)[i]
  {
    var values := FirstStageValues(comment, comment.feed.persona.value, ProcessedText(comment, processor, options.translate), processor);
    WrittenCell(FirstStageFields, values, i);
  }

  /** mk_id, comment_link and commentator_also_liked_status sit at positions 1, 6 and 11 of the first-stage schema, each once. */
  lemma FirstStageFieldPositions()
    ensures FirstStageFields[1] == "mk_id" && LastOccurrence(FirstStageFields, 1)
    ensures FirstStageFields[6] == "comment_link" && LastOccurrence(FirstStageFields, 6)
    ensures FirstStageFields[11] == "commentator_also_liked_status" && LastOccurrence(FirstStageFields, 11)
  {
  }

  /** The first-stage values of the MK id, the comment link and the liked flag. */
  lemma FirstStageIdentityValues(comment: Comment, mk: Mk, processedText: string, processor: Processor)
    ensures FirstStageValues(comment, mk, processedText, processor)[1] == Int(mk.id)
    ensures FirstStageValues(comment, mk, processedText, processor)[6] == Text("www.facebook.com/" + comment.commentId)
    ensures FirstStageValues(comment, mk, processedText, processor)[11]
      == Flag(comment.parent.statusId in comment.author.likedStatuses)
  {
  }

  /**
   * The identity columns of a first-stage line: mk_id is the id of the feed's MK,
   * comment_link the comment's Facebook address, and commentator_also_liked_status
   * whether the author liked the parent status.
   */
  lemma FirstStageCells(comment: Comment, options: Options, processor: Processor,
                        detect: Detector, holidays: seq<Interval>)
    requires !options.secondStage && RowExtractable(comment, false)
    ensures FirstStageFields[1] == "mk_id" && FirstStageFields[6] == "comment_link"
    ensures FirstStageFields[11] == "commentator_also_liked_status"
    ensures CommentLine(comment, options, processor, detect, holidays).value[1] == Int(comment.feed.persona.value.id)
    ensures CommentLine(comment, options, processor, detect, holidays).value[6]
      == Text("www.facebook.com/" + comment.commentId)
    ensures CommentLine(comment, options, processor, detect, holidays).value[11]
      == Flag(comment.parent.statusId in comment.author.likedStatuses)
  {
    FirstStageFieldPositions();
    FirstStageIdentityValues(comment, comment.feed.persona.value, ProcessedText(comment, processor, options.translate), processor);
    FirstStageCell(comment, options, processor, detect, holidays, 1);
    FirstStageCell(comment, options, processor, detect, holidays, 6);
    FirstStageCell(comment, options, processor, detect, holidays, 11);
  }

  /**
   * The writing loop: the header line, then each item's line in order, stopping at
   * the first item whose line cannot be produced.  `written` counts the items whose
   * lines were produced: all of them on success, otherwise the position of the item
   * that failed.
   */
  method CollectLines<T>(header: seq<Value>, items: seq<T>, line: T -> Result<seq<Value>, ExportError>)
    returns (r: Result<seq<seq<Value>>, ExportError>, written: nat)
    ensures written <= |items|
    ensures forall j :: 0 <= j < written ==> line(items[j]).Success?
    ensures r.Success? <==> written == |items|
    ensures r.Success? ==> |r.value| == |items| + 1 && r.value[0] == header
    ensures r.Success? ==> forall i :: 0 <= i < |items| ==> r.value[i + 1] == line(items[i]).value
    ensures r.Failure? ==> line(items[written]).Failure? && r.error == line(items[written]).error
  {
    var lines := [header];
    written := 0;
    while written < |items|
      invariant written <= |items|
      invariant |lines| == written + 1 && lines[0] == header
      invariant forall j :: 0 <= j < written ==> line(items[j]).Success? && lines[j + 1] == line(items[j]).value
    {
      var next := line(items[written]);
      if next.Failure? {
        return Failure(next.error), written;
      }
      lines := lines + [next.value];
      written := written + 1;
    }
    return Success(lines), written;
  }

  /**
   * The export run: the header line, then one line per comment in order, into the
   * file named for the chosen stage.  Every comment before position `written` has a
   * row; the run succeeds exactly when all of them do, and then every line has one
   * cell per schema field.  Otherwise it stops at the comment at `written` with the
   * error its row raises.
   */
  method Export(comments: seq<Comment>, options: Options, processor: Processor,
                detect: Detector, holidays: seq<Interval>) returns (r: Result<Output, ExportError>, written: nat)
    ensures written <= |comments|
    ensures forall j :: 0 <= j < written ==> RowExtractable(comments[j], options.secondStage)
    ensures r.Success? <==> written == |comments|
    ensures r.Failure? ==> (!RowExtractable(comments[written], options.secondStage)
      && r.error == RowError(comments[written], options.secondStage))
    ensures r.Success? ==> r.value.fileName == OutputFileName(options)
    ensures r.Success? ==> |r.value.lines| == |comments| + 1
    ensures r.Success? ==> r.value.lines[0] == HeaderLine(Fields(options.secondStage))
    ensures r.Success? ==> forall j :: 0 <= j < |r.value.lines| ==> |r.value.lines[j]| == |Fields(options.secondStage)|
    ensures r.Success? ==> forall i :: 0 <= i < |comments| ==>
      r.value.lines[i + 1] == CommentLine(comments[i], options, processor, detect, holidays).value
  {
    var line := c => CommentLine(c, options, processor, detect, holidays);
    var lines;
    lines, written := CollectLines(HeaderLine(Fields(options.secondStage)), comments, line);
    if lines.Failure? {
      return Failure(lines.error), written;
    }
    forall j | 0 <= j < |lines.value|
      ensures |lines.value[j]| == |Fields(options.secondStage)|
    {
      if j > 0 {
        assert lines.value[j] == line(comments[j - 1]).value;
      }
    }
    return Success(Output(OutputFileName(options), lines.value)), written;
  }
}
