# Comment export of kikar-hamedina, modelled in Dafny

The `export_comments_to_csv` management command of kikar-hamedina writes one CSV
line per Facebook comment on an MK's (member of Knesset's) feed. The first stage
writes identity, text and count columns (15 fields). The second stage
(`--second_stage`) writes 49 fields: it adds political, attachment, language,
date and engagement features derived from the comment, its parent status, the
feed and the commentator. This project models the derivation rules and the
export loop over abstract records. It proves what each rule promises.

Modules, in dependency order:

- `Wrappers`: `Option` and `Result`.
- `Records`: parties, MKs, statuses, feeds, commentators and comments, plus the
  error outcomes of a run (`ExportError`).
- `Politics`: the party-to-wing table and the PM, PM-contender and party-leader
  feed tables.
- `Calendar`: civil dates to day numbers, the five reference midnights, the day
  offset `DaysFromEvent`, and rest-day interval membership.
- `Attachments`: the five attachment flags of a status.
- `Strings`: occurrence, `IndexOf`, `Join`, Python's `str.split` with a
  separator, the text before and after the first separator, and
  `str.replace(phrase, '')`.
- `Languages`: status-language detection (the detector is a parameter) and the
  four language flags.
- `Engagement`: the commentator's comments and likes on a feed, and the two ratios.
- `FileNames`: the output file name of each stage.
- `Schema`: the two field lists, the header row, and the CSV writer's layout of
  one row.
- `Features`: the first- and second-stage rows, one output line, and the `Export`
  loop.

Modelling decisions:

- Timestamps are whole seconds in UTC. `DaysFromEvent(pub, ref)` is
  `(pub - ref) / 86400`. Dafny's division rounds toward negative infinity for a
  positive divisor, as `timedelta.days` does. The code subtracts the reference
  from the publication time, so the offset is positive after the reference date:
  a post at midnight on 2015-03-10 is −7 days from election day 2015-03-17, as
  `Calendar.WeekBeforeElection` proves.
- A feed's `persona` field is the persona's MK object (`content_object`), or `None`
  when there is none. Missing an MK has different outcomes in the two stages:
  - First stage: reading the MK's id fails (`MissingPersona`).
  - Second stage: the features are `None` (the `if mk:` has no else branch), and
    the writer then refuses `None` (`NotAMapping`).
- The two engagement ratios are kept as an integer numerator and denominator.
  A feed without statuses makes them fail (`ZeroDivision`), which ends the run.
- A row is a map from field name to value, built positionally from the values
  listed in schema order. The dict displays in the source list their keys in
  schema order.
- The export uses the corrected second-stage file name (see Findings). It agrees
  with the command's name whenever the path's stem holds no dot.
- A comment carries its parent status and the feed it is read through. In the
  program the feed is the parent's feed (`comment.parent.feed`), so the parent
  is one of the feed's statuses, and a feed holds each status once.
  `Features.WellFormed` states this relation, and `Features.WellFormedLine`
  proves that for such a comment the division by the status count never fails.
  The operations themselves accept any comment and report `ZeroDivision` for a
  feed without statuses, as the program would.
- Statuses are identified by their status id. A commentator is represented by
  the parent status ids of their comments and the status ids they liked.

## Model

| member | source | states |
|---|---|---|
| `Politics.GetPoliticalWing` | kikar_hamedina/reporting/management/commands/export_comments_to_csv.py:283-295 | a party gets wing w exactly when its id is in w's list, and no wing exactly when it is in none of the five lists |
| `Politics.WingTablesDisjoint` | kikar_hamedina/reporting/management/commands/export_comments_to_csv.py:284-293 | no party id is listed under two wings, so the order of the tests does not matter |
| `Politics.WingExamples` | kikar_hamedina/reporting/management/commands/export_comments_to_csv.py:284-293 | 31 is RIGHT, 32 CENTER, 33 LEFT, 35 ARAB, 34 CHAREDI |
| `Politics.UnlistedParties` | kikar_hamedina/reporting/management/commands/export_comments_to_csv.py:294-295 | ids listed nowhere (0, 11, 37) get no wing |
| `Politics.IsPm` | kikar_hamedina/reporting/management/commands/export_comments_to_csv.py:323-326 | the PM's feed is a party leader's feed and not a PM contender's |
| `Politics.IsPmContender` | kikar_hamedina/reporting/management/commands/export_comments_to_csv.py:328-331 | every PM contender's feed is a party leader's feed and not the PM's |
| `Politics.IsPartyLeader` | kikar_hamedina/reporting/management/commands/export_comments_to_csv.py:333-336 | the PM's feed and every PM contender's feed count as party leaders' feeds |
| `Calendar.DaysFromEvent` | kikar_hamedina/reporting/management/commands/export_comments_to_csv.py:297-298 | the offset is the floor of the elapsed time in days: days·86400 ≤ pub − ref < (days+1)·86400 |
| `Calendar.DaysFromEventSign` | kikar_hamedina/reporting/management/commands/export_comments_to_csv.py:297-298 | 0 at the reference instant, negative exactly before it, positive exactly from one full day after it |
| `Calendar.DaysFromEventMonotonic` | kikar_hamedina/reporting/management/commands/export_comments_to_csv.py:297-298 | a later publication never has a smaller offset from the same reference |
| `Calendar.DaysFromEventBetweenMidnights` | kikar_hamedina/reporting/management/commands/export_comments_to_csv.py:210-219 | between two midnights the offset is the difference of their calendar day numbers |
| `Calendar.EpochDayOfNextDate` | kikar_hamedina/reporting/management/commands/export_comments_to_csv.py:210-219 | consecutive calendar dates get consecutive day numbers, across month and year ends and leap days |
| `Calendar.WeekBeforeElection` | kikar_hamedina/reporting/management/commands/export_comments_to_csv.py:210-211 | election day 2015-03-17 is day 16511 since 1970-01-01, and a post at midnight on 2015-03-10 is 7 days before it (−7) |
| `Calendar.IsDateInHoliday` | kikar_hamedina/reporting/management/commands/export_comments_to_csv.py:338-343 | true exactly when some pair has start ≤ t ≤ end |
| `Calendar.EmptyTableHasNoHoliday` | kikar_hamedina/reporting/management/commands/export_comments_to_csv.py:338-343 | an empty pair list contains no instant |
| `Calendar.HolidayBoundsInclusive` | kikar_hamedina/reporting/management/commands/export_comments_to_csv.py:341 | both ends of a non-empty pair are inside it |
| `Calendar.HolidayOrderIrrelevant` | kikar_hamedina/reporting/management/commands/export_comments_to_csv.py:340-343 | any reordering of the pair list gives the same answer |
| `Calendar.HolidayConcat` | kikar_hamedina/reporting/management/commands/export_comments_to_csv.py:340-343 | an instant is in a concatenated list exactly when it is in one of the parts |
| `Attachments.GetAttachmentFlags` | kikar_hamedina/reporting/management/commands/export_comments_to_csv.py:201-205 | text-only exactly when there is no attachment; each kind flag only for that attachment kind; at most one flag; exactly one for no attachment or a photo, link, video or status; none for any other kind |
| `Languages.DetectLanguage` | kikar_hamedina/reporting/management/commands/export_comments_to_csv.py:314-318 | the detector's code, or the empty code when detection fails |
| `Languages.RemoveStopPhrases` | kikar_hamedina/reporting/management/commands/export_comments_to_csv.py:308-312 | with the empty stop-phrase list the text is unchanged |
| `Strings.DeleteOccurrences` | kikar_hamedina/reporting/management/commands/export_comments_to_csv.py:311 | deleting a phrase never lengthens the text, and text free of the phrase is unchanged |
| `Strings.DeleteOccurrencesIsSplitJoin` | kikar_hamedina/reporting/management/commands/export_comments_to_csv.py:311 | deleting a non-empty phrase gives the pieces of the split at that phrase joined with nothing between them, so exactly the leftmost non-overlapping occurrences go |
| `Languages.DetectLanguages` | kikar_hamedina/reporting/management/commands/export_comments_to_csv.py:300-306 | duplicate-free; a code is listed exactly when it is the detection of some paragraph longer than the threshold |
| `Languages.DetectLanguagesOfContent` | kikar_hamedina/reporting/management/commands/export_comments_to_csv.py:300-321 | empty content gives no codes and other content exactly one code, its detection |
| `Languages.SplitTextToParagraphs` | kikar_hamedina/reporting/management/commands/export_comments_to_csv.py:320-321 | the whole text is the only paragraph |
| `Languages.GetLanguageFlags` | kikar_hamedina/reporting/management/commands/export_comments_to_csv.py:206-209 | HEBREW, ENGLISH and ARABIC are set exactly when "he", "en" or "ar" is among the codes; OTHER exactly when some code is none of these; some flag is set exactly when a code was detected |
| `Languages.PostLanguageFlags` | kikar_hamedina/reporting/management/commands/export_comments_to_csv.py:206-209 | no flag for empty content and exactly one otherwise: HEBREW, ENGLISH or ARABIC when the detected code is he, en or ar, OTHER for any other code, and OTHER after a failed detection |
| `Engagement.CommentedStatuses` | kikar_hamedina/reporting/management/commands/export_comments_to_csv.py:241-250 | a status is kept exactly when it is in the feed and the commentator commented on it, never more than the feed holds |
| `Engagement.CommentedStatusesMultiplicity` | kikar_hamedina/reporting/management/commands/export_comments_to_csv.py:241-250 | each commented status is kept as often as the feed lists it, any other status not at all, so the count is the number of commented statuses |
| `Engagement.NumberOfCommentedOnStatusesForFeed` | kikar_hamedina/reporting/management/commands/export_comments_to_csv.py:240-246 | the loop counts the commented statuses, at most the feed's status count |
| `Engagement.RatioOfCommentedStatusesForFeed` | kikar_hamedina/reporting/management/commands/export_comments_to_csv.py:236-238 | fails exactly on a feed without statuses; otherwise commented statuses over statuses, a ratio in [0, 1] |
| `Engagement.NumberOfCommentsOnStatuses` | kikar_hamedina/reporting/management/commands/export_comments_to_csv.py:252-258 | over statuses with distinct ids, the sum over the statuses of the commentator's comments under each; at most the commentator's comment count; zero exactly when none of the statuses was commented on |
| `Engagement.CountInIsSum` | kikar_hamedina/reporting/management/commands/export_comments_to_csv.py:257-258 | counting the entries that name one of distinct statuses is the sum of each status's multiplicity among them |
| `Engagement.CommentsOnOneStatus` | kikar_hamedina/reporting/management/commands/export_comments_to_csv.py:188-189 | on the parent status alone the count is how many of the commentator's comments are under it |
| `Engagement.CommentedStatusesAtMostComments` | kikar_hamedina/reporting/management/commands/export_comments_to_csv.py:241-258 | for statuses with distinct ids, the commented-status count never exceeds the comment count |
| `Engagement.GetNumberOfComments` | kikar_hamedina/reporting/management/commands/export_comments_to_csv.py:265-269 | no statuses give 0, one status gives its comment count, and the total is at least each status's count |
| `Engagement.GetNumberOfCommentsConcat` | kikar_hamedina/reporting/management/commands/export_comments_to_csv.py:265-269 | the total over two status lists is the sum of their totals |
| `Engagement.NumberOfLikesOnStatuses` | kikar_hamedina/reporting/management/commands/export_comments_to_csv.py:275-281 | over statuses with distinct ids, the sum over the statuses of the commentator's likes on each; at most the commentator's like count; zero exactly when none of the statuses was liked |
| `Engagement.LikedStatus` | kikar_hamedina/reporting/management/commands/export_comments_to_csv.py:153-154 | the author liked the status exactly when their like count on that status alone is not zero (also COMMENTATOR_LIKED_POST at 183-184) |
| `Engagement.RatioOfLikesForFeed` | kikar_hamedina/reporting/management/commands/export_comments_to_csv.py:271-278 | fails exactly on a feed without statuses; otherwise the likes on the feed over its status count |
| `Engagement.LikesRatioAtMostOne` | kikar_hamedina/reporting/management/commands/export_comments_to_csv.py:271-281 | a commentator who liked each status at most once has a like ratio of at most 1 |
| `Strings.Split` | kikar_hamedina/reporting/management/commands/export_comments_to_csv.py:41-43 | joining the pieces with the separator gives the string back; no piece contains the separator; one piece exactly when the separator is absent; the first piece ends at the first occurrence, and each separator taken is the leftmost one after the piece before it |
| `Strings.SplitHead` | kikar_hamedina/reporting/management/commands/export_comments_to_csv.py:41 | the first piece is the text before the first separator, and the remaining pieces join to the text after it |
| `FileNames.Stem` | kikar_hamedina/reporting/management/commands/export_comments_to_csv.py:41 | the stem is a prefix of the path free of ".csv", ending at the path's end or at its first ".csv" |
| `FileNames.StemOfCsvPath` | kikar_hamedina/reporting/management/commands/export_comments_to_csv.py:41 | a name with no dot followed by 'c' keeps its whole text as stem once ".csv" is appended |
| `FileNames.FirstStageName` | kikar_hamedina/reporting/management/commands/export_comments_to_csv.py:41 | the first-stage name is the stem followed by "_full_data.csv" |
| `FileNames.FirstStageNameOfDottedStem` | kikar_hamedina/reporting/management/commands/export_comments_to_csv.py:41 | a dotted stem keeps its dot in the first-stage name |
| `FileNames.SecondStageName` | kikar_hamedina/reporting/management/commands/export_comments_to_csv.py:42-43 | the second-stage name is the first-stage name's text before its first dot, then "_2nd_stage.", then the text between its first and second dots (or to its end) |
| `FileNames.JoinFirstTwoPieces` | kikar_hamedina/reporting/management/commands/export_comments_to_csv.py:43 | pieces 0 and 1 of a split at "." are the text before the first dot and the text from there to the next dot or the end |
| `FileNames.SecondStageNameOfDotFreeStem` | kikar_hamedina/reporting/management/commands/export_comments_to_csv.py:42-43 | for a dot-free stem the second-stage name is the stem followed by "_full_data_2nd_stage.csv" |
| `FileNames.SecondStageNameOfDottedStem` | kikar_hamedina/reporting/management/commands/export_comments_to_csv.py:43 | for a stem with one dot, the second-stage name is built from the pieces around that dot and does not end in ".csv" |
| `FileNames.DottedDirectoryLosesExtension` | kikar_hamedina/reporting/management/commands/export_comments_to_csv.py:43 | "./out/x.csv" gives the second-stage name "_2nd_stage./out/x_full_data", a path under a directory "_2nd_stage." that the open at line 44 normally cannot create |
| `FileNames.DottedFileNameLosesExtension` | kikar_hamedina/reporting/management/commands/export_comments_to_csv.py:43-44 | "data.v2.csv" gives the second-stage name "data_2nd_stage.v2_full_data", a file in the working directory without the ".csv" extension, where "data.v2_full_data_2nd_stage.csv" is intended |
| `FileNames.IntendedSecondStageName` | kikar_hamedina/reporting/management/commands/export_comments_to_csv.py:41-43 | the corrected second-stage name starts with the stem, ends in ".csv", and equals the program's name whenever the stem is dot-free |
| `Schema.Fields` | kikar_hamedina/reporting/management/commands/export_comments_to_csv.py:45-116 | the second-stage schema has 49 fields and the first-stage schema 15 |
| `Schema.HeaderRow` | kikar_hamedina/reporting/management/commands/export_comments_to_csv.py:118 | the header row has exactly the schema's fields, each mapped to its own name |
| `Schema.WriteRow` | kikar_hamedina/reporting/management/commands/export_comments_to_csv.py:117-133 | `None` is refused; a row is written exactly when all its keys are schema fields, else the unknown fields are reported; one cell per field, the row's value or empty |
| `Schema.HeaderRowWritesFieldNames` | kikar_hamedina/reporting/management/commands/export_comments_to_csv.py:117-119 | the header line is the field names in schema order |
| `Schema.FullRowWritesEveryField` | kikar_hamedina/reporting/management/commands/export_comments_to_csv.py:133 | a row with exactly the schema's keys is written with its value for every field |
| `Features.FirstStageFeatures` | kikar_hamedina/reporting/management/commands/export_comments_to_csv.py:138-158 | fails exactly when the feed has no MK; otherwise the row has exactly the 15 first-stage fields |
| `Features.SecondStageFeatures` | kikar_hamedina/reporting/management/commands/export_comments_to_csv.py:160-234 | no row exactly when the feed has no MK; fails exactly when there is an MK but no status; otherwise exactly the 49 second-stage fields |
| `Features.ProcessedText` | kikar_hamedina/reporting/management/commands/export_comments_to_csv.py:124-127 | MK-name replacement, then translation when the option is set, then emoji naming; without the option the translator is unused |
| `Features.TranslationFollowsNames` | kikar_hamedina/reporting/management/commands/export_comments_to_csv.py:124-127 | translating equals not translating with a name replacer that translates its own output, so translation comes after the names and before the emojis |
| `Features.FirstStageCells` | kikar_hamedina/reporting/management/commands/export_comments_to_csv.py:141-154 | in a first-stage line, mk_id is the MK's id, comment_link is "www.facebook.com/" plus the comment id, and commentator_also_liked_status tells whether the author liked the parent status |
| `Features.CommentatorCells` | kikar_hamedina/reporting/management/commands/export_comments_to_csv.py:182-189 | LEN_MESSAGE is the comment's length, COMMENTATOR_LIKED_POST whether the author liked the parent status, NUM_OF_COMMENTS_BY_COMMENTATOR_ON_POST how many of the author's comments are under the parent status |
| `Features.PoliticalCells` | kikar_hamedina/reporting/management/commands/export_comments_to_csv.py:191-199 | in a second-stage line, POLITICAL_WING is the wing of the MK's current party; IS_CURRENT_OR_PAST_PARTY_LEADER, IS_CURRENT_OR_PAST_PM_CONTENDER and IS_PM test the feed id against the leader list, the contender list and feed 30 |
| `Features.AttachmentCells` | kikar_hamedina/reporting/management/commands/export_comments_to_csv.py:201-205 | POST_WITH_PHOTO, LINK, VIDEO and STATUS are set exactly for an attachment of that type; POST_WITH_TEXT_ONLY exactly without attachment |
| `Features.LanguageCells` | kikar_hamedina/reporting/management/commands/export_comments_to_csv.py:206-209 | POST_IN_HEBREW, ENGLISH and ARABIC are set exactly when "he", "en" or "ar" was detected in the parent status; POST_IN_OTHER exactly when a detected code is none of these |
| `Features.DateCells` | kikar_hamedina/reporting/management/commands/export_comments_to_csv.py:210-219 | the five DAYS_FROM columns are the parent status's day offsets from midnight of 2015-03-17, 2014-06-12, 2015-07-08, 2015-08-26 and 2015-09-13 respectively |
| `Features.RestDayCells` | kikar_hamedina/reporting/management/commands/export_comments_to_csv.py:220-221 | POST_PUBLISHED_ON_SATURDAY tells whether the parent status, COMMENT_PUBLISHED_ON_SATURDAY whether the comment, falls in a rest-day pair |
| `Features.EngagementCells` | kikar_hamedina/reporting/management/commands/export_comments_to_csv.py:222-233 | the comment and like counts of the commentator on the feed's statuses, then commented statuses and likes, each over the feed's status count |
| `Features.OutputFileName` | kikar_hamedina/reporting/management/commands/export_comments_to_csv.py:41-43 | the output name starts with the input's stem and is the command's name for that stage whenever the stem is dot-free; the second stage uses the corrected name |
| `Features.CommentLine` | kikar_hamedina/reporting/management/commands/export_comments_to_csv.py:129-133 | a comment's line is written exactly when its row can be produced, with one cell per schema field; otherwise the run's error is the one for that stage |
| `Features.WellFormedLine` | kikar_hamedina/reporting/management/commands/export_comments_to_csv.py:236-238 | for a comment whose parent is among its feed's distinct statuses the status count is never zero: the line exists exactly when the feed has an MK, else the stage's missing-MK error |
| `Features.HeaderLine` | kikar_hamedina/reporting/management/commands/export_comments_to_csv.py:117-119 | the first line holds the field names in schema order |
| `Features.CollectLines` | kikar_hamedina/reporting/management/commands/export_comments_to_csv.py:123-135 | the header and then each item's line in order; every item before the `written` count produced a line; it succeeds exactly when all did, and otherwise stops at item `written` with that item's error |
| `Features.Export` | kikar_hamedina/reporting/management/commands/export_comments_to_csv.py:40-135 | every comment before the `written` count has a row; the run succeeds exactly when all do, giving the stage's file name, the header and one full-width line per comment in order; otherwise it stops at comment `written` with the error its row raises |

## Left out

- Database access (`Facebook_Feed.objects.get`, `filter`, `count`, `exists`) is not modelled. The comment's feed and its statuses are passed in as values, and the query results are computed from plain sequences.
- `langdetect.detect` is a parameter: a function that may fail. A failure is mapped to the empty code, as the source does.
- The `TextProcessor` utilities are parameters. These are name replacement, translation, emoji replacement, flattening, MK-mention detection and mentioned-MK lookup. Their code is not part of this model, and some of them call external services.
- Reading the rest-day pairs from `time_pairs.json` (lines 345-351) is not modelled. The list of pairs is a parameter.
- Writing the output file is not modelled: opening and closing it, CSV quoting and escaping, and how Python formats each value as text. A line is modelled as a sequence of typed cells.
- The progress `print` calls are not modelled.
- When the run stops with an error, the model returns the error and the number of comments written before it, but not those lines.
- `lru_cache` memoisation is not modelled. It does not change any result.
- Floating-point ratios are not modelled. The numerator and denominator are kept as integers.
- `timezone.make_aware` and sub-second precision are not modelled. All instants are whole seconds in UTC, and the reference dates are UTC midnights.
- `list(set(...))` returns its elements in an unspecified order. The model fixes one order; the flags depend only on membership.
- A feed with no persona record at all is not modelled. The model covers a persona whose MK object is missing.
- `content_lang` is given as a field of the comment. Its computation is not part of this model.
- `kikar_hamedina/kikar_hamedina/urls.py` is not modelled. It holds URL routing only.
- Features.FirstStageFeatures: the contract states the error case and the exact field set. Column values are stated only for the columns named in `Features.FirstStageCells`. The other columns copy record fields or the text utilities' output.
- Features.SecondStageFeatures: the contract states the error cases and the exact field set. The values of the derived columns are stated in `Features.CommentatorCells`, `Features.PoliticalCells`, `Features.AttachmentCells`, `Features.LanguageCells`, `Features.DateCells`, `Features.RestDayCells` and `Features.EngagementCells`. The other columns (identity fields, PARTY_NAME, GENDER, AGE, the two `None` columns, POST_TIME_OF_PUBLICATION and the text-utility columns) copy record fields or the text utilities' output and are not restated.
- Engagement.GetNumberOfComments: each status's comment count is a record field instead of a query; the empty and one-status cases with `Engagement.GetNumberOfCommentsConcat` determine the total. The function is reached only from `get_number_of_comments_for_feed` (lines 260-263), which the command never calls, so no exported column depends on it.

## Findings

| source | as written | input that shows it | evidently intended | confidence | as-written member | corrected member |
|---|---|---|---|---|---|---|
| kikar_hamedina/reporting/management/commands/export_comments_to_csv.py:43 | the second-stage name is rebuilt from the first two pieces of the first-stage name split at '.'; a stem that already contains a dot loses the "csv" extension and the text after its second dot | `--file_path data.v2.csv --second_stage` writes to `data_2nd_stage.v2_full_data`; for `./out/x.csv` the name is `_2nd_stage./out/x_full_data` and the open at line 44 fails because that directory normally does not exist | the stem followed by `_full_data_2nd_stage.csv`, here `data.v2_full_data_2nd_stage.csv` | not executed | `FileNames.DottedFileNameLosesExtension` | `FileNames.IntendedSecondStageName` |
