# A browser lesson viewer: a verified model of its page logic

The repository is a React client for recorded audio lessons. It lists the
recordings, plays a lesson with its subtitles and blackboard photos, and edits
the lesson's metadata and a vocabulary list through a remote HTTP API. This
project models, in Dafny, the deterministic logic inside those pages. It
proves that logic against the behaviour the code implements:

- **Catalog** (`catalog.dfy`, module `Catalog`) covers the course catalog page:
  - decoding the upload date from a `YYMMDD…` recording key;
  - splitting recordings into processed and unprocessed by exact `video_id` equality;
  - the two exclusive filter modes: a case-insensitive substring search, or a month and year match;
  - the sorted, de-duplicated year list for the year selector;
  - the page state that the selectors and the search box change.
- **Timeline** (`timeline.dfy`) holds the subtitle list's shared rules:
  - the inclusive interval match;
  - the first-match search (`find` / `findIndex`);
  - removal by id.
- **CurrentSubtitleHook** (`current_subtitle.dfy`) models the per-tick update of the text shown under the player.
- **SubtitleSidebarView** (`subtitle_sidebar.dfy`) models the sidebar's state:
  - the send guard;
  - the provisional entry with window `[t-5, t]` and its upload form;
  - the highlight tick;
  - what the delete handler hands to its callback.
- **PlayerPage** (`player.dfy`) models the player page's state:
  - the photo index with wrap-around;
  - the photo address;
  - the append and filter-by-id updates of the subtitle and vocabulary lists.
- **CourseInfo** (`course_info.dfy`) models the course-info form as a state machine:
  - `sanitizeFormData`;
  - single-field edits;
  - the outcomes of the lesson fetch;
  - the choice between PUT and POST;
  - the numeric coercion of the save body;
  - the JSON-or-plain-text message after a save or a delete;
  - the reset after a delete.
- **Keyboard** (`keyboard.dfy`) models the key handler: Tab toggles play and pause, and Alt+← rewinds ten seconds, clamped at 0.
- **Vocabulary** (`vocabulary.dfy`) models the vocabulary form: it builds an entry, then resets its fields.
- **SubtitleSession** (`session.dfy`) combines the sidebar and the player. It shows where the sidebar's delete actually sends its result (see Findings).
- **Support modules**:
  - `options.dfy`, `sequences.dfy`: `Option`, and a stable `Filter` with the subsequence relation and element counts.
  - `js_strings.dfy`: JavaScript `trim`, `toLowerCase`, `includes` and `split('.')[0]`.
  - `js_values.dfy`: JavaScript values, truthiness, `||`, and `Number(...)` on decimal strings with an optional exponent.

The model's inputs stand in for things outside the code:

- Network results are inputs of type `CatalogFetch` and `HttpOutcome`.
- `JSON.parse` is a `Parsed` input: not JSON, or an object's properties.
- The playback clock is an `Option<real>`; None means the audio element is not mounted.
- `Date.now()` and the current year are integer parameters.
- The answer to `window.confirm` is a boolean.

Timers and event listeners are left out. One timer tick, or one key event, is one method call.

Two facts about the code that the model keeps:

- **Deleting by id.** `filter(sub => sub.id !== id)` (src/pages/Player.js:58) removes every entry that carries the id, not only the first, and so does `RemoveById`.
- **The provisional subtitle's id.** The entry built at src/components/SubtitleSidebar.js:15-19 has no `id`, and neither does `ProvisionalSubtitle`.

## Model

| member | source | states |
|---|---|---|
| JsStrings.TrimEmptyIffBlank | src/pages/CourseSelection.js:81 | `query.trim() === ''` holds exactly when every character is JavaScript whitespace |
| JsStrings.ToLowerKeepsBlankness | src/pages/CourseSelection.js:81-87 | lower-casing a query does not change whether it selects search mode |
| JsStrings.IncludesIffOccurs | src/pages/CourseSelection.js:85-87 | `includes` holds exactly when the needle starts at some offset of the haystack |
| JsStrings.BeforeFirst | src/pages/CourseSelection.js:51 | `split('.')[0]` is a prefix without a '.', followed in the key by '.' unless it is the whole key |
| JsValues.Or | src/components/CourseInfoSidebar.js:6-14 | `a \|\| b` is `a` when `a` is truthy and `b` otherwise |
| JsValues.StringToNumber | src/components/CourseInfoSidebar.js:99-100 | `Number` of a string is a number or NaN, and a blank string is 0 |
| JsValues.ParseUnsignedLiteral | src/components/CourseInfoSidebar.js:99-100 | an unsigned literal with an exponent part is non-negative, and without one it is read as a plain decimal |
| JsValues.SignedLiteralIsRead | src/components/CourseInfoSidebar.js:99-100 | a literal without surrounding whitespace whose unsigned part parses to x is the number x, negated after a '-' |
| JsValues.ExponentExamples | src/components/CourseInfoSidebar.js:99-100 | "1e2" is sent as 100 |
| JsValues.NegativeExponentExample | src/components/CourseInfoSidebar.js:99-100 | "25E-1" is sent as 2.5 |
| JsValues.ToNumber | src/components/CourseInfoSidebar.js:99-100 | `Number(v)` is a number or NaN; a number stays itself; null gives 0 and undefined does not |
| JsValues.NumberOfDigitString | src/components/CourseInfoSidebar.js:99-100 | the digit string of n converts back to the number n |
| JsValues.DigitStringIsRead | src/components/CourseInfoSidebar.js:99-100 | a non-empty string of digits converts to the number its digits name |
| JsValues.ToNumberIdempotent | src/components/CourseInfoSidebar.js:99-100 | coercing twice equals coercing once |
| Sequences.Filter | src/pages/Player.js:58 | `filter` keeps, in order, exactly the elements the predicate accepts |
| Sequences.FilterMultiplicity | src/pages/Player.js:58 | each accepted element occurs in the result as often as in the input, and a rejected one not at all |
| Sequences.FilterConcat | src/pages/Player.js:58 | filtering a concatenation filters each part |
| Sequences.FilterShrinksIffDrops | src/pages/Player.js:58 | a filter is shorter than its input exactly when some element is rejected |
| Catalog.DatePart | src/pages/CourseSelection.js:51-54 | the characters `slice(0, 6)` reads: a prefix of the text before the first '.', of six characters or all of it |
| Catalog.CourseDate | src/pages/CourseSelection.js:50-56 | a decoded date is a real calendar day in 2000..2099, read from a date part of five or six digits; a shorter date part decodes to nothing |
| Catalog.DateKeyOfDigits | src/pages/CourseSelection.js:52-55 | six digits naming a valid date are that date's YYMMDD key |
| Catalog.TwoDigitsSplit | src/pages/CourseSelection.js:52-55 | a two-digit field read as a number is written back as the same two digits |
| Catalog.CourseDateReadsKeyDigits | src/pages/CourseSelection.js:50-56 | a decoded date is the one the key's own digits name: its YYMMDD key is the date part, with a one-digit day padded by '0' |
| Catalog.CourseDateOfDateKey | src/pages/CourseSelection.js:50-56 | any valid 20YY date written as YYMMDD, followed by any suffix, decodes to that date |
| Catalog.CourseDateOfShortDay | src/pages/CourseSelection.js:50-56 | a date with a day from 1 to 9 written as YYMMD, followed by nothing or a '.' suffix, decodes to that date |
| Catalog.CourseDateExamples | src/pages/CourseSelection.js:50-56 | "240426.wav" is 26 April 2024 (month 3, counted from 0) and "991231" is 31 December 2099 |
| Catalog.ShortDayExample | src/pages/CourseSelection.js:50-56 | "24042.wav" is 2 April 2024 |
| Catalog.IsProcessed | src/pages/CourseSelection.js:59-61 | a key is processed exactly when it is among the lessons' `video_id`s |
| Catalog.ProcessedCourses | src/pages/CourseSelection.js:64-69 | one row per lesson, in lesson order, carrying its key, title, teacher and decoded date |
| Catalog.UnprocessedRecordings | src/pages/CourseSelection.js:72-73 | a subsequence of the recordings, holding exactly those that no lesson claims, each as often as in the recording list |
| Catalog.UnprocessedCourses | src/pages/CourseSelection.js:72-77 | one key-only row per unclaimed recording, in recording order |
| Catalog.ProcessedRows | src/pages/CourseSelection.js:64-69 | the processed list holds exactly the rows of the lessons |
| Catalog.UnprocessedRows | src/pages/CourseSelection.js:72-77 | the unprocessed list holds exactly the rows of the recordings no lesson claims |
| Catalog.UnprocessedIffUnclaimed | src/pages/CourseSelection.js:59-61 | a recording is listed as unprocessed exactly when no lesson's `video_id` equals its key |
| Catalog.FilterCourses | src/pages/CourseSelection.js:80-102 | the result is a subsequence of the input, holding exactly the entries that the mode chosen by the query accepts, each as often as in the input |
| Catalog.SearchIgnoresSelectedDate | src/pages/CourseSelection.js:81-89 | in search mode the selected month and year do not affect the result |
| Catalog.DateModeDropsUndecodable | src/pages/CourseSelection.js:92-100 | in date mode no entry with an undecodable date survives |
| Catalog.SearchIgnoresQueryCase | src/pages/CourseSelection.js:83-88 | lower-casing the query changes neither the mode nor the result |
| Catalog.DecodedYearsIff | src/pages/CourseSelection.js:156-163 | a year is collected exactly when some key decodes to a date in it |
| Catalog.HasMinimum | src/pages/CourseSelection.js:169 | every non-empty year set has a least element |
| Catalog.SortedYears | src/pages/CourseSelection.js:169 | the sort of a year set is strictly ascending and holds exactly its elements |
| Catalog.AddDecodedYears | src/pages/CourseSelection.js:156-163 | one of the two loops adds exactly the years decoded from its keys |
| Catalog.DecodedYearsStep | src/pages/CourseSelection.js:156-163 | one more key adds the year it decodes to, and nothing when it decodes to none |
| Catalog.GetYears | src/pages/CourseSelection.js:154-171 | strictly ascending with no duplicates; a year is listed exactly when it is within five of the current year or decodes from a lesson or recording key |
| Catalog.AddYearWindow | src/pages/CourseSelection.js:164-168 | the years given plus exactly the current year and the five years on either side of it |
| Catalog.CourseSelection.constructor | src/pages/CourseSelection.js:7-12 | today's date, empty lists, empty query, loading, no error |
| Catalog.CourseSelection.DataFetched | src/pages/CourseSelection.js:14-47 | both lists are taken, or the error is set and the lists are kept; loading ends either way |
| Catalog.CourseSelection.SearchInput | src/pages/CourseSelection.js:223 | the query becomes the typed text; nothing else changes |
| Catalog.CourseSelection.ClearSearch | src/pages/CourseSelection.js:228 | the query becomes ''; nothing else changes |
| Catalog.CourseSelection.MonthChange | src/pages/CourseSelection.js:132-140 | the year is kept, the chosen month is taken, the day becomes 1; a non-blank query is cleared and a blank one is kept |
| Catalog.CourseSelection.YearChange | src/pages/CourseSelection.js:143-151 | the chosen year (a year 0..99 is read as 19YY) and the same month are taken, the day becomes 1; a non-blank query is cleared |
| Catalog.CourseSelection.FilteredUnprocessedCourses | src/pages/CourseSelection.js:105 | a subsequence of the unprocessed rows, holding exactly the rows of unclaimed recordings that the active mode selects, each selected row as often as among the unprocessed rows |
| Catalog.CourseSelection.FilteredProcessedCourses | src/pages/CourseSelection.js:106 | a subsequence of the processed rows, holding exactly the lessons' rows that the active mode selects, each selected row as often as among the processed rows |
| Catalog.CourseSelection.Years | src/pages/CourseSelection.js:154-171 | the year list of the page's current lists, with the same guarantees as `GetYears` |
| Timeline.Covers | src/hooks/useCurrentSubtitle.js:12 | a nested array never covers a time, and a covering entry's window is not empty |
| Timeline.FindIndex | src/hooks/useCurrentSubtitle.js:11-13 | the first index whose interval contains t, both ends inclusive; -1 exactly when no interval contains t |
| Timeline.CurrentText | src/hooks/useCurrentSubtitle.js:11-14 | the text of the first covering entry in list order, or "" when none covers t |
| Timeline.FindIndexAfterAppend | src/hooks/useCurrentSubtitle.js:11-13 | appending never changes an earlier winner; the new entry wins only when nothing earlier covers t |
| Timeline.CoversExamples | src/hooks/useCurrentSubtitle.js:12 | both interval ends count, and points just outside do not |
| Timeline.RemoveById | src/pages/Player.js:56-60 | every element carrying the id goes, and the rest stay in order, each as often as before |
| Timeline.RemoveAbsentId | src/pages/Player.js:56-60 | deleting an id that no element carries leaves the list unchanged |
| Timeline.RemoveByIdIdempotent | src/pages/Player.js:56-60 | deleting an id twice equals deleting it once |
| Timeline.RemoveByIdShrinksIffPresent | src/pages/Player.js:56-60 | the list gets shorter exactly when some element carried the id |
| CurrentSubtitleHook.CurrentSubtitleTracker.constructor | src/hooks/useCurrentSubtitle.js:5 | the displayed text starts as "" |
| CurrentSubtitleHook.CurrentSubtitleTracker.Tick | src/hooks/useCurrentSubtitle.js:8-16 | with a clock, the text becomes that of the first covering entry, or "" when none covers; without a clock it is unchanged |
| CurrentSubtitleHook.EarlierOverlapWins | src/hooks/useCurrentSubtitle.js:11-13 | of two overlapping entries the earlier in the list is shown |
| CurrentSubtitleHook.NothingCoversBlank | src/hooks/useCurrentSubtitle.js:14 | when nothing covers t, the empty list included, the text is "" |
| SubtitleSidebarView.ProvisionalSubtitle | src/components/SubtitleSidebar.js:14-19 | the new entry has no id and the untrimmed text, and covers exactly the times in [t-5, t] |
| SubtitleSidebarView.ProvisionalAtThreeSeconds | src/components/SubtitleSidebar.js:16 | the window is not clamped: at t = 3 it starts at -2 |
| SubtitleSidebarView.ProvisionalShownUnlessCovered | src/components/SubtitleSidebar.js:15-21 | once appended, the new text is shown at t unless an existing entry already covers t |
| SubtitleSidebarView.DeletePayload | src/components/SubtitleSidebar.js:57-66 | on a confirmed delete the callback gets the filtered list as one value; otherwise it is not called |
| SubtitleSidebarView.SubtitleSidebar.constructor | src/components/SubtitleSidebar.js:4-6 | empty input, not uploading, no highlight yet |
| SubtitleSidebarView.SubtitleSidebar.InputChange | src/components/SubtitleSidebar.js:8-10 | the input becomes the typed text; nothing else changes |
| SubtitleSidebarView.SubtitleSidebar.Send | src/components/SubtitleSidebar.js:12-31 | sends exactly when a clock exists and the trimmed input is non-empty. The entry and the upload form share the times; the form carries language "es". Afterwards the input is '' and uploading is on. A rejected send changes nothing |
| SubtitleSidebarView.SubtitleSidebar.UploadSettled | src/components/SubtitleSidebar.js:45-47 | uploading ends whatever the response |
| SubtitleSidebarView.SubtitleSidebar.HighlightTick | src/components/SubtitleSidebar.js:75-84 | with a clock the highlight is the first covering index, or -1; without one it is unchanged |
| PlayerPage.JsRemainder | src/pages/Player.js:43 | JavaScript `%` agrees with the mathematical remainder on non-negative dividends and stays strictly between -n and n |
| PlayerPage.NextPhotoIndex | src/pages/Player.js:42-44 | the next index stays in [0, n) and wraps from n-1 to 0 |
| PlayerPage.PrevPhotoIndex | src/pages/Player.js:46-50 | the previous index stays in [0, n) and wraps from 0 to n-1 |
| PlayerPage.PrevUndoesNext | src/pages/Player.js:42-50 | prev after next returns to the same index |
| PlayerPage.NextUndoesPrev | src/pages/Player.js:42-50 | next after prev returns to the same index |
| PlayerPage.NextTimesBeforeWrap | src/pages/Player.js:42-44 | short of the last photo, k presses of next move exactly k photos on |
| PlayerPage.NextTimesAdd | src/pages/Player.js:42-44 | a presses then b presses equal a+b presses |
| PlayerPage.NextCyclesThroughAll | src/pages/Player.js:42-44 | n presses come back to the start, and every photo can be reached |
| PlayerPage.NextTimesFullCircle | src/pages/Player.js:42-44 | n presses from any photo come back to that photo |
| PlayerPage.NextTimesToStart | src/pages/Player.js:42-44 | from photo i, n - i presses reach the first photo |
| PlayerPage.PhotoUrl | src/pages/Player.js:75-77 | null exactly when there are no photos; otherwise the API origin followed by the current photo's path |
| PlayerPage.PhotoUrlDistinguishes | src/pages/Player.js:75-77 | photos with different paths get different addresses |
| PlayerPage.RemoveWord | src/pages/Player.js:66-68 | every word carrying the id goes, and the rest stay in order, each as often as before |
| PlayerPage.RemoveWordIdempotent | src/pages/Player.js:66-68 | deleting a word id twice equals deleting it once |
| PlayerPage.RemoveAbsentWord | src/pages/Player.js:66-68 | deleting an absent word id leaves the list unchanged |
| PlayerPage.DeleteWordUndoesAdd | src/pages/Player.js:62-68 | deleting a freshly added word with a new id restores the list |
| PlayerPage.DeleteSubtitleUndoesSend | src/pages/Player.js:52-60 | deleting the id of a freshly appended subtitle with a new id restores the list |
| PlayerPage.Player.constructor | src/pages/Player.js:29-32 | index 0 and empty lists |
| PlayerPage.Player.PhotosLoaded | src/pages/Player.js:23 | the photo list arrives, the index stays 0 and remains valid |
| PlayerPage.Player.SubtitlesLoaded | src/pages/Player.js:22 | the subtitle list is replaced; nothing else changes |
| PlayerPage.Player.NextPhoto | src/pages/Player.js:42-44 | the index becomes the next one and stays valid; the lists are unchanged |
| PlayerPage.Player.PrevPhoto | src/pages/Player.js:46-50 | the index becomes the previous one and stays valid; the lists are unchanged |
| PlayerPage.Player.CurrentPhotoUrl | src/pages/Player.js:75-77 | null exactly when there are no photos |
| PlayerPage.Player.SendSubtitle | src/pages/Player.js:52-54 | the argument becomes one new last element; the rest is unchanged |
| PlayerPage.Player.DeleteSubtitle | src/pages/Player.js:56-60 | the list loses every element with the id; the rest is unchanged |
| PlayerPage.Player.AddWord | src/pages/Player.js:62-64 | exactly one word is appended at the end |
| PlayerPage.Player.DeleteWord | src/pages/Player.js:66-68 | the word list loses every entry with the id; the rest is unchanged |
| Vocabulary.Label | src/components/VocabularySidebar.js:62-64 | a familiarity is always one of '未掌握', '部分掌握', '已掌握' |
| Vocabulary.FromLabel | src/components/VocabularySidebar.js:57-61 | a selected option reads back as the familiarity with that label |
| Vocabulary.LabelRoundTrip | src/components/VocabularySidebar.js:57-65 | reading a familiarity's label back gives that familiarity |
| Vocabulary.VocabularySidebar.constructor | src/components/VocabularySidebar.js:4-6 | both inputs empty, '未掌握' selected |
| Vocabulary.VocabularySidebar.SetWord | src/components/VocabularySidebar.js:46 | the word becomes the typed text; the other fields are kept |
| Vocabulary.VocabularySidebar.SetTranslation | src/components/VocabularySidebar.js:53 | the translation becomes the typed text; the other fields are kept |
| Vocabulary.VocabularySidebar.SetFamiliarity | src/components/VocabularySidebar.js:59 | the familiarity becomes the chosen option; the other fields are kept |
| Vocabulary.VocabularySidebar.AddWord | src/components/VocabularySidebar.js:8-19 | the entry carries the current three values and the clock as id, with no validation; afterwards the form is back in its initial state |
| Keyboard.Rewind | src/hooks/useKeyboardControls.js:21-24 | the new position is never negative: t-10 when t >= 10, and 0 otherwise |
| Keyboard.RewindNeverAdvances | src/hooks/useKeyboardControls.js:21-24 | rewinding never moves a non-negative position forward |
| Keyboard.HandleKeyDown | src/hooks/useKeyboardControls.js:6-27 | Tab flips paused, and throws when there is no audio element. Alt+ArrowLeft rewinds when there is one. Any other key changes nothing |
| Keyboard.TabTwice | src/hooks/useKeyboardControls.js:8-15 | two Tabs restore the original state |
| CourseInfo.With | src/components/CourseInfoSidebar.js:83-89 | the named field takes the value and every other field keeps its own |
| CourseInfo.WithOwnValue | src/components/CourseInfoSidebar.js:83-89 | writing a field's own value changes nothing |
| CourseInfo.BlankForm | src/components/CourseInfoSidebar.js:19-30 | the course id, empty texts and both numbers 0 |
| CourseInfo.Sanitize | src/components/CourseInfoSidebar.js:5-16 | exactly the ten fields. A text field keeps a truthy value and is '' otherwise. A number field is 0 only for null or undefined |
| CourseInfo.SanitizeKeepsZero | src/components/CourseInfoSidebar.js:12-15 | a stored 0 is kept |
| CourseInfo.SanitizeFixesSanitized | src/components/CourseInfoSidebar.js:5-16 | a form meeting the sanitized guarantees comes back unchanged from `sanitizeFormData` |
| CourseInfo.SanitizeIdempotent | src/components/CourseInfoSidebar.js:5-16 | sanitizing twice equals sanitizing once |
| CourseInfo.RequestBody | src/components/CourseInfoSidebar.js:97-101 | both number fields are numbers or NaN, numbers already there are kept, and every text field is sent as it is |
| CourseInfo.TypedNumberIsSent | src/components/CourseInfoSidebar.js:99-100 | digits typed into a number field reach the server as that number |
| CourseInfo.FloatingPointNumberEnds | src/components/CourseInfoSidebar.js:324-332 | a value the number input holds starts with '-', '.' or a digit and ends with a digit |
| CourseInfo.MantissaParses | src/components/CourseInfoSidebar.js:324-332 | the mantissa forms the number input allows are decimal literals |
| CourseInfo.FloatingPointNumberBodyParses | src/components/CourseInfoSidebar.js:324-332 | without its sign, a value the number input holds is an unsigned literal |
| CourseInfo.FloatingPointNumberIsRead | src/components/CourseInfoSidebar.js:99-100 | every value the number input can hold is a number, not NaN, to `Number(...)` |
| CourseInfo.TypedLevelAllowsSubmitIffInRange | src/components/CourseInfoSidebar.js:324-332 | typed digits let the form submit exactly when they name at most 100 |
| CourseInfo.FractionalLevelHeldBack | src/components/CourseInfoSidebar.js:324-332 | "1.5" holds the submit back, as the default step of 1 requires a whole number |
| CourseInfo.FractionIsFloatingPointNumber | src/components/CourseInfoSidebar.js:324-332 | "1.5" is a valid floating-point number, so the input keeps it, and it reads as 1.5 |
| CourseInfo.ExponentLevelAllowed | src/components/CourseInfoSidebar.js:324-332 | "1e2" and an empty input let the form submit |
| CourseInfo.MessageOf | src/components/CourseInfoSidebar.js:68 | a usable message is the object's `message` string |
| CourseInfo.SuccessMessage | src/components/CourseInfoSidebar.js:119-131 | the JSON message when there is one, else the raw text of a non-JSON body, else the fallback; never empty |
| CourseInfo.FailureReason | src/components/CourseInfoSidebar.js:136-144 | the JSON message, else the raw text, else '未知错误'; never empty |
| CourseInfo.ShownAsSuccess | src/components/CourseInfoSidebar.js:368 | green exactly when the first four characters are '保存成功' or '删除成功' |
| CourseInfo.ExpectedJson | src/components/CourseInfoSidebar.js:60 | the fixed opening followed by the received body, which can be read back from the message |
| CourseInfo.MessageColours | src/components/CourseInfoSidebar.js:367-368 | failure messages are never shown in green, and the fallbacks always are. A server's own success text such as "Lesson updated" is not green |
| CourseInfo.SaveRequestFor | src/components/CourseInfoSidebar.js:97-106 | PUT to the update endpoint exactly for an existing lesson, otherwise POST to the create endpoint, with the coerced body |
| CourseInfo.CourseInfoSidebar.constructor | src/components/CourseInfoSidebar.js:19-35 | blank form for the course, not saving, no message, loading, no error, lesson assumed existing |
| CourseInfo.CourseInfoSidebar.FetchCompleted | src/components/CourseInfoSidebar.js:38-76 | "Lesson not found" marks the lesson new and keeps the form. Non-JSON, an error status or a failed request set the error and keep the form. An ok JSON body installs its sanitized copy. Loading always ends |
| CourseInfo.CourseInfoSidebar.ResponseArrived | src/components/CourseInfoSidebar.js:47-69 | a received response: "Lesson not found" after trimming marks the lesson new and changes nothing else; any other text goes on as `BodyArrived` states; loading is left as it is |
| CourseInfo.CourseInfoSidebar.BodyArrived | src/components/CourseInfoSidebar.js:53-69 | a body that is not JSON sets the error that quotes it and keeps the form; a parsed body goes on as `JsonBodyArrived` states |
| CourseInfo.CourseInfoSidebar.JsonBodyArrived | src/components/CourseInfoSidebar.js:63-69 | an ok status installs the sanitized copy and marks the lesson existing; otherwise the body's message, or '未知错误', becomes the error and the form is kept |
| CourseInfo.CourseInfoSidebar.Change | src/components/CourseInfoSidebar.js:83-89 | only the named field changes, to the typed string |
| CourseInfo.CourseInfoSidebar.BeginSave | src/components/CourseInfoSidebar.js:91-106 | submits exactly when not already saving, the title is non-empty and the comprehension level is a whole number from 0 to 100 or shows as empty; the message is cleared, saving starts, and the request is chosen by `isExistingLesson` |
| CourseInfo.CourseInfoSidebar.FinishSave | src/components/CourseInfoSidebar.js:116-151 | sets the success or failure message and asks for a refetch exactly on success; saving ends on failure and lasts on success, since the refetch is awaited before the `finally`; the form is untouched |
| CourseInfo.CourseInfoSidebar.RefetchAfterSaveCompleted | src/components/CourseInfoSidebar.js:132-151 | the awaited refetch settles with the effects of `FetchCompleted`, the save message is kept, and then saving ends |
| CourseInfo.SaveLockHeldUntilRefetch | src/components/CourseInfoSidebar.js:91-151 | after a successful save, a submit before the refetch settles is refused, and saving has ended once it settles |
| CourseInfo.CourseInfoSidebar.BeginDelete | src/components/CourseInfoSidebar.js:154-161 | refuses with '没有可删除的课程信息' unless the lesson exists with a truthy id; otherwise it asks for a request exactly when the user confirmed |
| CourseInfo.CourseInfoSidebar.FinishDelete | src/components/CourseInfoSidebar.js:163-214 | on success sets the message, resets the form to the blank form with the course id and marks the lesson new; on failure only the message changes |
| CourseInfo.DeleteThenDeleteAgain | src/components/CourseInfoSidebar.js:155-158 | after a successful delete a second delete is refused |
| SubtitleSession.ListAfterDeleteAsWired | src/components/SubtitleSidebar.js:57-61 | as wired, a confirmed delete appends the filtered copy as one element and keeps the whole list before it |
| SubtitleSession.AsWiredDeleteRemovesNothing | src/components/SubtitleSidebar.js:59-60 | as wired, every element survives a confirmed delete, and the text shown at every moment is unchanged |
| SubtitleSession.AsWiredDeleteKeepsDeletedSubtitle | src/components/SubtitleSidebar.js:59-60 | deleting subtitle 7 with the server's confirmation leaves it on screen and adds an empty nested array |
| SubtitleSession.ListAfterDelete | src/pages/Player.js:56-60 | routed through the delete callback and confirmed, the list is `RemoveById` of the old one: a subsequence without the id, every other element kept as often as before, shrinking exactly when the id was present; unconfirmed, it is unchanged |
| SubtitleSession.DeletedSubtitleNotShown | src/pages/Player.js:56-60 | after the corrected delete, the text on screen never comes from the deleted id |
| SubtitleSession.DeleteThroughPlayer | src/pages/Player.js:56-60 | the player's delete handler produces the corrected list |
| SubtitleSession.DeleteThroughAppend | src/components/SubtitleSidebar.js:59-60 | the player's append handler, given the sidebar's payload, produces the as-wired list |

## Left out

- HTTP requests, URL construction, `Promise.all`, `FormData` and response parsing are not modelled. Their results are inputs: `CatalogFetch`, `HttpOutcome` and `Parsed`.
- `src/hooks/useAudioUrl.js`, `src/hooks/useSubtitles.js` and `src/hooks/usePhotos.js` are not part of this model. They only fetch; their results reach the model through `Player.SubtitlesLoaded` and `Player.PhotosLoaded`.
- Timers, event listener registration, `preventDefault`, `window.location` and rendering are not modelled. One tick or one event is one method call.
- `window.confirm` is not modelled; its answer is the `confirmed` parameter.
- Floating point is not modelled: times are `real`, with no IEEE rounding.
- Concurrency is not modelled: out-of-order or stale responses after a course change, and a save or delete settling while another request is in flight.
- The intermediate renderings of the saving and uploading labels are not modelled.
- handleSubtitleClick (seek and play) is not modelled. The sidebar does not destructure that prop (src/components/SubtitleSidebar.js:3), so it is never called.
- The page's `activeSidebar` is not modelled. It chooses which of the three sidebars is shown (src/pages/Player.js:144-167); each sidebar is modelled on its own.
- The page's `courseInfo` state and `handleSaveCourseInfo` are not modelled. The course-info sidebar receives them but destructures only `courseId` (src/components/CourseInfoSidebar.js:18), so they never take effect.
- The sidebar's Enter key handler only calls `handleSend`, which `SubtitleSidebar.Send` models.
- PlayerPage.Player.PhotosLoaded: covers the first load only. After navigating to another course, the old index can point past the new photo list; that case is not modelled.
- Catalog.CourseDate: three kinds of keys decode to None.
  - Digits that do not name a real day, such as month 13 or day 0.
  - A date part shorter than five characters. JavaScript reads the missing day as 0, and a missing month as -1.
  - A non-digit among the characters read. `Number(...)` would still accept some of these, such as a space or a sign.

  JavaScript's `Date` instead rolls the first two kinds over to a neighbouring date, and gives Invalid Date for most of the third. There, JavaScript shows the key under the month it rolls into, and `getYears` adds that year, or NaN for an invalid date. The model drops the key in date mode and adds no year.
- Catalog.Lesson: only the three columns the catalog reads are kept, and a null title or teacher name is represented as "".
- JsStrings.LowerChar: handles ASCII and Latin-1 capitals only. Other scripts' case mappings are not modelled.
- JsValues.StringToNumber: hexadecimal, octal, binary and `Infinity` literals give NaN, where `Number(...)` reads them as numbers. The number input never holds them: the browser replaces any value that is not a valid floating-point number with "". Such a literal can only arrive as a string stored on the server.
- CourseInfo.CourseInfoSidebar.BeginSave: does not see text typed into the number input that is not yet a number, such as "1e". The browser reports such text as "" and holds the submit back, but the form state then holds only "", so the model submits.
- CourseInfo.MessageOf: a truthy `message` that is not a string (a number or an object) counts as absent.
- CourseInfo.Parsed: a JSON body of `null` is left out. Reading a property of it throws a TypeError, and the record never decodes. A JSON primitive counts as an object without properties.
- CourseInfo.LessonForm: JSON objects and arrays as field values are not modelled.
- CourseInfo.RequestBody: keeps NaN, where JSON.stringify would send null.

## Findings

| source | as written | input that shows it | evidently intended | confidence | as-written member | corrected member |
|---|---|---|---|---|---|---|
| src/components/SubtitleSidebar.js:59-60 | After the server confirms a delete, the sidebar hands the filtered list to `onSendSubtitle`. The player's `handleSendSubtitle` appends its argument as one element, so nothing is removed and a nested array is added. | Subtitles `[{id: 7, start 10, end 15, "hola"}]`; delete id 7; the response is ok. The list becomes `[that entry, []]`, and "hola" still shows at 12 s. | Route the id through the player's `handleDeleteSubtitle` (passed as `onDeleteSubtitle`, never used), which removes every entry with that id. | not executed | SubtitleSession.AsWiredDeleteKeepsDeletedSubtitle | SubtitleSession.ListAfterDelete |
