# English placement test: scoring, CEFR levels and the editors around them

This project is a Dafny model of the scoring and CEFR-classification logic of an
English level test. It also models the helpers that produce or consume that
logic's inputs. Dafny's verifier checks the model against its own
contracts; how closely the model follows the TypeScript and JavaScript
sources rests on reading them.

It covers:

- **The CEFR calculator** (`CefrCalculator`). It scores five question kinds:
  - multiple choice, all or nothing;
  - fill-in-the-blank, comparing trimmed lower-case text;
  - reading and listening comprehension, by the fraction of sub-questions right;
  - vocabulary matching, by the fraction of matches right.

  It folds the per-question scores into a total, a maximum and five skill
  buckets. It maps the rounded percentage to a level through a first-match
  table. It builds the recommendation list.
- **The stand-alone test session** (`SessionApp`, `DataUtils`). It flattens the
  question bank, moves between questions, records answers, counts the score
  and the section scores, and ticks the timer. Its utilities are the clock
  formatter, a second CEFR table (`estimateCEFR`) and the in-place shuffle.
- **The placement page** (`TestPage`). It has five fixed questions, a score in
  steps of 20%, and a third CEFR table. `LevelTables` puts the three tables
  side by side and proves where they agree and where they disagree.
- **The supporting pieces**:
  - role permissions with the `"*"` wildcard (`Permissions`);
  - the option-label parser and the question-bank schema rules (`QuestionSchema`);
  - input sanitising, the CSRF comparison and the audit log with its filter and sort (`Security`);
  - the vocabulary-match widget (`VocabularyMatch`), the countdown timer (`TestTimer`) and the navigation panel (`TestNavigation`);
  - the passage editor (`AdvancedEditor`): the line parser for generated passages, the save checks, and the upsert, delete and question add/remove rules.

JavaScript semantics live in `Js`. A number that is an integer or `NaN` is
`Num`. `Math.round(a / b * c)` is exact round-half-up (`RoundRatio`). `%` on
negative numbers truncates (`TruncRem`). `trim` uses the whitespace set of
`\s`. `String(n)`, `padStart(2, '0')` and `split` are also modelled there.

Where the source behaves in a way its comments or names do not promise, the
model keeps the code's behaviour and proves it as a lemma:

- A multiple-choice answer `0` is falsy, so a question whose correct option is
  0 never scores (`CefrCalculator.OptionZeroNeverScores`).
- A fill-blank question with no blanks, or a comprehension question with no
  sub-questions, scores `NaN`, and `NaN` spreads to the total
  (`CefrCalculator.ScoreBounds`, `CefrCalculator.TotalNaN`).
- `estimateCEFR` sits one level above its comments at the band edges: 10 of 60
  is A2 (`DataUtils.TenOfSixtyIsElementary`).
- The three CEFR tables give A2, B1 and A1 for the same 45%
  (`LevelTables.ThreeAnswersAtFortyFive`).
- A correct answer in a section that the settings do not list adds an extra
  section entry whose score and total are `NaN` (`SessionApp.StraySectionEntry`).
- Sanitising is not idempotent: "a <" becomes "a ", and that becomes "a"
  (`Security.SanitizeNotIdempotent`).
- The rounded completion percentage of the navigation panel reads 100 before
  the last answer (`TestNavigation.RoundedCompletionReachesHundredEarly`).
- The placement page's clock shows "-1:-5" for -5 seconds (`TestPage.FormatTimeNegative`).
- The question pattern `^\d+\.\s+(.+)` backtracks, so "1.  " yields the
  question " " (`AdvancedEditor.BlankQuestionText`).
- Adding a question after removing one can repeat an id
  (`AdvancedEditor.AddAfterRemoveRepeatsId`).
- The 27th option label is "[) " and parses to no letter
  (`AdvancedEditor.NextOptionLabelReads`).
- In `applyAIResponseToPassage`, the second `setEditingPassage` is built from the
  passage as it was before the call, so it decides the result whenever
  questions were parsed (`AdvancedEditor.Apply`, `AdvancedEditor.Editor.ApplyResponse`).

## Model

| member | source | states |
|---|---|---|
| Js.RoundRatio | lib/cefr-calculator.ts:55 | `Math.round(a / b * scale)` as the integer r with 2br <= 2a·scale + b < 2br + 2b; it is at most scale when a <= b, exactly scale when a == b, and 0 when a == 0 |
| Js.RoundRatioMono | lib/cefr-calculator.ts:55 | the rounded ratio never decreases as the numerator grows |
| Js.TruncRem | app/test/page.tsx:105 | JavaScript `%`: the remainder lies strictly between -b and b, equals Euclidean `%` for non-negative a, and is never positive for negative a |
| Js.TrimStartFacts | lib/security.ts:57 | the leading cut of `trim()` is whitespace only and stops at the first non-whitespace character |
| Js.TrimEndFacts | lib/security.ts:57 | the trailing cut of `trim()` is whitespace only and stops at the last non-whitespace character |
| Js.TrimEnds | lib/security.ts:57 | `trim()` leaves no whitespace at either end and is empty exactly when the input is all whitespace |
| Js.TrimIsSlice | lib/security.ts:57 | the trimmed text is a contiguous slice of the input with only whitespace cut before and after it |
| Js.ToLowerFacts | lib/cefr-calculator.ts:93 | lower-casing of the Basic Latin and Latin-1 capitals keeps the length and maps each character on its own |
| Js.ParseNatToString | src/lib/data/utils.js:5 | reading back the decimal digits of `String(n)` gives n |
| Js.ParsePadded | src/lib/data/utils.js:5 | `String(n).padStart(2, '0')` is all digits and reads back as n |
| Js.JoinSplit | src/app/advanced-editor/page.tsx:463 | joining the parts of `split(sep)` with sep gives back the original string |
| Js.SplitAtSep | src/app/advanced-editor/page.tsx:463 | splitting `a + sep + b` with no sep in a gives a followed by the parts of b |
| CefrCalculator.ScoreQuestion | lib/cefr-calculator.ts:82-124 | the method with its counter loops computes exactly the score function of the question and the answer |
| CefrCalculator.CountMatches | lib/cefr-calculator.ts:103-118 | the counter loop counts exactly the positions whose answer equals the expected index |
| CefrCalculator.AcceptsMeaning | lib/cefr-calculator.ts:94 | the `some` test holds exactly when some accepted answer, lower-cased and trimmed, equals the entry |
| CefrCalculator.CountBlank | lib/cefr-calculator.ts:94-96 | one pass takes the count of correct blanks before blank i to the count including blank i |
| CefrCalculator.AccentedEntryNormalises | lib/cefr-calculator.ts:93 | an accented capital is lower-cased too: "CAFÉ" normalises to "café" |
| CefrCalculator.CountCorrectBlanks | lib/cefr-calculator.ts:91-97 | the counter loop counts exactly the blanks whose trimmed, lower-cased entry equals some accepted answer |
| CefrCalculator.ScoreBounds | lib/cefr-calculator.ts:82-124 | a score is NaN exactly when a truthy answer meets a non-multiple-choice question with no items, and is otherwise at most the question's points |
| CefrCalculator.UnansweredScoresZero | lib/cefr-calculator.ts:83 | a missing or falsy answer scores 0 for every question kind |
| CefrCalculator.MultipleChoiceAllOrNothing | lib/cefr-calculator.ts:86-87 | multiple choice scores all of its points or 0, and full points exactly when the answer is truthy and equals the correct index |
| CefrCalculator.OptionZeroNeverScores | lib/cefr-calculator.ts:83-87 | a multiple-choice question whose correct option is 0 scores 0 whatever the answer |
| CefrCalculator.AllMatchesFullPoints | lib/cefr-calculator.ts:111-119 | a vocabulary match with every pair right earns all of its points |
| CefrCalculator.TallyStep | lib/cefr-calculator.ts:51-52 | adding a question's score and points to its own skill's bucket keeps every bucket equal to its fold |
| CefrCalculator.TallyQuestion | lib/cefr-calculator.ts:44-53 | one forEach pass extends the total, the maximum and the skill buckets by exactly that question |
| CefrCalculator.TallyScores | lib/cefr-calculator.ts:34-53 | the forEach accumulation yields the total score, the maximum and all five skill buckets, each equal to its fold over the questions |
| CefrCalculator.CalculateDetailedResults | lib/cefr-calculator.ts:30-80 | the result holds the folded total and maximum, the guarded rounded percentage, its level, one breakdown entry per skill, time 0 and the recommendation list |
| CefrCalculator.SumNaN | lib/cefr-calculator.ts:44-50 | the sum of scores is NaN exactly when some question's score is NaN |
| CefrCalculator.TotalNaN | lib/cefr-calculator.ts:44-50 | the total score is NaN exactly when some question scores NaN |
| CefrCalculator.SkillScoreWithinMax | lib/cefr-calculator.ts:51-66 | a numeric skill score is at most that skill's points, so its breakdown percentage is at most 100 |
| CefrCalculator.TotalWithinMax | lib/cefr-calculator.ts:44-51 | a numeric total never exceeds the sum of all points, unanswered questions included |
| CefrCalculator.SkillSumsAddUp | lib/cefr-calculator.ts:49-52 | the five skill sums add up to the overall sum, NaN included |
| CefrCalculator.BucketsSumToTotals | lib/cefr-calculator.ts:34-53 | the five buckets' scores add up to the total score and their maxima to the maximum |
| CefrCalculator.SkillMaxAddUp | lib/cefr-calculator.ts:47-52 | the five skill maxima add up to the maximum score |
| CefrCalculator.PercentBounds | lib/cefr-calculator.ts:55 | the guarded percentage is at most 100, NaN exactly when the maximum is positive and the score NaN, and 100 for a perfect score |
| CefrCalculator.OverallPercentBounds | lib/cefr-calculator.ts:55 | the overall percentage is at most 100 and is 0 when there are no points |
| CefrCalculator.FirstMatchAt | lib/cefr-calculator.ts:21-28 | the scan returns the level of the first range holding the percentage |
| CefrCalculator.FirstMatchNone | lib/cefr-calculator.ts:21-28 | the scan returns A1 when no range holds the percentage |
| CefrCalculator.ExactlyOneRange | lib/cefr-calculator.ts:4-11 | every whole percentage from 0 to 100 lies in exactly one range of the table |
| CefrCalculator.LevelOfPercentage | lib/cefr-calculator.ts:4-28 | 0-35 is A1, 36-50 A2, 51-65 B1, 66-80 B2, 81-90 C1 and 91-100 C2; NaN and values above 100 are A1 |
| CefrCalculator.LevelMonotone | lib/cefr-calculator.ts:4-28 | a higher percentage never gives a lower level |
| CefrCalculator.GenerateRecommendations | lib/cefr-calculator.ts:126-175 | the pushes produce the tips of the weak skills in skill order followed by the level tip |
| CefrCalculator.RecommendationsShape | lib/cefr-calculator.ts:130-174 | there are 1 to 5 tips, the level tip comes exactly once and last, and each skill other than writing has its tip exactly when it has points and scored below 70% |
| CefrCalculator.SkillTipsOfSkills | lib/cefr-calculator.ts:133-150 | the skill tips come in the order grammar, vocabulary, reading, listening |
| CefrCalculator.TipListedIffWeak | lib/cefr-calculator.ts:133-150 | a skill other than writing has its tip among the skill tips exactly when it is weak |
| CefrCalculator.SkillTipsNoLevelTip | lib/cefr-calculator.ts:133-150 | the skill-tip pushes never push a level tip |
| CefrCalculator.TipInTipFor | lib/cefr-calculator.ts:133-150 | a skill's tip appears only for that skill and only when it is weak, and never as a level tip |
| DataUtils.FormatTimeRoundTrip | src/lib/data/utils.js:1-6 | the "mm:ss" text reads back as the clamped seconds, with minutes padded to at least 2 digits and seconds 2 digits below 60 |
| DataUtils.ParseClockOf | src/lib/data/utils.js:5 | any digit field, a colon and a two-digit field read back as minutes times 60 plus seconds |
| DataUtils.FormatTimeExamples | src/lib/data/utils.js:2-5 | every negative input shows as "00:00", and 6000 seconds shows as "100:00" because minutes are not truncated |
| DataUtils.NotApplicableOnlyWithoutQuestions | src/lib/data/utils.js:9 | the estimate is "N/A" exactly when there are no questions |
| DataUtils.PercentAtMostIsRealComparison | src/lib/data/utils.js:10-16 | the integer comparison used for each band equals comparing the unrounded percentage with the bound |
| DataUtils.EstimateBands | src/lib/data/utils.js:10-17 | for a positive total the bands are the closed ranges 100·score <= 16·total, <= 33·total, <= 50·total, <= 66·total, <= 83·total, and C2 above |
| DataUtils.EstimateMonotone | src/lib/data/utils.js:10-17 | a higher score out of the same total never gives a lower estimate |
| DataUtils.SixtyQuestionBands | src/lib/data/utils.js:12-17 | out of 60 the bands are 0-9, 10-19, 20-30, 31-39, 40-49 and 50-60 correct |
| DataUtils.TenOfSixtyIsElementary | src/lib/data/utils.js:12-13 | 10 of 60 is "A2 (Elementary)", though the comment puts 0-10 in A1 |
| DataUtils.SwapPermutes | src/lib/data/utils.js:24 | a swap keeps the multiset of elements |
| DataUtils.ShuffleDownPermutes | src/lib/data/utils.js:22-25 | the descending swap loop keeps the multiset for any choice of j in [0, i] |
| DataUtils.ShuffledProperties | src/lib/data/utils.js:21-27 | the shuffle is a permutation, its last slot holds the first pick's element, and arrays of length 0 or 1 stay unchanged |
| DataUtils.SwapInPlace | src/lib/data/utils.js:24 | swapping in the array gives the swapped sequence |
| DataUtils.ShuffleArray | src/lib/data/utils.js:21-27 | the in-place loop returns the same array, now holding the shuffle of its old contents under the given picks |
| Permissions.Includes | lib/permissions.ts:50-54 | `includes` is sequence membership |
| Permissions.HasPermissionMeaning | lib/permissions.ts:48-55 | a check passes exactly when the user holds "*" or the required permission |
| Permissions.HasAnyPermission | lib/permissions.ts:57-59 | true exactly when some required permission passes |
| Permissions.HasAllPermissions | lib/permissions.ts:61-63 | true exactly when every required permission passes |
| Permissions.EmptyRequirements | lib/permissions.ts:57-63 | with nothing required, "any" is false and "all" is true |
| Permissions.AllImpliesAny | lib/permissions.ts:57-63 | for a non-empty requirement, passing "all" implies passing "any" |
| Permissions.MorePermissionsMonotone | lib/permissions.ts:48-63 | granting more permissions never turns a passing check into a failing one |
| Permissions.OrderIrrelevant | lib/permissions.ts:48-55 | the order and repetition of a user's permissions do not matter |
| Permissions.AdminHasEverything | lib/permissions.ts:36-63 | the admin role passes every "all" check and every non-empty "any" check |
| Permissions.RoleFacts | lib/permissions.ts:1-46 | teachers may read and write questions and use generation but not delete questions or take tests; students may take tests and see their own results but not read results; every role permission is a declared one |
| Permissions.StudentRefused | lib/permissions.ts:45 | a student passes exactly "tests:take" and "results:own", so fails "users:write" and "questions:read" |
| QuestionSchema.ParseOptionValueMeaning | src/lib/data/questions.ts:64-76 | the result is empty exactly when the option does not start with an ASCII letter, and is otherwise that letter in upper case |
| QuestionSchema.ParseOptionValueIdempotent | src/lib/data/questions.ts:64-76 | parsing a parsed label changes nothing |
| QuestionSchema.OptionLabelRoundTrip | src/lib/data/questions.ts:64-69 | a label built from the i-th capital and ")" parses back to that capital |
| QuestionSchema.LowerCaseLabel | src/lib/data/questions.ts:71-73 | "c) x" parses to "C" |
| QuestionSchema.NonEmptyIssues | src/lib/data/questions.ts:7 | a required string field yields no issue exactly when it is a string of length at least 1 |
| QuestionSchema.OptionalIssues | src/lib/data/questions.ts:13 | an optional string field yields no issue exactly when it is absent or a string |
| QuestionSchema.StringListIssuesEmpty | src/lib/data/questions.ts:11 | a string array yields no issue exactly when it is an array with enough elements, each acceptable |
| QuestionSchema.QuestionIssues | src/lib/data/questions.ts:6-14 | a question yields no issue exactly when its five required fields are non-empty strings, it has at least 2 non-empty options and any explanation is a string |
| QuestionSchema.FromIssues | src/lib/data/questions.ts:79-92 | the outcome is valid exactly when there is no issue, and otherwise carries the non-empty list of issues |
| QuestionSchema.ValidateQuestion | src/lib/data/questions.ts:79-92 | valid exactly when the question rules hold, and otherwise with a non-empty error list |
| QuestionSchema.ExplanationOptional | src/lib/data/questions.ts:13 | dropping a string explanation does not change validity |
| QuestionSchema.BlankIsNotEmpty | src/lib/data/questions.ts:7 | length is checked without trimming, so an id of one space is accepted |
| QuestionSchema.SubsIssues | src/lib/data/questions.ts:20-28 | a sub-question list yields no issue exactly when it is an array of at least one valid sub-question |
| QuestionSchema.PassageIssues | src/lib/data/questions.ts:16-29 | a passage yields no issue exactly when its id, title and text are non-empty and its questions are valid |
| QuestionSchema.ScriptIssues | src/lib/data/questions.ts:31-45 | a script yields no issue exactly when its id, title, script and audio source are non-empty and its questions are valid |
| QuestionSchema.SettingsIssues | src/lib/data/questions.ts:48-51 | the settings yield no issue exactly when they exist, the time is a number of at least 1 and there is at least one string section |
| QuestionSchema.ObjectListIssuesEmpty | src/lib/data/questions.ts:52-55 | an object array yields no issue exactly when it is an array whose every element passes its rules |
| QuestionSchema.ValidateTestData | src/lib/data/questions.ts:95-108 | valid exactly when the settings and all four question collections are valid, and otherwise with a non-empty error list |
| Security.RemoveAngles | lib/security.ts:57 | removing `<` and `>` leaves neither character, never lengthens the text and keeps every other character |
| Security.SanitizeInput | lib/security.ts:56-58 | the output has no `<` or `>`, is no longer than the input, and holds exactly the trimmed input's other characters |
| Security.RemoveAnglesAppend | lib/security.ts:57 | removal distributes over concatenation |
| Security.SanitizeKeepsCleanInput | lib/security.ts:56-58 | already-trimmed text without angle brackets passes through unchanged |
| Security.SanitizeNotIdempotent | lib/security.ts:57 | "a <" sanitises to "a ", which sanitises again to "a" |
| Security.ValidateCsrfToken | lib/security.ts:92-94 | the token is accepted exactly when it equals the session token character by character |
| Security.CsrfTokenIsExact | lib/security.ts:92-94 | the comparison does not ignore case or trailing spaces |
| Security.HeaderOrUnknown | lib/security.ts:123-124 | a missing or empty header becomes "unknown", and a present header is kept |
| Security.Keep | lib/security.ts:143-161 | a filter keeps exactly the entries that satisfy it, as a sub-multiset of the input |
| Security.KeepAppend | lib/security.ts:144 | `filter` over two lists joined is the two filtered lists joined |
| Security.FilteredAppend | lib/security.ts:141-161 | the chain of filters treats earlier and later entries apart: filtering a joined log joins the filtered parts |
| Security.FilteredOne | lib/security.ts:141-161 | a single entry comes through the chain of filters, once, exactly when it matches every supplied filter, and nothing comes through otherwise |
| Security.FilteredMeaning | lib/security.ts:141-161 | the filtered logs are exactly the stored logs meeting every supplied filter, with inclusive dates, and are the stored list itself when no filter applies |
| Security.InsertDescBounded | lib/security.ts:163 | inserting an entry no newer than t among entries no newer than t leaves none newer than t |
| Security.InsertDescSorted | lib/security.ts:163 | inserting into a newest-first list keeps it newest first |
| Security.SortDescSorted | lib/security.ts:163 | the sort is newest first |
| Security.SortDescPermutes | lib/security.ts:163 | the sort is a permutation of its input |
| Security.SortDescCorrect | lib/security.ts:163 | the sort is newest first and a permutation of its input |
| Security.AuditStore.constructor | lib/security.ts:108 | the log starts empty |
| Security.AuditStore.LogAuditEvent | lib/security.ts:110-132 | appends exactly one entry built from the arguments and the request's headers, keeping the earlier entries |
| Security.AuditStore.GetAuditLogs | lib/security.ts:134-164 | returns the sorted filtered logs; with no filter the stored log itself is reordered, otherwise it is unchanged |
| Security.QueryProperties | lib/security.ts:134-164 | a query returns exactly the matching stored entries, newest first, as a sub-multiset, and all of them when no filter applies |
| Security.LogThenQuery | lib/security.ts:128-164 | after logging an entry, a query returns it exactly when it matches the filters, and returns the earlier answer plus that one entry and nothing else |
| SessionApp.QuestionItems | src/lib/data/app.js:36-37 | one item per bank question, in order, with its id, text, options, answer and the section name |
| SessionApp.PassageItems | src/lib/data/app.js:40-49 | one item per passage question, with the id from `question_id_in_passage` and the passage's title and text |
| SessionApp.ScriptItems | src/lib/data/app.js:53-63 | one item per script question, with the id from `question_id_in_script` and the script's title, text and audio |
| SessionApp.FlattenShape | src/lib/data/app.js:32-65 | the flattened list has one item per question of all four groups, vocabulary first, then grammar, with reading items traced to their passage questions |
| SessionApp.FlattenPlainPrefix | src/lib/data/app.js:36-37 | the vocabulary items come first and the grammar items next, each in source order with its section label |
| SessionApp.FlattenReadingOrigin | src/lib/data/app.js:39-50 | every item labelled as reading comes from some passage's question |
| SessionApp.ReadingItemsShape | src/lib/data/app.js:39-50 | reading items number the passages' questions and each comes from one of them |
| SessionApp.ListeningItemsShape | src/lib/data/app.js:52-64 | listening items number the scripts' questions and each comes from one of them |
| SessionApp.PushQuestions | src/lib/data/app.js:36-37 | the forEach push appends exactly the section's items |
| SessionApp.PushPassages | src/lib/data/app.js:39-50 | the nested forEach push appends exactly the reading items |
| SessionApp.PushScripts | src/lib/data/app.js:52-64 | the nested forEach push appends exactly the listening items |
| SessionApp.NoAnswers | src/lib/data/app.js:66 | the fresh answer list has one null per question |
| SessionApp.CorrectCount | src/lib/data/app.js:149-156 | the count of matching answers is at most the number of questions considered |
| SessionApp.FreshAnswersScoreZero | src/lib/data/app.js:149-156 | with all answers null the score is 0 |
| SessionApp.AllCorrectScoresAll | src/lib/data/app.js:149-156 | answering every question with its answer scores n |
| SessionApp.OneAnswerMovesScoreByOne | src/lib/data/app.js:110-156 | changing one answer moves the score by at most one, and not at all when it lies beyond the counted prefix |
| SessionApp.ScoreIgnoresLater | src/lib/data/app.js:149-156 | the count over a prefix depends only on the answers in that prefix |
| SessionApp.SectionCorrect | src/lib/data/app.js:167-172 | a section's correct count never exceeds its question count |
| SessionApp.Dedup | src/lib/data/app.js:162-165 | the configured sections, each listed once in first-seen order |
| SessionApp.StrayKeys | src/lib/data/app.js:167-175 | the extra result keys are exactly the unconfigured sections with a correct answer, without repeats |
| SessionApp.TallySections | src/lib/data/app.js:158-172 | the dictionary loop leaves each section's correct count and total as the specification counts them, NaN for sections not configured |
| SessionApp.SeedSections | src/lib/data/app.js:162-165 | every configured section starts at score 0 and total 0 |
| SessionApp.CalculateSectionScores | src/lib/data/app.js:158-183 | the result has one entry per key in insertion order, each with its counts and guarded rounded percentage |
| SessionApp.BuildEntries | src/lib/data/app.js:174-181 | the final loop makes one entry per score key, in key order, from that key's score and total |
| SessionApp.TalliedEntries | src/lib/data/app.js:158-183 | entries built from the fully tallied dictionaries are exactly the specified breakdown |
| SessionApp.ConfiguredEntryBounds | src/lib/data/app.js:174-181 | a configured section's entry has numeric score at most total, and percentage round(score/total·100), or 0 for an empty section |
| SessionApp.StraySectionEntry | src/lib/data/app.js:168-170 | a correct answer in an unconfigured section produces an entry with NaN score and total and percentage 0 |
| SessionApp.CorrectCountsInSection | src/lib/data/app.js:169-171 | a correct answer makes its section's correct count positive |
| SessionApp.AllConfiguredSectionsSum | src/lib/data/app.js:158-183 | when every question's section is configured there is no extra entry and the totals add up to n |
| SessionApp.SectionHasItem | src/lib/data/app.js:167-172 | a section with a correct answer has a question |
| SessionApp.App.constructor | src/lib/data/app.js:4-12 | the initial field values |
| SessionApp.App.PrepareQuestions | src/lib/data/app.js:32-67 | the question list becomes the flattened bank and the answers all null |
| SessionApp.App.Init | src/lib/data/app.js:14-30 | stores the loaded data, prepares the questions, sets the total time to the configured minutes (or 40) times 60, and fills the remaining time |
| SessionApp.App.StartTest | src/lib/data/app.js:75-84 | the index is 0, every answer null, the score 0, the remaining time full and the timer running |
| SessionApp.App.HandleOptionSelect | src/lib/data/app.js:110-112 | only the current question's answer changes |
| SessionApp.App.NextQuestion | src/lib/data/app.js:114-121 | advances below the last question, and at the last asks for confirmation without moving |
| SessionApp.App.PrevQuestion | src/lib/data/app.js:123-128 | moves back only above the first question, keeping the index in range |
| SessionApp.App.CalculateScore | src/lib/data/app.js:149-156 | the score becomes the count of non-null answers equal to their question's answer, at most n |
| SessionApp.App.SubmitTest | src/lib/data/app.js:138-147 | stops the timer, scores, and reports the score, the count, the estimate and the section scores |
| SessionApp.App.Tick | src/lib/data/app.js:185-196 | a tick takes one second off, stops the timer and submits exactly when the time reaches 0 or less, and the submission holds the score, the question count, the estimated level and the section breakdown |
| TestPage.CorrectCount | app/test/page.tsx:84-92 | the number of answers equal to the correct option is at most the questions counted |
| TestPage.UnansweredNeverMatches | app/test/page.tsx:20-60 | every correct option is a real option index, so the unanswered -1 never matches |
| TestPage.FreshPageScoresZero | app/test/page.tsx:84-92 | a page with no answers counts nothing correct |
| TestPage.ScoreInTwenties | app/test/page.tsx:84-92 | with five questions the score is 20 times the correct count, at most 100 |
| TestPage.GetLevel | app/test/page.tsx:94-101 | at least 90 is C2, 80-89 C1, 70-79 B2, 60-69 B1, 50-59 A2 and below 50 A1 |
| TestPage.GetLevelMonotone | app/test/page.tsx:94-101 | a higher score never gives a lower level |
| TestPage.ReachableLevels | app/test/page.tsx:84-101 | the page can only report A1, B1, C1 or C2, and C2, C1 and B1 mean exactly 5, 4 and 3 correct |
| TestPage.FormatTimeNonNegative | app/test/page.tsx:103-107 | for a non-negative time the text is unpadded minutes, ":", and seconds padded to 2 |
| TestPage.FormatTimeRoundTrip | app/test/page.tsx:103-107 | the "m:ss" text of a non-negative time reads back as that time |
| TestPage.FormatTimeExamples | app/test/page.tsx:103-107 | 1800 shows as "30:00" and 65 as "1:05" |
| TestPage.FormatTimeNegative | app/test/page.tsx:103-107 | -5 shows as "-1:-5" |
| TestPage.Page.constructor | app/test/page.tsx:59-62 | starts at question 0, every answer -1, 1800 seconds, not completed |
| TestPage.Page.HandleAnswerSelect | app/test/page.tsx:64-68 | only the current slot changes, and a real answer enables Next |
| TestPage.Page.HandleNext | app/test/page.tsx:70-76 | advances before the last question and marks the test completed at the last |
| TestPage.Page.HandlePrevious | app/test/page.tsx:78-82 | moves back only above the first question |
| TestPage.Page.CalculateScore | app/test/page.tsx:84-92 | the counter loop gives the rounded percentage of correct answers, at most 100 |
| TestTimer.Decomposition | components/test/test-timer.tsx:13-16 | hours·3600 + minutes·60 + seconds gives back the time, with minutes and seconds below 60 |
| TestTimer.LongLabel | components/test/test-timer.tsx:18-19 | from one hour on the text is "h:mm:ss" with minutes and seconds padded |
| TestTimer.ShortLabel | components/test/test-timer.tsx:20-21 | below one hour the text is "m:ss" |
| TestTimer.FormatTimeRoundTrip | components/test/test-timer.tsx:13-22 | the timer text of a non-negative time reads back as that time |
| TestTimer.ParseLong | components/test/test-timer.tsx:18-19 | an "h:mm:ss" text reads back as hours times 3600 plus minutes times 60 plus seconds |
| TestTimer.ParseShort | components/test/test-timer.tsx:20-21 | an "m:ss" text reads back as minutes times 60 plus seconds |
| TestTimer.FormatTimeExamples | components/test/test-timer.tsx:13-22 | 3600 shows as "1:00:00" and 3599 as "59:59" |
| TestTimer.TimerColor | components/test/test-timer.tsx:24-28 | red at 300 seconds or less, yellow up to 600, gray above |
| TestTimer.TimerVariant | components/test/test-timer.tsx:30-34 | destructive at 300 seconds or less, secondary up to 600, outline above |
| TestTimer.ColorAndVariantAgree | components/test/test-timer.tsx:24-34 | colour and variant change at the same thresholds, and as time runs down the colour only moves toward red |
| TestNavigation.StatusFacts | components/test/test-navigation.tsx:17-24 | the current question is "current" whatever its answer; null, 0 and "" count as answered; "unanswered" means neither current nor answered |
| TestNavigation.AnsweredCount | components/test/test-navigation.tsx:48 | the answered count is at most n, and equals n exactly when every question is answered |
| TestNavigation.CompletionPercentage | components/test/test-navigation.tsx:49 | NaN exactly for no questions, otherwise at most 100, 100 when all are answered and 0 when none are |
| TestNavigation.CompleteLabelMeaning | components/test/test-navigation.tsx:126-133 | the button reads "Complete Test" exactly when every question is answered |
| TestNavigation.RoundedCompletionReachesHundredEarly | components/test/test-navigation.tsx:49 | 399 of 400 answered already shows 100% |
| TestNavigation.OfSkill | components/test/test-navigation.tsx:140 | the questions of one skill, a sub-list of all |
| TestNavigation.RowsFacts | components/test/test-navigation.tsx:139-153 | a row appears for a listed skill exactly when it has a question, with the skill's question count and answered count, answered at most total |
| TestNavigation.SkillRowsMeaning | components/test/test-navigation.tsx:139-153 | writing is never listed, and each other skill has a row exactly when it has a question |
| TestNavigation.Navigate | app/test/enhanced/page.tsx:68-75 | an in-range index is taken, any other leaves the current question |
| TestNavigation.ButtonsStayInRange | components/test/test-navigation.tsx:106-123 | an enabled Previous or Next moves by one, and no button leaves the range |
| VocabularyMatch.SetSlot | components/questions/vocabulary-match.tsx:35-36 | writing a slot sets it, keeps every other slot, and fills any gap below it with holes |
| VocabularyMatch.MatchCount | components/questions/vocabulary-match.tsx:120 | the match count is at most the number of slots |
| VocabularyMatch.NoMatchesMeansEmpty | components/questions/vocabulary-match.tsx:120 | the match count is 0 exactly when every slot is empty |
| VocabularyMatch.MatchCountUpdate | components/questions/vocabulary-match.tsx:120 | changing one slot changes the count by what that slot lost and gained |
| VocabularyMatch.MatchAddsAtMostOne | components/questions/vocabulary-match.tsx:32-39 | a match adds one to the count unless that word was already matched |
| VocabularyMatch.ClearRemovesOne | components/questions/vocabulary-match.tsx:19-26 | unmatching a matched word lowers the count by one |
| VocabularyMatch.SharedDefinitionAllowed | components/questions/vocabulary-match.tsx:32-54 | one definition can be given to two words, and both count |
| VocabularyMatch.Widget.constructor | components/questions/vocabulary-match.tsx:15-17 | the widget starts with the given answer and nothing selected |
| VocabularyMatch.Widget.HandleWordClick | components/questions/vocabulary-match.tsx:19-30 | a matched word is cleared with the selections kept; otherwise the word is selected, the definition unselected and the answer kept |
| VocabularyMatch.Widget.HandleDefinitionClick | components/questions/vocabulary-match.tsx:32-44 | with a word selected the pair is recorded and both selections cleared; otherwise only the definition is selected |
| VocabularyMatch.Widget.ClearMatches | components/questions/vocabulary-match.tsx:46-50 | one empty slot per word, count 0, nothing selected |
| VocabularyMatch.Widget.IsDefinitionUsed | components/questions/vocabulary-match.tsx:52-54 | true exactly when some slot holds the definition |
| LevelTables.ThreeAnswersAtFortyFive | lib/cefr-calculator.ts:4-11 | 45% is A2 for the calculator, B1 for the session estimate and A1 for the placement page |
| LevelTables.AgreeAtEnds | src/lib/data/utils.js:10-17 | all three tables say A1 at 0% and C2 at 100% |
| LevelTables.EstimateAtOrAboveCalculator | src/lib/data/utils.js:10-17 | on 0-100 the session estimate is never below the calculator and at most two levels above |
| LevelTables.EstimateTwoAboveAtThirtyFour | src/lib/data/utils.js:13-14 | at 34% the calculator says A1 and the estimate B1 |
| LevelTables.PlacementWithinOneOfCalculator | app/test/page.tsx:94-101 | on 0-100 the placement page and the calculator differ by at most one level either way |
| LevelTables.PlacementHigherAtNinety | app/test/page.tsx:95 | at 90% the page says C2 where the calculator says C1 |
| AdvancedEditor.Run | src/app/advanced-editor/page.tsx:479 | the longest prefix whose characters all satisfy a test |
| AdvancedEditor.TailStart | src/app/advanced-editor/page.tsx:479 | where `\s+(.+)` starts its group after backtracking: the last non-terminator at or before the end of the blanks, past the first character |
| AdvancedEditor.SpacedTail | src/app/advanced-editor/page.tsx:479 | a match of `\s+(.+)` captures a non-empty group |
| AdvancedEditor.SpacedTailOfWord | src/app/advanced-editor/page.tsx:479 | blanks followed by a word that starts with a non-space capture exactly the word |
| AdvancedEditor.NumberedLine | src/app/advanced-editor/page.tsx:478-479 | "n. word" is a question line whose question is the word |
| AdvancedEditor.IndentedOption | src/app/advanced-editor/page.tsx:488-489 | an indented "X) word" line is an option line matching letter X and the word |
| AdvancedEditor.DigitsLine | src/app/advanced-editor/page.tsx:478-479 | any digits, a full stop, a blank and a word form a question line whose question is the word |
| AdvancedEditor.BlanksOption | src/app/advanced-editor/page.tsx:488-489 | any indentation, a letter A-D, a parenthesis, a blank and a word form an option line matching that letter and word |
| AdvancedEditor.BlankQuestionText | src/app/advanced-editor/page.tsx:479 | "1.  " yields the question " " by backtracking |
| AdvancedEditor.ParseResponse | src/app/advanced-editor/page.tsx:463-500 | the line loop yields the title, text and questions of the fold of the line step over the response's lines |
| AdvancedEditor.ReadLine | src/app/advanced-editor/page.tsx:471-499 | one pass of the loop body performs exactly the line step |
| AdvancedEditor.ParsedDraftsOk | src/app/advanced-editor/page.tsx:488-498 | in every parsed question with options, the answer is the first option's letter, a letter from A to D |
| AdvancedEditor.StepKeepsDrafts | src/app/advanced-editor/page.tsx:488-498 | a line never breaks the link between a question's first option and its answer |
| AdvancedEditor.AddOptionKeepsDraft | src/app/advanced-editor/page.tsx:490-497 | pushing a lettered option onto a well-formed question keeps it well formed |
| AdvancedEditor.PreambleIgnored | src/app/advanced-editor/page.tsx:468-477 | lines before any "# " or questions header change nothing |
| AdvancedEditor.ParseExtends | src/app/advanced-editor/page.tsx:470-500 | later lines never remove earlier questions or shorten the text |
| AdvancedEditor.TitleLine | src/app/advanced-editor/page.tsx:471-473 | a "# " line sets the title to the rest of the line, enters the text section and keeps the text |
| AdvancedEditor.NumberedLineStep | src/app/advanced-editor/page.tsx:478-486 | in the questions section a numbered line appends a question with no options and no answer |
| AdvancedEditor.OptionLineStep | src/app/advanced-editor/page.tsx:488-498 | in the questions section an option line adds "X) text" to the last question, and nothing when there is none |
| AdvancedEditor.QuestionIdInjective | src/app/advanced-editor/page.tsx:515 | different positions give different question ids |
| AdvancedEditor.MaterializedIds | src/app/advanced-editor/page.tsx:513-521 | applied questions keep their order and text and get the distinct ids `id_Q1`, `id_Q2`, ... |
| AdvancedEditor.MaterializedAnswers | src/app/advanced-editor/page.tsx:513-521 | every applied question has options and an answer letter that is its first option's letter |
| AdvancedEditor.AppliedQuestions | src/app/advanced-editor/page.tsx:503-528 | when questions were parsed they replace the passage's questions, each with options and an answer matching its first option |
| AdvancedEditor.EmptyAnswerChangesNothing | src/app/advanced-editor/page.tsx:503-528 | an empty response leaves the passage as it was |
| AdvancedEditor.TitleWithoutQuestions | src/app/advanced-editor/page.tsx:503-509 | a title with no questions sets the title and the trimmed text and keeps the questions |
| AdvancedEditor.BlankMeansTrimmedEmpty | src/app/advanced-editor/page.tsx:122 | a field is blank exactly when it trims to "" |
| AdvancedEditor.FirstBadIndex | src/app/advanced-editor/page.tsx:138-148 | the position of the first question that is blank or has fewer than 2 options, every earlier one being fine |
| AdvancedEditor.SaveCheckMeaning | src/app/advanced-editor/page.tsx:122-148 | save passes exactly when the passage is saveable, and otherwise reports only the first failure in the order title, text, no questions, the first bad question |
| AdvancedEditor.NewQuestionBlocksSave | src/app/advanced-editor/page.tsx:299-317 | adding a question to a saveable passage makes save report a blank question |
| AdvancedEditor.CheckPassage | src/app/advanced-editor/page.tsx:122-148 | the early-return loop reports exactly the save check's verdict |
| AdvancedEditor.FindIndex | src/app/advanced-editor/page.tsx:151-163 | the index of the first passage with the id, or -1 exactly when there is none |
| AdvancedEditor.UpsertMeaning | src/app/advanced-editor/page.tsx:151-168 | a new id is appended at the end; an existing id is replaced at its first position with the length unchanged and nothing else touched |
| AdvancedEditor.UpsertIdempotent | src/app/advanced-editor/page.tsx:151-168 | saving the same passage twice equals saving it once |
| AdvancedEditor.UpsertKeepsUnique | src/app/advanced-editor/page.tsx:151-168 | saving keeps ids unique |
| AdvancedEditor.Delete | src/app/advanced-editor/page.tsx:257-258 | deletion keeps exactly the passages with another id |
| AdvancedEditor.DeleteKeepsUnique | src/app/advanced-editor/page.tsx:257-258 | deleting keeps ids unique |
| AdvancedEditor.DeleteUndoesUpsert | src/app/advanced-editor/page.tsx:151-168 | deleting an id after saving a passage with it equals deleting it before |
| AdvancedEditor.DeleteAbsent | src/app/advanced-editor/page.tsx:257-258 | deleting an absent id changes nothing |
| AdvancedEditor.DeleteIdempotent | src/app/advanced-editor/page.tsx:257-258 | deleting twice equals deleting once |
| AdvancedEditor.SpliceStart | src/app/advanced-editor/page.tsx:350 | `splice`'s start: an in-range index as is, a negative one counted from the end, clamped to the length |
| AdvancedEditor.RemoveAtMeaning | src/app/advanced-editor/page.tsx:349-350 | removing an in-range index drops exactly that question; -1 drops the last; an index past the end changes nothing |
| AdvancedEditor.RemoveKeepsOne | src/app/advanced-editor/page.tsx:341-356 | removing keeps at least one question if there was one, and drops at most one |
| AdvancedEditor.AddAfterRemoveRepeatsId | src/app/advanced-editor/page.tsx:341-356 | removing the first of two questions and adding one repeats the id `id_Q2` |
| AdvancedEditor.NextOptionLabelReads | src/app/advanced-editor/page.tsx:775-776 | the first 26 added labels parse back to their letter, and the 27th is "[) ", which parses to nothing |
| AdvancedEditor.Editor.constructor | src/app/advanced-editor/page.tsx:102-107 | the editor holds the loaded passages with nothing being edited |
| AdvancedEditor.Editor.EditPassage | src/app/advanced-editor/page.tsx:102-107 | the passage becomes the one being edited, with errors and message cleared |
| AdvancedEditor.Editor.SavePassage | src/app/advanced-editor/page.tsx:118-178 | a failing check records only its first error; a passing one upserts, reports added or updated, and ends editing; unique ids stay unique |
| AdvancedEditor.Editor.DeletePassage | src/app/advanced-editor/page.tsx:249-271 | unless declined, removes the id, reports it, and stops editing that passage; unique ids stay unique |
| AdvancedEditor.Editor.AddQuestion | src/app/advanced-editor/page.tsx:299-317 | appends the blank question with id `id_Q(n+1)`, four empty options and answer "A" |
| AdvancedEditor.Editor.RemoveQuestion | src/app/advanced-editor/page.tsx:341-356 | refuses with one question or fewer, otherwise splices out one index |
| AdvancedEditor.Editor.AddOption | src/app/advanced-editor/page.tsx:773-777 | appends the next letter's empty label to that question's options, nothing else changing |
| AdvancedEditor.Editor.ApplyResponse | src/app/advanced-editor/page.tsx:459-532 | an empty response changes nothing; otherwise the passage becomes the applied parse of the response |

## Left out

- Rendering, routing and browser plumbing are not modelled: React and JSX, the DOM work in `ui_manager.js`, audio, `alert` and dialog state. `window.confirm` is the `confirmed` parameter of `AdvancedEditor.Editor.DeletePassage`.
- Persistence and I/O are not modelled: `fetch` in `init`, localStorage and JSON import. `SessionApp.App.Init` takes the loaded data as a parameter, and the fetch-error branch is left out.
- Randomness and clocks are parameters. The shuffle takes its picks, and the audit log takes its id and timestamp. The distribution of `Math.random` is not modelled.
- Js.RoundRatio: `Math.round(a / b * c)` is modelled as exact rational round-half-up. Double arithmetic can differ at exact halves.
- Js.ToLower: only A-Z and the Latin-1 capitals U+00C0-U+00DE (except U+00D7) are lower-cased. Other scripts keep their case (Greek, Cyrillic, Latin Extended), 'İ' does not expand to two code units and final sigma is not context-dependent, so for example "ΑΒΓ" does not match "αβγ" in the model.
- Js.ToLowerFacts: states length and per-character mapping of the modelled lower-casing only; JavaScript's full `toLowerCase()` does not keep the length for 'İ'.
- CefrCalculator.AcceptsMeaning: the `some` test compares under the modelled lower-casing above, so candidates that differ from the entry only in the case of a letter outside Basic Latin and Latin-1 do not match in the model.
- CefrCalculator.CountCorrectBlanks: counts blanks under the modelled lower-casing above, with the same gap as AcceptsMeaning.
- CefrCalculator.ScoreQuestion: fill-blank scoring inherits the lower-casing gap above.
- CefrCalculator.BlankEntry: a string answer is indexed by Unicode scalar value, where JavaScript's `answer[index]` gives a UTF-16 code unit, so a string answer holding a character outside the Basic Multilingual Plane is split differently.
- CefrCalculator.LevelOfPercentage: percentages are whole numbers or NaN, because the only caller passes a rounded value. So the negative and fractional inputs (such as 35.5) of the level scan are not represented.
- CefrCalculator.ScoreQuestion: a number inside a fill-blank answer array throws in JavaScript (`toLowerCase` of a number). The model counts it as a wrong blank.
- CefrCalculator.CalculateDetailedResults: the question records are typed values. The unused skill weights are not modelled.
- SessionApp.App.HandleOptionSelect: requires the index to be in range. JavaScript would extend the array at an out-of-range index, but the page only calls this for a displayed question.
- SessionApp.App.SubmitTest: requires the settings to exist. JavaScript throws a TypeError on `testSettings.sections` when they are missing.
- SessionApp.App.Tick: models one timer callback. `setInterval` and the scheduling are left out. Only the tick that submits needs the settings, as `submitTest` is the only reader of them; that tick requires them for the reason given for SubmitTest.
- SessionApp.TallySections: JavaScript orders integer-like object keys before the others. The model keeps insertion order, which is the same for section names.
- Security.AuditStore.LogAuditEvent: the `details` record is a map from strings to strings, and the caller always passes it; the `details = {}` default is not modelled. The `console.log` of the new entry is output and is left out.
- QuestionSchema.SettingsIssues: a number field holds an integer, so a fractional `totalTimeMinutes` such as 1.5, which zod's `number().min(1)` accepts, is not representable.
- QuestionSchema.ValidateQuestion: zod's message texts and the order of issues are not modelled; each issue is its path and kind. Non-string values are one kind of value.
- AdvancedEditor.Editor.AddOption: requires the label's code point to be below U+D800. `String.fromCharCode` wraps around at 65536 and can produce lone surrogates, which a Dafny `char` cannot hold.
- AdvancedEditor.NextOptionLabel: has the same bound as `AdvancedEditor.Editor.AddOption`.
- QuestionSchema.OptionLabel: defined for the 26 capitals only.
- AdvancedEditor.Editor.AddOption: the question object is shared by the shallow copy of the list. The source therefore also changes the stored passage, before any save. The model works on values, so that aliasing is not captured.
- AdvancedEditor.Editor.SavePassage: the editor is built from loaded data, so the `!testData` guard is not modelled.
- The listening-script variants of the editor (save, delete, add, remove, apply) are not modelled. They repeat the passage functions with the `script_title`/`script` fields.
- Duplicated copies of modelled logic are not modelled separately: the results page's `estimateCEFR`, the admin page's upsert and delete, the scoring fold in `src/app/test/page.tsx`, and the "Xh Ym Zs" formatters.
