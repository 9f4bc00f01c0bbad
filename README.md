# mulakat_havuz: the response-normalisation core, in Dafny

mulakat_havuz generates interview question pools for public-sector IT
positions. It asks a language model for questions and turns the model's
free-form replies into question records. It splits question counts between
categories and difficulty levels, summarises batch runs, and prepares
questions and file names for the Word export.

This project models the deterministic core of that system and proves
properties of it:

- **Batch response parser** (`QuestionGenerator`, `Fences`, `JsonRepair`).
  - It has four strategies in a fixed order:
    1. direct array decode;
    2. fenced-block search;
    3. first-`[`/last-`]` span with textual repair;
    4. the array hidden in a `question` field.
  - After them come the nested retry and the single-record fallback.
  - The record filter and the multi-category parser complete it.
  - `json.loads` is a parameter `decode: string -> Option<Json>`. Properties
    that need it assume only what RFC 8259 says of any conforming decoder.
    Section 7 says a valid text has well-formed strings, so an accepted text
    is lexically valid. A few lemmas also assume that a text starting with
    `{` decodes to an object when it decodes at all.
  - The regular expressions are written out as index searches.
- **Single-object extractor** (`JsonParser`). `extract_question_data` is
  modelled as a pipeline of string rewrites:
  - fence stripping;
  - trimming to the outer braces;
  - the keyword-fragment merges;
  - the `""` replacement;
  - decode, then the nested decode.
- **Generators** (`QuestionGenerator`, `SingleGenerator`). The language
  model's reply is a parameter.
  - The batch generator, the single-request generator, the chunked
    generator, the category-based generator and the per-role generator
    are modelled.
  - Each appears twice: once as written, where it fails (see Findings), and
    once corrected. The corrected version is proved against its
    specification.
- **Count planners**:
  - the rubric-based difficulty split (`DifficultyManager`, `RubricSystem`);
  - the 1:2:2 category split (`BatchGenerate`);
  - the balanced split and the preview (`SingleGenerator`);
  - the chunk split (`QuestionGenerator`);
  - the batch and multi-role summaries (`BatchGenerator`).
- **Text helpers**:
  - the safe file name (`FileHelpers`);
  - the question/code splitter, the code detector, the code-display
    normaliser and the export file name (`WordExporter`).
- **Configuration tables and validators** (`RolesConfig`,
  `QuestionCategories`, `RubricSystem`).

Python behaviour the model relies on is written out in `Text`:
- `str.isspace` and `\s`, and `strip`;
- `find`/`rfind` with the -1 result;
- clamped slices and non-overlapping `replace`;
- `splitlines`, `count` and `str(int)`.

Dicts are maps, or, where insertion order matters, sequences of key-value
pairs (`Tables`). Python's `round` is half-to-even on exact rationals.

## Model

| member | source | states |
|---|---|---|
| RubricSystem.DistributionByMultiplier | config/rubric_system.py:9-51 | every multiplier gets a table with exactly the keys K1..K5, in that order |
| RubricSystem.DistributionIsPercentages | config/rubric_system.py:19-50 | every tier's five shares are between 0 and 100 and add up to 100 |
| RubricSystem.NoStrategicBelowFourX | config/rubric_system.py:19-50 | the K5 share is 0 exactly for multipliers up to 3 |
| RubricSystem.OutOfRangeMultipliersClamp | config/rubric_system.py:19-43 | multipliers of 2 or less (0 and negatives included) get the 2x table; 5 and above get the 5x table |
| RubricSystem.SeniorityShiftsShares | config/rubric_system.py:19-50 | a higher multiplier never raises the K1 share nor lowers the K5 share |
| RubricSystem.RubricLevelOf | config/rubric_system.py:53-80 | `RUBRIC_LEVELS[key]` succeeds exactly for the five level keys |
| RubricSystem.DifficultyLabelOf | config/rubric_system.py:82-86 | a label exists exactly for coefficients 2 to 5 |
| RubricSystem.LabelsNameTheirCoefficient | config/rubric_system.py:82-86 | each tabulated label reads `"{n}x"` |
| RolesConfig.GetRoleConfig | config/roles_config.py:157-174 | the entry is returned iff the code is in the table (otherwise `KeyError`), and it is that code's entry |
| RolesConfig.GetAvailableRoles | config/roles_config.py:176-183 | one (code, name) pair per role, in table order |
| RolesConfig.AvailableRolesResolve | config/roles_config.py:176-183 | every listed code resolves to the entry with the listed name |
| RolesConfig.ValidateRoleConfig | config/roles_config.py:185-199 | true only for known roles |
| RolesConfig.ValidateRoleConfigIff | config/roles_config.py:185-199 | true iff the role's entry lists the multiplier; an unknown role gives false, not an error |
| RolesConfig.RoleCodesDistinct | config/roles_config.py:9-155 | no role code occurs twice in the table |
| RolesConfig.OnlyTwoOrThreeX | config/roles_config.py:9-155 | every role accepts only the multiplier 2 or 3 |
| RolesConfig.EveryRoleUsesAllCategories | config/roles_config.py:9-155 | every role lists all three question categories |
| QuestionCategories.ActiveItems | config/question_categories.py:37-41 | only active entries are kept, every active entry is kept, and nothing is invented |
| QuestionCategories.SortByOrder | config/question_categories.py:44 | the result is sorted by `order_index` and is a permutation of the input |
| QuestionCategories.SortKeepsSorted | config/question_categories.py:44 | sorting a list already in order by `order_index` leaves it unchanged |
| QuestionCategories.AllActiveKept | config/question_categories.py:37-41 | a table of only active entries is kept whole, in order |
| QuestionCategories.ActiveCategoriesAreSortedActiveEntries | config/question_categories.py:30-44 | the result is the (code, name, description) triples of the active entries sorted by order index, and holds nothing else |
| QuestionCategories.TableOrderIndexes | config/question_categories.py:9-28 | the three categories are active, with order indexes 1, 2, 3 |
| QuestionCategories.ActiveCategoriesInTableOrder | config/question_categories.py:30-44 | all three categories are returned, in table order |
| QuestionCategories.GetCategoryConfig | config/question_categories.py:46-63 | the entry is returned iff the code is known (otherwise `KeyError`), and it is that code's entry |
| QuestionCategories.ValidateCategoryForRole | config/question_categories.py:65-81 | true only for a known role |
| QuestionCategories.ValidCategoriesAreTheTable | config/question_categories.py:76-81 | for a known role, true iff the category is one of the table's |
| QuestionCategories.UnpackTriple | config/question_categories.py:38 | `a, b, c = t` succeeds iff the tuple has three items |
| QuestionCategories.UnpackPair | core/question_generator.py:544 | `a, b = t` succeeds iff the tuple has two items |
| QuestionCategories.CategoryTuplesAreTriples | config/question_categories.py:37-44 | every active-category tuple is a triple: a pair unpacking fails and a triple unpacking yields code, name, description |
| DifficultyManager.RoundHalfEven | core/difficulty_manager.py:79-81 | Python `round`: within half of the exact quotient, ties to the even integer |
| DifficultyManager.Rounded | core/difficulty_manager.py:76-81 | each level keeps its key and gets its rounded share of the total |
| DifficultyManager.RoundedKeys | core/difficulty_manager.py:75-81 | rounding keeps the level keys |
| DifficultyManager.FirstMaxIndex | core/difficulty_manager.py:84-86 | `max(..., key=get)`: a maximal entry, and the first one |
| DifficultyManager.CalculateQuestionDistribution | core/difficulty_manager.py:61-93 | the loop computes the specified distribution; its keys are K1..K5 and its counts sum to the total |
| DifficultyManager.DistributionSumsToTotal | core/difficulty_manager.py:75-92 | the counts carry exactly the five level keys and add up to `total_questions` |
| DifficultyManager.DifferenceGoesToFirstMax | core/difficulty_manager.py:84-90 | every bucket is its rounded share, except the first maximal one, which also takes the whole rounding difference |
| DifficultyManager.RoundingErrorBound | core/difficulty_manager.py:79-81 | the rounded shares differ from the exact ones by at most half a question each |
| DifficultyManager.RoundingDifferenceSmall | core/difficulty_manager.py:79-90 | for the rubric tiers the correction is at most two questions either way |
| DifficultyManager.PrimaryFocus | core/difficulty_manager.py:47-59 | a name is returned iff the first maximal key is a rubric level |
| DifficultyManager.PrimaryFocusByTier | core/difficulty_manager.py:47-59 | the primary focus is basic knowledge at 2x, troubleshooting at 3x, design at 4x and strategy from 5x |
| DifficultyManager.LevelNames | config/rubric_system.py:53-80 | each level key finds its own `RUBRIC_LEVELS` entry |
| DifficultyManager.LevelKeysDistinct | config/rubric_system.py:53-80 | the rubric level keys are distinct |
| DifficultyManager.LabelOrDefault | core/difficulty_manager.py:33-36 | an untabulated coefficient gets the `Expert` default; every label reads `"{n}x"` |
| DifficultyManager.GetDifficultyInfo | core/difficulty_manager.py:19-45 | the distribution is the tier's, `total_percentage` is 100, the label reads `"{n}x"`, and a primary focus is always found |
| DifficultyManager.ValidateDifficultyRequirements | core/difficulty_manager.py:95-134 | valid iff the role accepts the coefficient, with that coefficient's info; otherwise the fixed error message |
| DifficultyManager.GetAllDifficultyLevels | core/difficulty_manager.py:152-164 | the info of coefficients 2, 3, 4, 5, in that order, each with a tabulated label |
| BatchGenerate.ThreeWaySplit | batch_generate.py:140-183 | the result has exactly the three category keys, in order |
| BatchGenerate.CalculateQuestionDistribution | batch_generate.py:140-183 | the counter updates compute the specified split |
| BatchGenerate.SplitSumsToTotal | batch_generate.py:156-183 | the three counts add up to `total_count` |
| BatchGenerate.SplitKeepsRatio | batch_generate.py:156-177 | the split is 1:2:2 up to the leftovers: professional is `total//5` plus one when the remainder is at least 3; theoretical is practical or practical plus one; theoretical is within two of twice professional |
| BatchGenerate.SplitExamples | batch_generate.py:150-153 | 15, 20 and 100 split as (3, 6, 6), (4, 8, 8) and (20, 40, 40) |
| BatchGenerate.PlanEntriesAppend | batch_generate.py:120-130 | the entry count, which sets the request count, is additive: two plans joined have the sum of their entries |
| BatchGenerate.DisplayPlan | batch_generate.py:110-138 | false on an empty plan; otherwise the sum of the question counts and three API calls per (role, level) entry |
| BatchGenerate.PlanTotalsAppend | batch_generate.py:120-130 | question and entry totals of two plans listed one after the other add up |
| BatchGenerator.SuccessCount | generators/batch_generator.py:276-279 | the number of successful results never exceeds the number of results |
| BatchGenerator.GenerateBatchSummary | generators/batch_generator.py:271-286 | `total_difficulty_levels` is the number of results; success count and question total count successful results only |
| BatchGenerator.PerCode | generators/batch_generator.py:293-305 | for each code, successful plus failed equals the number of results with that code (a missing code counts as `unknown`) |
| BatchGenerator.StatsListRolesOnce | generators/batch_generator.py:288-311 | the statistics list each role code of the results exactly once, and no other code |
| BatchGenerator.StatsHoldPerCodeCounters | generators/batch_generator.py:293-305 | each entry holds exactly its code's counters |
| BatchGenerator.MultiRoleTotalsAgree | generators/batch_generator.py:300-303 | the per-role question counts add up to the questions of the successful results |
| BatchGenerator.RecordAddsQuestions | generators/batch_generator.py:294-303 | counting one result adds its questions to the per-role total exactly when it succeeded |
| BatchGenerator.UniqueRolesAreDistinctCodes | generators/batch_generator.py:310 | `unique_roles_processed` is the number of distinct role codes |
| BatchGenerator.GenerateMultiRoleSummary | generators/batch_generator.py:288-311 | the loop builds the specified statistics, their question total and their role count |
| BatchGenerator.RequestOf | generators/batch_generator.py:243-255 | a roles entry yields a request iff it is a dict with a `role_code` |
| BatchGenerator.ReadConfig | generators/batch_generator.py:219-269 | a failed load or an empty config fails; a `roles` or `default_question_counts` that `in` does not find (keys of a dict, elements of a list, substrings of a string) is reported missing, in that order; a list or string that passes both tests, or a value `in` rejects, is malformed; a ready result has one request per roles entry and `max_workers` defaulting to 3; and a dict with both fields whose roles entries all carry `role_code` is always ready |
| BatchGenerator.PyIn | generators/batch_generator.py:236-239 | `field in config` tests a dict's keys and raises on anything but a dict, list or string |
| BatchGenerator.DefaultFourIsNeverValid | generators/batch_generator.py:263-269 | the default coefficient 4 is accepted by no role |
| SingleGenerator.GenerateQuestionsGate | generators/single_generator.py:49-60 | rejected, with the fixed message, iff the role does not accept the coefficient; otherwise the role is known |
| SingleGenerator.BalancedCounts | generators/single_generator.py:213-222 | one count per active category |
| SingleGenerator.BalancedSplit | generators/single_generator.py:213-222 | the loop computes the balanced counts, and they sum to the total |
| SingleGenerator.BalancedCountsSum | generators/single_generator.py:214-222 | the balanced counts add up to `total_question_count` |
| SingleGenerator.BalancedCountsAreEven | generators/single_generator.py:219-222 | counts differ by at most one; the extra question goes to exactly the first `total % n` categories |
| SingleGenerator.BalancedTenOverThree | generators/single_generator.py:213-222 | 10 questions over three categories split 4, 3, 3 |
| SingleGenerator.BalancedAsWrittenAlwaysFails | generators/single_generator.py:219 | as written, the balanced generation always fails at the pair unpacking |
| SingleGenerator.GenerateBalanced | generators/single_generator.py:183-240 | fails with the no-active-category error iff there is none; otherwise one count per category, summing to the total, and gated on the role check |
| SingleGenerator.PreviewListsKnownPositive | generators/single_generator.py:276-291 | only positive counts of known categories are listed |
| SingleGenerator.PreviewGenerationPlan | generators/single_generator.py:242-311 | invalid iff the role does not accept the coefficient; otherwise the specified category lines |
| SingleGenerator.PreviewTotalCountsKnownPositive | generators/single_generator.py:279-291 | the preview total is the sum of the positive counts of known categories |
| FileHelpers.TransliterationTable | utils/file_helpers.py:146-153 | each of the twelve Turkish letters becomes its ASCII letter |
| FileHelpers.TransliterationKeepsOthers | utils/file_helpers.py:146-153 | every other character is unchanged |
| FileHelpers.TransliterationOneToOne | utils/file_helpers.py:146-153 | the twelve letters map to twelve distinct ASCII letters |
| FileHelpers.FilterUnsafe | utils/file_helpers.py:156-157 | same length; each character is kept when in `[A-Za-z0-9_-]` and becomes `_` otherwise |
| FileHelpers.Squeeze | utils/file_helpers.py:160-161 | the collapsed name has no `__`, keeps its first character and is no longer than the input |
| FileHelpers.SqueezeReplace | utils/file_helpers.py:160-161 | one `replace('__', '_')` pass leaves the collapsed form unchanged, so the loop computes it |
| FileHelpers.ReplaceShrinks | utils/file_helpers.py:160-161 | a pass over a name holding `__` shortens it, so the loop ends |
| FileHelpers.ReplaceNoLonger | utils/file_helpers.py:160-161 | a pass never lengthens the name |
| FileHelpers.NoDoubleIffNoPair | utils/file_helpers.py:160 | the loop condition `'__' in name` fails exactly on collapsed names |
| FileHelpers.StripKeepsNoDouble | utils/file_helpers.py:163 | `strip('_')` keeps a name free of `__` |
| FileHelpers.GetSafeFilename | utils/file_helpers.py:135-164 | the loops compute the four-step composition |
| FileHelpers.SafeFilenameShape | utils/file_helpers.py:135-164 | only `[A-Za-z0-9_-]`, no `__`, no leading or trailing `_`, and never longer than the input |
| FileHelpers.SafeFilenameIdempotent | utils/file_helpers.py:135-164 | sanitising a sanitised name changes nothing |
| WordExporter.SymbolsSubsumeDeclarations | exporters/word_exporter.py:277-292 | each `var`/`let`/`const` and `print(` indicator implies the symbol indicator |
| WordExporter.NonBlank | exporters/word_exporter.py:297 | exactly the non-blank lines are kept |
| WordExporter.HitsPositive | exporters/word_exporter.py:303-306 | the count is positive iff some line has an indicator |
| WordExporter.CountHits | exporters/word_exporter.py:303-306 | the loop counts exactly the lines that have an indicator |
| WordExporter.LooksLikeCodeBlock | exporters/word_exporter.py:269-307 | the counting loop decides exactly whether some non-blank line has an indicator; empty text is not code |
| WordExporter.HitsMeanCode | exporters/word_exporter.py:303-307 | `hits >= 1` iff some non-blank line matches an indicator |
| WordExporter.BlankTextIsNotCode | exporters/word_exporter.py:297-299 | text made only of blank lines is not code |
| WordExporter.SplitQuestionAndCode | exporters/word_exporter.py:242-267 | empty input gives the missing-text message; a single line gives the stripped text; a code part is split off only from multi-line text, after its stripped first line; for multi-line text the code part is split off exactly when the stripped rest looks like code |
| WordExporter.Balance | exporters/word_exporter.py:348-352 | exactly (opens - closes) closers are appended when positive, and the text is unchanged otherwise |
| WordExporter.BalanceKeepsOthers | exporters/word_exporter.py:348-352 | balancing adds no character other than the closer |
| WordExporter.CloseConsoleCall | exporters/word_exporter.py:332-339 | the fix only appends, and adds no quote |
| WordExporter.FixConsole | exporters/word_exporter.py:330-339 | an open `Console.Write` call is closed by appending only, without adding a quote |
| WordExporter.FixQuotes | exporters/word_exporter.py:341-342 | an odd quote count is made even by appending one quote |
| WordExporter.FixLine | exporters/word_exporter.py:330-343 | each fixed line extends the original and has an even number of quotes |
| WordExporter.CloseConsoleLine | exporters/word_exporter.py:332-339 | the in-place rebinding of `ln` computes the console fix |
| WordExporter.FixDisplayLine | exporters/word_exporter.py:330-343 | the loop body computes the line fix |
| WordExporter.NormalizeCodeBlock | exporters/word_exporter.py:309-357 | empty text is returned as is; otherwise escapes are resolved first, each line is right-stripped and fixed, and the joined block is balanced |
| WordExporter.BalancedBrackets | exporters/word_exporter.py:354-356 | after balancing, none of `()`, `{}`, `[]` has more openers than closers |
| WordExporter.BalancedKeepsQuotes | exporters/word_exporter.py:354-356 | balancing adds no quote |
| WordExporter.EvenQuotesJoin | exporters/word_exporter.py:345 | joining even-quoted lines gives an even quote count |
| WordExporter.NormalizedQuotesEven | exporters/word_exporter.py:326-356 | the normalised block has an even number of `"` |
| WordExporter.GenerateFilename | exporters/word_exporter.py:370-392 | the path ends in `{safe_role}_{coef}x.docx` |
| WordExporter.ExportFileNameHasNoSeparator | exporters/word_exporter.py:387-390 | the file name is one path component |
| Fences.MatchAt | core/question_generator.py:271-275 | a match starts with the lead, its group opens with the bracket after optional whitespace, and it ends at the earliest position where the pattern can close |
| Fences.SearchFrom | core/question_generator.py:278 | `re.search` finds the leftmost match |
| Fences.Search | core/question_generator.py:278-280 | the captured group opens with the pattern's opening bracket and ends with its closing one |
| Fences.SearchNoneIff | core/question_generator.py:278-280 | the search finds nothing exactly when the pattern matches at no position |
| Fences.LabelGroupEndsAtFirstClose | core/question_generator.py:274 | `json\s*(\[.*?\])` captures only up to the first `]` |
| Fences.FencedGroupEndsBeforeFence | core/question_generator.py:272-273 | a fenced group ends at the first `]` followed by optional whitespace and a closing fence |
| JsonRepair.DanglingPassOnlyDropsCommas | core/question_generator.py:347 | the first pass only removes commas |
| JsonRepair.CollapsePassOnlyDropsCommas | core/question_generator.py:350 | the second pass only removes commas and leaves no two adjacent |
| JsonRepair.NewlinePassIsIdentity | core/question_generator.py:353 | the newline pass, whose template `\\n` is a newline, changes nothing |
| JsonRepair.UnescapedNewlineSurvives | core/question_generator.py:353 | a raw newline is still there after the repair |
| JsonRepair.QuotePassEscapesWordQuotes | core/question_generator.py:356 | after the quote pass, every `"` followed by a word character is preceded by `\` |
| JsonRepair.QuotePassOnlyAddsBackslashes | core/question_generator.py:356 | the quote pass only inserts backslashes |
| JsonRepair.FixCommonJsonErrorsProperties | core/question_generator.py:344-358 | the repair escapes every word-initial quote; apart from inserted backslashes it only removes commas |
| JsonRepair.DanglingCommaCanSurvive | core/question_generator.py:347-350 | in `,,]` the first pass removes only one comma, so `,]` remains |
| JsonRepair.FixBreaksWordQuote | core/question_generator.py:344-358 | text whose first string starts with a word character, as every key does, is never valid JSON after the repair |
| JsonRepair.RepairCommasOnlyDropsCommas | core/question_generator.py:347-350 | the two comma passes only remove commas and leave no two adjacent |
| JsonRepair.DanglingPassKeepsClean | core/question_generator.py:347 | text without a dangling comma passes the first pass unchanged |
| JsonRepair.CollapsePassKeepsClean | core/question_generator.py:350 | text without doubled commas passes the second pass unchanged |
| JsonRepair.RepairCommasKeepsCleanText | core/question_generator.py:347-350 | text with no dangling and no doubled comma is unchanged by the comma passes |
| JsonRepair.DanglingPassDropsOneTrailingComma | core/question_generator.py:347 | a single comma before a closing bracket is removed, and nothing else changes |
| JsonRepair.RepairCommasDropsTrailingComma | core/question_generator.py:347-350 | the comma passes remove one comma before a closing bracket, and nothing else changes |
| JsonRepair.EscapingPassLeavesNoRawNewline | core/question_generator.py:352-353 | corrected, the newline pass inserts a backslash and `n`: every newline left is preceded by a backslash |
| JsonRepair.NewlinePassKeepsOneLine | core/question_generator.py:352-353 | text without a newline passes the newline pass unchanged, whatever the replacement |
| JsonRepair.FixedRepairProperties | core/question_generator.py:344-358 | the corrected repair (comma passes, escaping newline pass, no quote pass) leaves no raw newline and keeps a one-line text with no dangling or doubled comma, such as a well-formed keyed object, unchanged |
| JsonParser.FenceImpliesTicks | core/json_parser.py:28 | the second test of the first fence branch is implied by the first |
| JsonParser.UnfenceObjectBraced | core/json_parser.py:30-32 | the unfenced text is either the input or a `{...}` block |
| JsonParser.JsonFenceTakesRegexBranch | core/json_parser.py:28-32 | any text containing ```` ```json ```` takes the regex branch: it becomes the captured block or stays unchanged, and the other branches are skipped |
| JsonParser.LeadingJsonFenceTakesRegexBranch | core/json_parser.py:28-34 | a text starting with ```` ```json ```` also takes the regex branch, so the second branch is never reached |
| JsonParser.UnfencedTextUnchanged | core/json_parser.py:28-40 | text with no fence and no `json (` prefix passes the fence step unchanged |
| JsonParser.TrimToBracesIsOuterSpan | core/json_parser.py:43-51 | trimming leaves exactly the span from the first `{` to the last `}` |
| JsonParser.TrimToBracesKeepsBraced | core/json_parser.py:43-51 | a braced text is not trimmed |
| JsonParser.SubAllWithoutBackslash | core/json_parser.py:56-81 | the fragment rewrites leave text without a backslash unchanged |
| JsonParser.AnswerFragmentMatches | core/json_parser.py:57-59 | pattern 1 matches the answer-plus-fragment shape and rewrites it as `\1\2"\3` |
| JsonParser.Pattern1AsWrittenBreaksJson | core/json_parser.py:57-59 | as written, the rewrite leaves the text inside an unterminated string |
| JsonParser.Pattern1MergesIntoAnswer | core/json_parser.py:57-59 | corrected, the fragment is merged into the answer string and the JSON stays lexically balanced |
| JsonParser.CommaFragmentMerges | core/json_parser.py:63-65 | pattern 2 turns a stray `", "KW..."` fragment into a continuation of the preceding string |
| JsonParser.EmptyAnswerLosesQuote | core/json_parser.py:69 | the `""` replacement turns an empty answer `""` into a lone `"` |
| JsonParser.UnterminatedAnswerRejected | core/json_parser.py:69 | no conforming decoder accepts that result |
| JsonParser.ResolveNested | core/json_parser.py:89-125 | a non-string question is left alone; a non-empty outer answer is always kept |
| JsonParser.Extract | core/json_parser.py:16-158 | with pattern 1 corrected: non-braced text gives itself with an empty answer; a decode failure gives the original stripped text with `parse_error`; a non-object decode is the only failure |
| JsonParser.ExtractPlainSuccess | core/json_parser.py:84-131 | a decoded object whose `question` is a string that is not a braced object gives that string unfenced and stripped, its `expected_answer` (or `""`) and no parse error |
| JsonParser.ExtractKeepsNonStringQuestion | core/json_parser.py:84-131 | a `question` that is not a string is returned as decoded, with the object's answer |
| JsonParser.MalformedObjectFallsBack | core/json_parser.py:143-152 | a braced but lexically invalid text gives the original stripped text with an empty answer and a parse error |
| JsonParser.ExtractAlwaysSucceeds | core/json_parser.py:16-152 | when `{`-texts decode to objects, every reply yields a record |
| JsonParser.MissingKeysKeepCleanedText | core/json_parser.py:84-87 | a missing `question` defaults to the cleaned text and a missing `expected_answer` to `""` |
| JsonParser.BracedUnfencedIsKept | core/json_parser.py:92-101 | a braced question without a fence is its own nested candidate |
| JsonParser.NestedCleanWithoutBackslash | core/json_parser.py:104-107 | the nested rewrites leave text without a backslash unchanged |
| JsonParser.NestedQuestionOverrides | core/json_parser.py:101-112 | the nested question overrides the outer one; the nested answer is used only when the outer one is empty |
| JsonParser.NestedFailureKeepsQuestion | core/json_parser.py:114-125 | a failed nested decode keeps the stripped, unfenced question and the outer answer |
| QuestionGenerator.Formatted | core/question_generator.py:336-341 | both fields go through `str()`, and a missing answer becomes `""` |
| QuestionGenerator.FormatQuestions | core/question_generator.py:332-342 | the output is no longer than the input |
| QuestionGenerator.FormatQuestionsArray | core/question_generator.py:332-342 | the append loop computes the specified filter |
| QuestionGenerator.FormatQuestionsSelects | core/question_generator.py:332-342 | exactly the dict elements with a `question` key are kept, formatted, in source order |
| QuestionGenerator.DirectArray | core/question_generator.py:255-265 | records only when the stripped text is bracketed and decodes to a list, and then its formatted elements |
| QuestionGenerator.FencedFromSkipsUnmatched | core/question_generator.py:277-283 | patterns that do not match are skipped |
| QuestionGenerator.FirstMatchingPatternDecides | core/question_generator.py:267-286 | the first matching pattern decides: a decode failure gives `[]` without trying the others; only a non-list decode moves on |
| QuestionGenerator.BracketSpan | core/question_generator.py:288-304 | records only when a `[` comes before the last `]` |
| QuestionGenerator.BracketSpanRejectsKeyedObjects | core/question_generator.py:292-301 | a span whose first string is a key never decodes after the repair: strategy 3 yields nothing |
| QuestionGenerator.NestedRobust | core/question_generator.py:306-330 | records only when the extracted question is a string holding both brackets |
| QuestionGenerator.QuestionSpanRejectsKeyedObjects | core/question_generator.py:317-327 | the same repair makes strategy 4 yield nothing for keyed objects |
| QuestionGenerator.FirstNonEmpty | core/question_generator.py:222-253 | the cascade result is `[]` iff every strategy gave `[]`, and otherwise the first non-empty result, with every earlier one empty |
| QuestionGenerator.RobustIsFirstNonEmpty | core/question_generator.py:222-253 | the robust parser is that cascade over direct, fenced, bracket-span and nested, in that order |
| QuestionGenerator.RobustEmpty | core/question_generator.py:246-253 | an empty result means every strategy was empty |
| QuestionGenerator.TryParseNestedJson | core/question_generator.py:360-417 | records only when the extracted question is a string holding both brackets |
| QuestionGenerator.NestedRetryIsStrategyFour | core/question_generator.py:360-417 | without a fence in the question, the nested retry gives exactly strategy 4's result |
| QuestionGenerator.FallbackParse | core/question_generator.py:419-431 | at most one record, present iff the extraction succeeds, and it is the extraction's record |
| QuestionGenerator.BatchChainOrder | core/question_generator.py:864-874 | a non-empty robust result is final; otherwise, unless the nested retry applies, the fallback decides |
| QuestionGenerator.BatchChainNeverEmpty | core/question_generator.py:864-874 | when `{`-texts decode to objects, the chain always yields a record |
| QuestionGenerator.CategoryName | core/question_generator.py:504-511 | a mapped code gives its name; an unmapped code gives itself |
| QuestionGenerator.CategoryNamesAgreeWithTable | core/question_generator.py:504-511 | the mapped names are the category table's names |
| QuestionGenerator.CategoryQuestions | core/question_generator.py:470-489 | at most one record per element, each tagged with the category code and name |
| QuestionGenerator.CategoryQuestionsSelects | core/question_generator.py:470-487 | the records are exactly the dict elements of the list, in list order, each read with `question` and `expected_answer` defaulting to `""` |
| QuestionGenerator.AllQuestions | core/question_generator.py:467-491 | one key per requested category, each with that category's records |
| QuestionGenerator.ParseAll | core/question_generator.py:433-502 | a non-empty result has exactly the requested categories as keys |
| QuestionGenerator.ParseAllShape | core/question_generator.py:461-491 | a non-object top level gives `{}`; otherwise every requested category is a key, an absent or non-list category maps to `[]`, and a list maps to its category records (those of `CategoryQuestionsSelects`) |
| QuestionGenerator.CollectCategory | core/question_generator.py:470-489 | the inner loop computes the category's records |
| QuestionGenerator.ParseAllQuestions | core/question_generator.py:433-502 | the outer loop computes the specified dict |
| QuestionGenerator.FullChunks | core/question_generator.py:744-747 | full chunks each hold 50 questions |
| QuestionGenerator.ChunksCoverTotal | core/question_generator.py:733-747 | the chunks each hold 1 to 50 questions and together hold the total |
| QuestionGenerator.ChunksNeededPositive | core/question_generator.py:735 | some chunk is run iff the total is positive |
| QuestionGenerator.TruncDiv | core/question_generator.py:763 | `int()` truncates toward zero |
| QuestionGenerator.ChunkPrefix | core/question_generator.py:753-766 | each handed-out count is non-negative; counts plus what remains equal the chunk size; once nothing remains, counts are 0 |
| QuestionGenerator.ChunkCountsOf | core/question_generator.py:753-766 | one non-negative count per category, in order, never more than the chunk holds |
| QuestionGenerator.ChunkCounts | core/question_generator.py:753-766 | the decrementing loop computes the specified chunk counts |
| QuestionGenerator.ChunkCountsKeepCodes | core/question_generator.py:755-765 | a chunk's counts name the requested categories, in order |
| QuestionGenerator.ChunkShortfall | core/question_generator.py:753-766 | 20/20/20 in a 50-question chunk of 60 asks for only 48 questions |
| QuestionGenerator.FirstMissingSpec | core/question_generator.py:832-844 | nothing is missing iff every wanted name is available; a missing one is wanted and unavailable |
| QuestionGenerator.BatchPromptAsWrittenRaises | core/prompt_templates.py:18-73 | as written, formatting the batch prompt misses `type_description` |
| QuestionGenerator.BatchPromptCorrectedFormats | core/question_generator.py:832-844 | with `type_description` supplied, every placeholder is filled |
| QuestionGenerator.TemplateImportAsWrittenFails | core/question_generator.py:14 | as written, the import misses `MAIN_PROMPT_TEMPLATE` |
| QuestionGenerator.TemplateImportCorrectedLoads | core/question_generator.py:14 | with the template defined, every imported name resolves |
| QuestionGenerator.AnnotateAll | core/question_generator.py:877-886 | one question per record, keeping its text, answer and error, with the batch's type, name, role, coefficient and distribution |
| QuestionGenerator.BatchAsWrittenAlwaysFails | core/question_generator.py:832-844 | as written, every batch call fails with `KeyError('type_description')`, whatever the reply |
| QuestionGenerator.GenerateQuestionsBatch | core/question_generator.py:802-904 | the batch succeeds with the chain's records of the stripped reply, each annotated |
| QuestionGenerator.BatchNeverEmpty | core/question_generator.py:864-886 | when `{`-texts decode to objects, a batch holds at least one question |
| QuestionGenerator.SingleRequest | core/question_generator.py:513-637 | corrected, it succeeds, and only requested categories are keys |
| QuestionGenerator.EmptyLists | core/question_generator.py:739-741 | `all_results` starts with one empty list per requested category |
| QuestionGenerator.MergeChunk | core/question_generator.py:778-780 | the merge succeeds iff the chunk names only known categories; then every list is extended by the chunk's list |
| QuestionGenerator.ChunkedAfterStaysFailed | core/question_generator.py:743-800 | once a merge raises, the generator has failed |
| QuestionGenerator.RunChunk | core/question_generator.py:744-781 | one loop pass computes the specification's next chunk step: the chunk's counts, the request, and the merge or the skip of a failed chunk |
| QuestionGenerator.GenerateQuestionsChunked | core/question_generator.py:711-800 | the loop computes `all_results` after all `chunks_needed` chunks |
| QuestionGenerator.ChunkedKeepsEveryCategory | core/question_generator.py:711-800 | with the corrected single request, the chunked generator succeeds with exactly the requested categories as keys |
| QuestionGenerator.ChunkedAsWrittenCollectsNothing | core/question_generator.py:544 | as written, every chunk fails at the pair unpacking, and the result is only the empty lists |
| QuestionGenerator.CountOf | core/question_generator.py:668 | `question_counts.get(code, 0)` |
| QuestionGenerator.CollectByCodeHolds | core/question_generator.py:667-692 | with distinct codes, each category code maps to its own batch and nothing else is mapped |
| QuestionGenerator.CollectByCodeValues | core/question_generator.py:667-692 | every collected value is the batch of some category |
| QuestionGenerator.CategoryBasedAsWritten | core/question_generator.py:639-709 | as written, failure happens only when some category is active |
| QuestionGenerator.CategoryBasedAsWrittenFails | core/question_generator.py:667 | as written, the category-based generator always fails at the pair unpacking |
| QuestionGenerator.RunCategory | core/question_generator.py:667-692 | one loop pass computes the category's batch |
| QuestionGenerator.GenerateQuestionsCategoryBased | core/question_generator.py:639-709 | the loop computes the per-category dict over all active categories |
| QuestionGenerator.CategoryBasedCollects | core/question_generator.py:639-709 | every active category is a key, holding its own batch, and nothing else is |
| QuestionGenerator.CategoryBatchShape | core/question_generator.py:668-692 | a category without a positive count gets `[]`; every question carries the category's code and name, the role and the coefficient; a positive count yields questions when `{`-texts decode to objects |
| QuestionGenerator.WithRoleMeta | core/question_generator.py:945-956 | the metadata pass keeps the categories |
| QuestionGenerator.ForRoleAsWrittenRaises | core/question_generator.py:962 | as written, generating for a role always raises at the pair unpacking of the fallback loop |
| QuestionGenerator.RoleMetaIdempotent | core/question_generator.py:950-956 | writing metadata that is already there changes nothing |
| QuestionGenerator.CategoryBasedCarriesRoleMeta | core/question_generator.py:945-956 | the batches already carry the role, the coefficient and the distribution |
| QuestionGenerator.ForRoleIsCategoryBased | core/question_generator.py:906-992 | corrected, generating for a role returns exactly the category-based result |

## Left out

- The OpenAI client, `check_api_status` and `generate_single_question` are not modelled. Network requests become parameters: the reply text, or a function from a request to a reply.
- Logging, printing, threads, `generate_for_multiple_roles`, the CLI menus, `main.py` and the interactive parts of `batch_generate.py` are left out.
- File I/O and the python-docx rendering of the Word document are left out. So are the `load_*`/`save_*` helpers and `config/openai_settings.py`.
- The `eval` fallback of `extract_question_data` (core/json_parser.py:118) is not modelled. It is arbitrary code execution, and a failed nested decode keeps the outer values.
- `json.loads` is a parameter. Numbers are integers only.
- JsonParser.Extract: uses the corrected pattern 1 of core/json_parser.py:57-59, so the merged answer stays a valid string (see "## Findings"). The as-written replacement is modelled by `AnswerFragment(true)` and `Pattern1AsWrittenBreaksJson` only, not through the whole extraction.
- JsonRepair.FixedJsonRepair: strategies 3 and 4 of `_parse_questions_array_robust` keep the repair as written, because that is what they run. The corrected repair is stated on its own.
- JsonParser.Extract: the generic `except Exception` branch is reached only when the decoded value is not a dict. Other internal exceptions cannot occur in the model.
- Json.PyStr: `str()` of a nested list or dict is rendered as an empty bracket pair, not as its contents.
- Float quantities are left out: `average_questions_per_level`, `overall_success_rate` and the cost estimate of `display_plan`.
- QuestionGenerator.ChunkShare: the float ratio of the chunk split is taken as an exact rational. Float rounding of `current_chunk_size * ratio` is not modelled.
- DifficultyManager.RoundHalfEven: `round(percentage / 100 * total)` is rounded half-to-even on the exact rational. Float representation errors are not modelled.
- The `total_questions` sums, `api_used` and `raw_response` fields of the generator results are left out. So are the prompt texts themselves. Only the names the prompt formatting needs are modelled.
- The generators' dict updates in place (`question.update`, `extend`) are modelled on values. Aliasing between the returned lists is not captured.
- Word characters (`\w`) outside ASCII are limited to the Turkish letters. Case-insensitive matching is limited to ASCII.
- WordExporter.GenerateFilename: `Path(base) / name` is modelled as joining with `/`. Path normalisation is not modelled.
- `generate_by_category` in generators/single_generator.py and the `generate_questions` body after its validation gate are not modelled. They only call the generator.

## Findings

| source | as written | input that shows it | evidently intended | confidence | as-written member | corrected member |
|---|---|---|---|---|---|---|
| generators/single_generator.py:219 | `for code, name in active_categories` unpacks the (code, name, description) triples as pairs | any call of `generate_balanced_questions` with the shipped category table | unpack triples | high, not executed | SingleGenerator.BalancedAsWrittenAlwaysFails | SingleGenerator.GenerateBalanced |
| core/question_generator.py:544 | the single-request generator unpacks triples as pairs | any call, so every chunk of `generate_questions_chunked` fails too | unpack triples | high, not executed | QuestionGenerator.ChunkedAsWrittenCollectsNothing | QuestionGenerator.ChunkedKeepsEveryCategory |
| core/question_generator.py:667 | the category-based generator unpacks triples as pairs | any call of `generate_questions_category_based` | unpack triples | high, not executed | QuestionGenerator.CategoryBasedAsWrittenFails | QuestionGenerator.CategoryBasedCollects |
| core/question_generator.py:962 | the fallback loop of `generate_questions_for_role` unpacks triples as pairs, with no handler | any call, since the category-based call always fails | unpack triples | high, not executed | QuestionGenerator.ForRoleAsWrittenRaises | QuestionGenerator.ForRoleIsCategoryBased |
| core/question_generator.py:832-844 | `BATCH_PROMPT_TEMPLATE.format` is not given `type_description`, which core/prompt_templates.py:23 uses | any call of `generate_questions_batch` | pass the category description | high, not executed | QuestionGenerator.BatchAsWrittenAlwaysFails | QuestionGenerator.GenerateQuestionsBatch |
| core/question_generator.py:14 | `MAIN_PROMPT_TEMPLATE` is imported but core/prompt_templates.py does not define it | importing the module | define the template or drop the import | high, not executed | QuestionGenerator.TemplateImportAsWrittenFails | QuestionGenerator.TemplateImportCorrectedLoads |
| core/json_parser.py:57-59 | pattern 1 keeps the answer's closing quote in group 1 and adds another after the fragment | `{"expected_answer": "a", "\n\nAnahtar kelimeler: b"}` | merge the fragment into the answer string | medium, not executed | JsonParser.Pattern1AsWrittenBreaksJson | JsonParser.Pattern1MergesIntoAnswer |
| core/question_generator.py:353 | the replacement `'\\n'` is a template escape that `re.sub` turns back into a newline, so the newline pass changes nothing | `{"question": "a\nb"}` with a raw newline keeps it and stays undecodable | insert a backslash and `n` | medium, not executed | JsonRepair.NewlinePassIsIdentity | JsonRepair.EscapingPassLeavesNoRawNewline |
| core/question_generator.py:356 | the quote pass escapes every quote that precedes a word character, including the opening quote of every key | `[{"question": "a"}]` is broken by the repair | escape only quotes inside strings, or drop the pass | medium, not executed | JsonRepair.FixBreaksWordQuote | JsonRepair.FixedRepairProperties |
