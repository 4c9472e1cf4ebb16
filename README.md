# Session tooling scripts, modelled in Dafny

This project models the logic of three Python scripts that post-process coding-assistant
session logs and prompt ratings. Each script is modelled in its own Dafny module, and the
model's properties are proved.

- `scripts/score_prompts_with_corrections.py` (modules `Scoring` and `Ranking`):
  - the ten-attribute weight table, and the weighted pattern score and inverted violation
    score of a rating row;
  - the three-tier penalty table derived from one base percentage;
  - `apply_corrections`, which folds correction events into each prompt's score. An event
    reaches a prompt either as its target or as a collateral prompt;
  - the selection in `main`. Result rows are built in sorted prompt order and patched with
    the adjusted values. Two stable descending sorts then give the top 7 patterns and the
    top 5 anti-patterns.
- `scripts/extract_session_data.py` (module `SessionData`):
  - the first-text-item extraction and the system-message filter;
  - user messages numbered 1..n;
  - the session duration, split into hours and minutes with floor division;
  - the sorted, duplicate-free sets of edited and written files;
  - the `git commit` records, each command cut to 200 characters;
  - the per-tool usage histogram.
- `scripts/export_sessions_by_topic.py` (modules `SessionExport` and `MessageCleaning`):
  - `extract_text_from_content`, which joins text items and flags tool use;
  - `clean_user_message`: two sentinel checks, seven span substitutions, then a strip;
  - keyword parsing and first-query matching;
  - `generate_session_summary`, with the keywords passed as a parameter;
  - the table-of-contents query selection;
  - the conversation loop, which numbers user queries and merges runs of consecutive
    assistant messages.

The supporting modules are:

- `Wrappers`: `Option` and `Result`.
- `Strings`:
  - substring search;
  - ASCII lower-casing;
  - Python's `strip()`, over exactly the characters for which `str.isspace()` holds;
  - `split`/`join` on one character;
  - lexicographic string order;
  - a method that returns a set's elements in sorted order.
- `LogEntries`: the decoded shape of one log entry, shared by the two session scripts.

Where the scripts loop and update state, the model is a method with a loop. Each such
method is proved against a recursive specification function. The properties the scripts
promise are then proved about those functions as lemmas.

Modelling choices:

- Numbers:
  - Weights and multipliers are exact `real`s. In exact arithmetic a row's score plus its
    violation is 10 × 7.75 = 77.5.
  - Python's `int(x)` is truncation toward zero.
  - `//` and `%` are floor division and modulo. On `int`, Dafny's Euclidean operators agree
    with these for the positive divisors 3600 and 60.
- Timestamps are optional integer seconds. A missing or empty timestamp is `None`.
- JSON values:
  - A `tool_use` item's `input` is a map from strings to strings.
  - A rating row holds the ten integer ratings as parsed from the CSV.
- `generate_session_summary`, the table-of-contents loop and the conversation loop all read
  each message through `extract_text_from_content` followed by `clean_user_message`. The
  model computes this per-message view once, with `SessionExport.ReadMessages`, and each
  loop works on the views.

## Model

| member | source | states |
|---|---|---|
| Strings.ContainsAt | scripts/export_sessions_by_topic.py:145 | Python's `sub in s` holds exactly when `sub` is a prefix of some suffix of `s` |
| Strings.Lower | scripts/export_sessions_by_topic.py:26 | `.lower()` keeps the length and lower-cases each character in place |
| Strings.TrimLeft | scripts/export_sessions_by_topic.py:159 | the left strip is a suffix of its input; everything dropped is whitespace; it does not start with whitespace |
| Strings.TrimRight | scripts/export_sessions_by_topic.py:159 | the right strip is a prefix of its input; everything dropped is whitespace; it does not end with whitespace |
| Strings.StripSlice | scripts/export_sessions_by_topic.py:159 | `strip()` returns a contiguous slice of its input, with only whitespace on either side |
| Strings.StripNoOuterSpace | scripts/export_sessions_by_topic.py:159 | a stripped text is empty or starts and ends with a non-space |
| Strings.StripIdempotent | scripts/export_sessions_by_topic.py:159 | stripping twice is stripping once |
| Strings.Split | scripts/export_sessions_by_topic.py:26 | `split(',')` always yields at least one piece |
| Strings.SplitPieces | scripts/export_sessions_by_topic.py:26 | no piece of a split contains the separator |
| Strings.SplitCount | scripts/export_sessions_by_topic.py:26 | there is one piece more than there are separators |
| Strings.JoinSplit | scripts/export_sessions_by_topic.py:26 | joining the pieces with the separator gives back the input |
| Strings.SplitJoin | scripts/export_sessions_by_topic.py:26 | splitting a join of separator-free pieces gives back the pieces |
| Strings.SplitConcat | scripts/export_sessions_by_topic.py:26 | splitting `a + sep + b` gives the pieces of `a` followed by the pieces of `b` |
| Strings.SplitNoSeparator | scripts/export_sessions_by_topic.py:26 | a text without the separator splits into itself alone |
| Strings.Take | scripts/extract_session_data.py:144 | `s[:n]` is a prefix of length `min(n, len(s))`; a short text is kept whole |
| Strings.LessIrreflexive | scripts/extract_session_data.py:125-126 | Python's string order is irreflexive |
| Strings.LessTransitive | scripts/extract_session_data.py:125-126 | Python's string order is transitive |
| Strings.LessTotal | scripts/extract_session_data.py:125-126 | any two different strings are ordered one way or the other |
| Strings.LessAsymmetric | scripts/extract_session_data.py:125-126 | no two strings are ordered both ways |
| Strings.Insert | scripts/extract_session_data.py:125-126 | inserting a new element into a strictly sorted list keeps it strictly sorted and adds exactly that element |
| Strings.SortedKeys | scripts/score_prompts_with_corrections.py:149 | `sorted(keys)` of a set is strictly ascending and holds exactly the set's elements |
| Strings.SortedUnique | scripts/extract_session_data.py:125-126 | two strictly sorted lists with the same elements are equal, so the sorted output is determined by the set |
| Strings.NatToString | scripts/extract_session_data.py:93 | a number's decimal text is non-empty and all digits |
| Strings.ParseNatToString | scripts/extract_session_data.py:93 | the decimal text reads back as the same number |
| Strings.IntToString | scripts/extract_session_data.py:93 | an integer's text is a minus sign exactly for negative numbers, then digits, with no space |
| Strings.ParseIntToString | scripts/extract_session_data.py:93 | the text of any integer, negative included, reads back as the same integer |
| Scoring.WeightsByPriority | scripts/score_prompts_with_corrections.py:29-40 | the table lists all ten attributes once each, and along the priority order the weights fall from 1.00 in steps of 0.05 |
| Scoring.ScoreIsWeightedSum | scripts/score_prompts_with_corrections.py:70-72 | `calc_score` is Σ c·w over the table's keys in the table's order |
| Scoring.ViolationIsInvertedSum | scripts/score_prompts_with_corrections.py:75-77 | `calc_violation` is Σ (10 − c)·w over the same keys |
| Scoring.WeightTotalValue | scripts/score_prompts_with_corrections.py:29-40 | the weights sum to 7.75 |
| Scoring.ScorePlusViolationOver | scripts/score_prompts_with_corrections.py:70-77 | over any key list, score plus violation is 10 × the weight total |
| Scoring.ScorePlusViolation | scripts/score_prompts_with_corrections.py:70-77 | for every row, `calc_score + calc_violation = 77.5` |
| Scoring.ScoreBoundsOver | scripts/score_prompts_with_corrections.py:70-77 | with ratings in 0..10, both sums over any key list lie in [0, 10 × weight total] |
| Scoring.ScoreBounds | scripts/score_prompts_with_corrections.py:70-77 | with ratings in 0..10, score and violation each lie in [0, 77.5] |
| Scoring.RoundHalfUp | scripts/score_prompts_with_corrections.py:51 | for non-negative x, `int(x + 0.5)` is the integer within half a unit of x, taking the upper one on a tie |
| Scoring.PenaltyTable | scripts/score_prompts_with_corrections.py:44-67 | the derived table is minor ×0.95 +3 / ×0.99 +1, moderate ×0.90 +5 / ×0.98 +1, major ×0.80 +10 / ×0.96 +2; any other name has no entry |
| Scoring.PenaltyBounds | scripts/score_prompts_with_corrections.py:44-67 | in every tier 0 < target mult ≤ collateral mult ≤ 1 and 0 ≤ collateral add ≤ target add |
| Scoring.KnownPenaltyBounds | scripts/score_prompts_with_corrections.py:48-67 | every entry the table has is a multiplier in (0, 1] and a non-negative additive, for both roles |
| Scoring.FirstUnknownNone | scripts/score_prompts_with_corrections.py:116-117 | there is no first unknown severity exactly when every event's severity is in the table |
| Scoring.FirstUnknownAt | scripts/score_prompts_with_corrections.py:116-117 | the first unknown severity is the severity of the first event the table does not know |
| Scoring.AdjustFromFails | scripts/score_prompts_with_corrections.py:116-117 | from any running factor, the per-prompt fold fails exactly when some severity is unknown |
| Scoring.AdjustmentFails | scripts/score_prompts_with_corrections.py:113-117 | a prompt's adjustment fails exactly when some severity is unknown, whichever prompt it is |
| Scoring.ComposeAssociative | scripts/score_prompts_with_corrections.py:120-124 | composing factors (multiply, add) is associative |
| Scoring.AdjustFromScales | scripts/score_prompts_with_corrections.py:113-124 | folding from a running factor is that factor composed with the fold from ×1.0, +0 |
| Scoring.AdjustFromAppend | scripts/score_prompts_with_corrections.py:116-124 | folding `a + b` is folding `b` from where the fold of `a` ends |
| Scoring.AdjustmentAppend | scripts/score_prompts_with_corrections.py:116-124 | the adjustment for `a + b` is the adjustment for `a` composed with the adjustment for `b` |
| Scoring.AdjustmentIsProductAndSum | scripts/score_prompts_with_corrections.py:113-124 | with known severities, the multiplier is the product and the additive the sum of the per-event factors, in list order |
| Scoring.MinorThenMajor | scripts/score_prompts_with_corrections.py:119-121 | minor then major on the same target gives ×0.76 and +13 |
| Scoring.MajorOnCollateral | scripts/score_prompts_with_corrections.py:122-124 | one major event naming the prompt as collateral gives ×0.96 and +2 |
| Scoring.TargetWins | scripts/score_prompts_with_corrections.py:119-121 | an event targeting the prompt applies only the target factors, even when the prompt is also listed as collateral |
| Scoring.UnrelatedEvent | scripts/score_prompts_with_corrections.py:119-124 | an event naming the prompt in neither role leaves its adjustment unchanged |
| Scoring.CollateralEvent | scripts/score_prompts_with_corrections.py:122-124 | an event listing the prompt only as collateral applies the collateral factors |
| Scoring.StepBounds | scripts/score_prompts_with_corrections.py:119-124 | one event never raises the multiplier, never lowers the additive, and keeps the multiplier positive |
| Scoring.AdjustFromBounds | scripts/score_prompts_with_corrections.py:113-124 | the fold never raises the multiplier, never lowers the additive, and keeps the multiplier positive |
| Scoring.AdjustmentBounds | scripts/score_prompts_with_corrections.py:113-124 | the final multiplier lies in (0, 1] and the final additive is non-negative |
| Scoring.AdjustedBounds | scripts/score_prompts_with_corrections.py:126-127 | adjusted violation ≥ base violation, and for a non-negative base score 0 ≤ adjusted score ≤ base score |
| Scoring.NoCorrections | scripts/score_prompts_with_corrections.py:104-129 | with no events the factor is ×1.0, +0, and the adjusted values equal the base values |
| Scoring.AdjustPrompt | scripts/score_prompts_with_corrections.py:113-124 | the inner loop over events fails with the first unknown severity exactly when there is one; otherwise it returns the prompt's adjustment |
| Scoring.ApplyCorrections | scripts/score_prompts_with_corrections.py:104-129 | it fails exactly when the ratings are non-empty and a severity is unknown, naming the first unknown severity; otherwise both maps have the ratings' keys and hold each prompt's base score × multiplier and base violation + additive |
| Ranking.InsertDescending | scripts/score_prompts_with_corrections.py:201-202 | one insertion step of the sort adds exactly the inserted row |
| Ranking.SortDescending | scripts/score_prompts_with_corrections.py:201-202 | the sort is a permutation of its input |
| Ranking.InsertRanked | scripts/score_prompts_with_corrections.py:201-202 | inserting a row whose id precedes every other keeps the ranking order |
| Ranking.SortRanked | scripts/score_prompts_with_corrections.py:201-202 | sorting rows given in prompt order ranks each row ahead of every later one: a higher key first, and on equal keys the smaller id, which is the order a stable sort keeps |
| Ranking.RankedDescending | scripts/score_prompts_with_corrections.py:201-202 | a ranked list has non-increasing keys |
| Ranking.RankedUnique | scripts/score_prompts_with_corrections.py:201-202 | two ranked rearrangements of the same rows are equal, so the ranking is determined |
| Ranking.FinalRowBounds | scripts/score_prompts_with_corrections.py:148-183 | a finished row has the base score and violation of its rating; without corrections its adjusted values are the base values; the adjusted violation is never below the base, and a non-negative score is never raised or made negative |
| Ranking.FinalRowsKeyed | scripts/score_prompts_with_corrections.py:148-159 | there is one finished row per rated prompt, stored under its own id |
| Ranking.TopMembers | scripts/score_prompts_with_corrections.py:218-219 | every selected row is one of the result rows |
| Ranking.LeftOutBelow | scripts/score_prompts_with_corrections.py:218-219 | every row left out of the top ranks below every row selected |
| Ranking.TopRanked | scripts/score_prompts_with_corrections.py:218-219 | the selected prefix is itself ranked |
| Ranking.TakeTop | scripts/score_prompts_with_corrections.py:201-219 | the first n of the sorted result rows are `min(n, prompts)` finished rows, in ranking order, with every left-out prompt ranking below every selected one |
| Ranking.TopDistinct | scripts/score_prompts_with_corrections.py:218-219 | no prompt is selected twice |
| Ranking.UpdatedRow | scripts/score_prompts_with_corrections.py:181-183 | patching a base row with the adjusted values gives the finished row |
| Ranking.CheckSeverities | scripts/score_prompts_with_corrections.py:171-172 | the printing loop fails on the first unknown severity, and passes exactly when all are known |
| Ranking.BaseResults | scripts/score_prompts_with_corrections.py:148-159 | `results` holds one base row per prompt, in the given order, with the adjusted values equal to the base values |
| Ranking.UpdateResults | scripts/score_prompts_with_corrections.py:178-183 | after patching, each row in `results` is that prompt's finished row |
| Ranking.Select | scripts/score_prompts_with_corrections.py:148-219 | it fails exactly when corrections are given with an unknown severity, naming the first one; otherwise the patterns are the top 7 finished rows by adjusted score and the anti-patterns the top 5 by adjusted violation |
| SessionData.FirstTextIsFirst | scripts/extract_session_data.py:31-34 | there is no first text item exactly when no item is a text item; otherwise the result is the text of the first text item |
| SessionData.ContentTextCases | scripts/extract_session_data.py:26-36 | a string gives itself; other content gives ""; a list without text items gives ""; a list gives the text of its first text item |
| SessionData.SystemMessageExtends | scripts/extract_session_data.py:39-60 | appending text to a non-empty system message leaves it a system message |
| SessionData.KeptMessageShape | scripts/extract_session_data.py:39-60 | a text that passes the filter is non-empty, does not start with `/` and contains no `<system-reminder>` |
| SessionData.KeptEntriesFilter | scripts/extract_session_data.py:178-190 | the kept entries are exactly the user entries with non-empty, non-system text, and there are no more of them than entries |
| SessionData.CollectUserMessages | scripts/extract_session_data.py:178-190 | one message per kept entry, in log order, numbered 1..n, each with its entry's timestamp and text |
| SessionData.LastTimestampNone | scripts/extract_session_data.py:75-79 | the backward scan finds nothing exactly when no entry has a timestamp |
| SessionData.LastTimestampIsLast | scripts/extract_session_data.py:75-79 | the backward scan's result is the timestamp of an entry after which no entry has one |
| SessionData.SplitDurationBounds | scripts/extract_session_data.py:89-90 | `0 ≤ minutes < 60` and `3600·h + 60·m ≤ s < 3600·h + 60·m + 60`, for negative spans too |
| SessionData.SplitDurationUnique | scripts/extract_session_data.py:89-90 | any hours and minutes that satisfy those bounds are the split |
| SessionData.DurationOfSession | scripts/extract_session_data.py:63-97 | no messages gives `0h 0m`; otherwise the call fails exactly when the first kept message has no timestamp, and the span runs from that timestamp to the last timestamped entry, split as above |
| SessionData.PartCallsMembers | scripts/extract_session_data.py:109-113 | the calls of a list are exactly its tool-use items, each stamped with the entry's timestamp |
| SessionData.ToolCallsAppend | scripts/extract_session_data.py:105-111 | the calls of two runs of entries are the calls of each, in order |
| SessionData.FilePathsMembers | scripts/extract_session_data.py:111-122 | a path is collected for a tool exactly when some call of that tool has it as a non-empty `file_path` |
| SessionData.FilePathsAppend | scripts/extract_session_data.py:105-122 | the paths of two call lists are the union of the paths of each |
| SessionData.AddFilePaths | scripts/extract_session_data.py:110-122 | the inner loop adds exactly the `Edit` paths of the list to `modified` and the `Write` paths to `created` |
| SessionData.ExtractFiles | scripts/extract_session_data.py:100-127 | `modified` and `created` are strictly sorted and hold exactly the `Edit` and `Write` paths of all calls |
| SessionData.CommitsOfCalls | scripts/extract_session_data.py:138-146 | each record is a `Bash` call whose command contains `git commit`, cut to 200 characters and stamped with its entry's timestamp; there are no more records than calls |
| SessionData.CommitsOfAppend | scripts/extract_session_data.py:134-146 | the records of two call lists are the records of each, in order, with duplicates kept |
| SessionData.ShortCommitKept | scripts/extract_session_data.py:140-146 | a `git commit` command of at most 200 characters is recorded whole |
| SessionData.AddCommits | scripts/extract_session_data.py:138-146 | the inner loop appends exactly the records of the list's calls |
| SessionData.ExtractCommits | scripts/extract_session_data.py:130-148 | the result is the records of all calls, in encounter order |
| SessionData.HistogramCounts | scripts/extract_session_data.py:202-210 | the histogram's keys are exactly the names seen (a missing name is `None`), and each count is that name's number of occurrences |
| SessionData.NamesLength | scripts/extract_session_data.py:207-210 | one name is counted per tool-use item |
| SessionData.UsageTotal | scripts/extract_session_data.py:202-210 | the counts add up to the number of tool-use items |
| SessionData.CountParts | scripts/extract_session_data.py:207-210 | the inner loop extends the histogram by the names of the list's calls |
| SessionData.CountToolUsage | scripts/extract_session_data.py:201-210 | `tool_usage` is the histogram of the names of all calls |
| SessionData.DurationTextReadsBack | scripts/extract_session_data.py:89-93 | the `duration` text splits at its one space into `"{hours}h"` and `"{minutes}m"`, and dropping the unit letter reads back the split's hours and minutes (`0h 0m` with no messages) |
| SessionData.ExtractSessionData | scripts/extract_session_data.py:178-222 | fails exactly when there is a kept message and the first has no timestamp; otherwise `total_messages` is the number of kept entries, message k is the k-th kept entry's timestamp and text numbered k, the span is the duration of those messages and `duration` is its `"{h}h {m}m"` text, and files, commits and usage are as above |
| MessageCleaning.FindCloseFound | scripts/export_sessions_by_topic.py:152 | where the lazy `.*?` stops, the closing tag begins |
| MessageCleaning.FindCloseFirst | scripts/export_sessions_by_topic.py:152 | it stops at the first closing tag, and without DOTALL no newline comes before it |
| MessageCleaning.FindCloseAbsent | scripts/export_sessions_by_topic.py:152 | without a closing tag the match fails |
| MessageCleaning.FindCloseAfter | scripts/export_sessions_by_topic.py:152-158 | on `mid + close + rest`, with no newline in `mid` unless DOTALL, the match stops right after `mid` |
| MessageCleaning.FindCloseNewline | scripts/export_sessions_by_topic.py:152-154 | without DOTALL, a newline before the closing tag makes the match fail |
| MessageCleaning.SubSpansShorter | scripts/export_sessions_by_topic.py:152-158 | a substitution never lengthens the text |
| MessageCleaning.SubSpansIdentity | scripts/export_sessions_by_topic.py:152-158 | a text without the opening tag is left unchanged |
| MessageCleaning.SubSpansSpan | scripts/export_sessions_by_topic.py:152-158 | a span at the front is removed, or replaced by its inner text for the unwrap rule, and the rest is processed in turn |
| MessageCleaning.SubSpansKeepsMultiline | scripts/export_sessions_by_topic.py:152-156 | without DOTALL, a span crossing a newline is not removed: its first character is kept and the scan moves on |
| MessageCleaning.InterruptTest | scripts/export_sessions_by_topic.py:145-146 | the two interrupt tests together amount to the unbracketed one |
| MessageCleaning.CleanCases | scripts/export_sessions_by_topic.py:143-159 | the interrupt marker gives `INTERRUPTED`, checked before the continuation marker, which gives `SESSION_CONTINUATION`; otherwise the result is the stripped substitution |
| MessageCleaning.SubstituteShorter | scripts/export_sessions_by_topic.py:152-158 | the seven substitutions never lengthen the text |
| MessageCleaning.CleanShape | scripts/export_sessions_by_topic.py:143-159 | the cleaned text is no longer than its input, and is a sentinel, empty, or free of outer whitespace |
| MessageCleaning.TagRules | scripts/export_sessions_by_topic.py:152-158 | one example per rule kind: a newline-free command-name span is removed, one with a newline is kept; a system-reminder span is removed across lines; a user-memory-input span is unwrapped to its inner text |
| MessageCleaning.StripKeepsPlain | scripts/export_sessions_by_topic.py:159 | stripping a text free of tags, `Caveat:` and both markers leaves it free of them |
| MessageCleaning.CleanPlainText | scripts/export_sessions_by_topic.py:143-159 | a text with no `<`, no `Caveat:` and neither marker is cleaned to `text.strip()` |
| MessageCleaning.CleanIdempotentOnPlainText | scripts/export_sessions_by_topic.py:143-159 | on such texts, cleaning twice is cleaning once |
| SessionExport.HasToolUseExists | scripts/export_sessions_by_topic.py:129-137 | the tool flag is set exactly when some item is a `tool_use` dict |
| SessionExport.PartTextsMembers | scripts/export_sessions_by_topic.py:130-139 | a text is collected exactly when some item is a text dict with that text or a bare string equal to it |
| SessionExport.PartTextsAppend | scripts/export_sessions_by_topic.py:130-139 | the texts of two item runs are the texts of each, in order |
| SessionExport.ToolUseAddsNoText | scripts/export_sessions_by_topic.py:135-137 | a tool-use or other item contributes no text wherever it stands |
| SessionExport.ExtractTextFromContent | scripts/export_sessions_by_topic.py:124-141 | the loop returns the single-space join of the collected texts, together with the tool flag |
| SessionExport.SingleItemContent | scripts/export_sessions_by_topic.py:124-141 | a lone tool-use item gives `("", True)`, a lone text item gives its text and `False`, and a string gives itself and `False` |
| SessionExport.ReadMessages | scripts/export_sessions_by_topic.py:597-600 | each message's view is its role, its cleaned extracted text and its tool flag |
| SessionExport.PlainTextView | scripts/export_sessions_by_topic.py:597-600 | a plain, already-stripped string message is viewed as itself |
| SessionExport.LowerKeepsShape | scripts/export_sessions_by_topic.py:26 | lower-casing keeps whitespace and commas where they are and leaves no upper-case letter |
| SessionExport.KeywordsShape | scripts/export_sessions_by_topic.py:26 | there is one keyword more than there are commas; each keyword has no comma, no outer whitespace and no upper-case letter |
| SessionExport.TrailingCommaKeyword | scripts/export_sessions_by_topic.py:26 | a trailing comma yields the empty keyword |
| SessionExport.EmptyKeywordMatchesAll | scripts/export_sessions_by_topic.py:76 | the empty keyword matches every session |
| SessionExport.UpperKeywordNeverMatches | scripts/export_sessions_by_topic.py:75-76 | a keyword with an upper-case letter never occurs in a lower-cased query |
| SessionExport.MatchingSessions | scripts/export_sessions_by_topic.py:72-77 | the matching ids are exactly the sessions whose lower-cased first query contains some keyword |
| SessionExport.GenerateSessionSummary | scripts/export_sessions_by_topic.py:161-190 | the loop's summary is the summary of the user queries that survive the filter |
| SessionExport.TopicsMembers | scripts/export_sessions_by_topic.py:181-185 | the topics are exactly the keywords found in the joined text, and there are no more of them than keywords |
| SessionExport.SummaryQueriesMembers | scripts/export_sessions_by_topic.py:165-175 | a text is a summary query exactly when some user message has it and it is not empty, `/`-prefixed, `Caveat:`-containing or a sentinel |
| SessionExport.QueryShape | scripts/export_sessions_by_topic.py:165-175 | every summary query is non-empty, not `/`-prefixed and free of outer whitespace |
| SessionExport.SummaryUnavailable | scripts/export_sessions_by_topic.py:177-178 | the summary is "Session details not available." exactly when no query survives |
| SessionExport.SummaryNoun | scripts/export_sessions_by_topic.py:187-188 | the summary ends in "query." exactly when there is one query |
| SessionExport.ShownSkipsAssistants | scripts/export_sessions_by_topic.py:644-654 | a run of assistant messages adds no shown user query |
| SessionExport.MergeAssistantRun | scripts/export_sessions_by_topic.py:640-667 | the index strictly advances to the end of the maximal assistant run; the reply, if any, is non-empty and is the merge of that run |
| SessionExport.MergedReplyShape | scripts/export_sessions_by_topic.py:656-667 | a merged reply is non-empty; if the run used tools its lower-cased text contains `<using tool`; if not, it is the `\n\n` join of the run's texts |
| SessionExport.RunTextsShape | scripts/export_sessions_by_topic.py:650-651 | every merged text is non-empty and not `/`-prefixed |
| SessionExport.QueryAppend | scripts/export_sessions_by_topic.py:628-629 | rendering a shown user query numbers it one past the queries shown before it |
| SessionExport.ReplyBlocks | scripts/export_sessions_by_topic.py:657-674 | a run renders one assistant block exactly when it has a merged reply, and that block carries the reply |
| SessionExport.RunLengthOf | scripts/export_sessions_by_topic.py:644-654 | a run of assistant messages that stops at a message of another role, or at the end, is exactly the run the rendering merges |
| SessionExport.RenderConversation | scripts/export_sessions_by_topic.py:586-674 | the blocks are exactly the reference rendering: per message in log order, other roles and skipped texts give nothing, `INTERRUPTED` gives one notice, a shown user text gives the next numbered query, and a shown assistant message gives the merged reply of the run from it to the next non-assistant message; hence the user queries are the shown user texts, numbered 1..n, with an anchor exactly when longer than 10 characters, and every assistant block has text |
| SessionExport.RenderedOrigins | scripts/export_sessions_by_topic.py:602-667 | every assistant block of the rendering is the merge of a run of assistant messages that goes on to the next message of another role, and a notice appears only if some user or assistant message is `INTERRUPTED` |
| SessionExport.ListedIsShown | scripts/export_sessions_by_topic.py:504 | every text the table of contents lists is also shown in the conversation |
| SessionExport.TocAsWritten | scripts/export_sessions_by_topic.py:497-506 | as written: one entry per listed text, numbered by its position among the listed texts |
| SessionExport.TocLinks | scripts/export_sessions_by_topic.py:497-506 | corrected: one entry per listed text, numbered by its position among the shown user texts |
| SessionExport.TocQueries | scripts/export_sessions_by_topic.py:497-506 | the loop, counting every shown user query, returns the corrected entries |
| SessionExport.TocLinksAnchored | scripts/export_sessions_by_topic.py:497-506 | every corrected entry links to an anchored query (longer than 10 characters) whose first 100 characters are the entry's text |
| SessionExport.TocLinksTexts | scripts/export_sessions_by_topic.py:497-506 | the corrected entries list the same texts in the same order as the script's |
| SessionExport.TocLinkMismatch | scripts/export_sessions_by_topic.py:504-506 | on a short query followed by a long one, the script's entry links to `q1`, the short query's number, which carries no anchor; the corrected entry links to `q2` |

## Left out

- File, JSON and CSV reading, including the skipping of malformed lines and the warnings for
  missing files. The models start from decoded entries, rating rows and correction lists.
- Command-line parsing, console printing, `:5.1f` formatting, the HTML template and
  `html.escape`.
- The date and time library. Timestamps are integer seconds, and the rendering of times in
  the conversation is not modelled.
- IEEE floating point. Weights and multipliers are exact reals, so the `adj_score !=
  base_score` marker tests and binary rounding are not modelled.
- A general regular-expression engine. Only the seven span rules of `clean_user_message`
  are modelled.
- Strings.Lower: lower-cases ASCII letters only; Python's `lower()` also folds non-ASCII
  letters.
- The whole-file keyword search (`export_sessions_by_topic.py` lines 80-94): it reads the raw
  log file, which the model does not have.
- The choice of a session's title (`first_msg`, lines 478-495 and 565-568). It feeds only
  the HTML headings.
- The statistics block (lines 535-557) and the TOC's "... and N more" line (lines 519-523).
  These are output formatting.
- The ordering of sessions by history timestamp (lines 119-122), and the grouping of the
  conversations per session. Each function takes one session's messages.
- Scoring.AdjustPrompt: the loop computes each event's effect through `Scoring.Step`. That
  function has the same three branches as lines 119-124, but the loop does not update
  `mult` and `add` inline.

## Findings

| source | as written | input that shows it | evidently intended | confidence | as-written member | corrected member |
|---|---|---|---|---|---|---|
| scripts/export_sessions_by_topic.py:497-506, 519-520, 628-629 | The table of contents numbers its links `q1, q2, …` by position among the *listed* user queries, which must be longer than 10 characters. The conversation numbers its anchors by position among *all shown* user queries, and gives an anchor only to texts longer than 10 characters. | A session whose user messages are `"hi"` then `"what is a monad"`. The TOC links to `#session-1-q1`, but the long query's anchor is `session-1-q2`, and query 1 (`"hi"`) has no anchor. | Each TOC link targets the anchor of the query it lists. | not executed | SessionExport.TocAsWritten, SessionExport.TocLinkMismatch | SessionExport.TocLinks, SessionExport.TocQueries, SessionExport.TocLinksAnchored, SessionExport.TocLinksTexts |
