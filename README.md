# Study-plan backend: the deterministic core

The backend takes a syllabus, a learner's free-text learning preferences and a
study period in days, and returns a personalised study plan. Most of the plan
comes from language-model agents, but a small layer of the backend is
deterministic. This project models that layer in Dafny and proves properties of it:

- **Learning-style analysis** (`LearningStyle`). The preferences are lower-cased
  and searched for keywords in a fixed priority: `visual`, then `audio`/`auditory`,
  then `kinesthetic`/`hands`, and otherwise `reading-writing`. The chosen style is
  mapped to its fixed four-entry list of study methods, and the tips are a fixed
  string.
- **Progress tracking** (`Progress`). There are four review checkpoints, each at
  `min(d, i * max(7, d // 4))`, labelled `Review Week i`. A fixed list of three
  metrics goes with them. This is an imperative loop that appends, proved against
  the value `PlannedTracking`.
- **Reading JSON out of an agent reply** (`ResponseParsing`). The reply is
  stripped. If it opens with a code fence (a line starting with three backticks),
  the lines are scanned for the first two fence lines, with an early exit at the
  second one. What lies strictly between them is joined and stripped. Then it is
  parsed, and a parse failure gives `{"error": "Failed to parse JSON response"}`.
  The scan is an imperative loop with a `break`. It is proved against the value
  `Unfenced`, the text the parser receives.
- **The plan endpoints** (`PlanService`). Generating a plan reads the three
  request fields, validates the syllabus before the preferences, and builds the
  plan. It stores the plan in an in-memory dictionary under `plan_<seconds>` and
  replies with a summary. The detail lookup and the PDF download answer 404 for an
  unknown id. The dictionary is the `map` field of the class `PlanStore`.

Python's string built-ins are written out in `Strings`. `strip()` uses the whole
`str.isspace()` set. `in` is a substring test. `split('\n')` always yields one
more piece than there are line feeds. `str(n)` and `int(s)` are written out in
`Numerals`. `int(s)` accepts a sign and `_` separators. It skips surrounding
whitespace, but a narrower set than `strip()`: the information separators
U+001C–U+001F are not skipped.

Some things are parameters of the model:

- `json.loads` is the parameter `parse`. It gives `None` where `json.loads`
  raises `JSONDecodeError`.
- The agent crews of `create_study_plan` are the parameter `agents`. It gives
  `None` where they raise.
- The clock is two parameters: the seconds in `nowSeconds` and the ISO
  timestamp in `createdAt`.
- The PDF renderer is the parameter `render`.

## Model

| member | source | states |
|---|---|---|
| Strings.Strip | app.py:123 | the stripped text neither starts nor ends with whitespace |
| Strings.StripSlice | app.py:123 | `strip()` is the original with exactly its leading and trailing whitespace cut off: it is a slice `s[lo..hi]` with only whitespace before `lo` and from `hi` on, and the slice neither starts nor ends with whitespace |
| Strings.StripEmptyIffBlank | app.py:358 | a stripped text is empty exactly when every character of the original is whitespace |
| Strings.StripIdempotent | app.py:353 | stripping a stripped text changes nothing |
| Strings.Contains | app.py:79-84 | `w in s` holds exactly when `w` occurs in `s` at some offset |
| Strings.Lower | app.py:76 | the model's lower-casing keeps the length and lowers each character on its own |
| Strings.LowerOfUpper | app.py:76 | the model's lower-casing forgets any earlier ASCII upper-casing |
| Strings.Split | app.py:127 | `split('\n')` gives at least one piece, and no piece holds a line feed |
| Strings.Join | app.py:141 | `'\n'.join(lines)` starts with the first line; `JoinSplit` and `SplitJoin` state that it inverts `split('\n')` |
| Strings.JoinSplit | app.py:141 | `'\n'.join` undoes `split('\n')` |
| Strings.SplitJoin | app.py:141 | `split('\n')` undoes `'\n'.join` on lines without line feeds |
| Numerals.NatToString | app.py:108 | `str(n)` of a non-negative number is a non-empty run of digits with no leading zero |
| Numerals.ParseNatToString | app.py:355 | `int(str(n)) == n` |
| Numerals.ParseNegativeNatToString | app.py:355 | `int('-' + str(n)) == -n` |
| Numerals.ParsePaddedNatToString | app.py:355 | `int()` reads `str(n)` as `n` even with skippable whitespace around it |
| Numerals.SeparatorBeforeNumeralRejected | app.py:355 | an information separator U+001C–U+001F before a numeral makes `int()` raise, although it is whitespace to `strip()` |
| Numerals.ParseInt | app.py:355 | `int(s)` on a string accepts only a text that is not blank once the whitespace `int()` skips is trimmed; what it reads is stated by the lemmas below |
| Numerals.NatToStringInjective | app.py:371 | different numbers are written differently |
| LearningStyle.AnalyzeLearningPreferences | app.py:74-97 | the style is one of the four keys; it is `visual` iff the lower-cased text contains "visual", `auditory` iff not that but "audio" or "auditory", `kinesthetic` iff neither but "kinesthetic" or "hands", else `reading-writing`; the methods are exactly that style's four-entry list; the tips are the fixed text |
| LearningStyle.AnalysisIgnoresCase | app.py:76-84 | ASCII upper-casing (the model's `Upper`, not Python's `upper()`) or the model's lower-casing of the preferences first does not change the analysis |
| LearningStyle.VisualTakesPriority | app.py:79-80 | any text containing "Visual" is classified `visual`, whatever else it says |
| Progress.Interval | app.py:102 | the spacing is at least 7 days, a quarter of the period from 28 days on, and exactly 7 below 32 days |
| Progress.GenerateProgressTracking | app.py:99-119 | exactly four checkpoints, the `k`-th at day `min(d, k * interval)` labelled `Review Week k` with the fixed assessment; no day exceeds the period; days never decrease; the metrics are the fixed three; the result equals `PlannedTracking(d)` |
| Progress.CheckpointDayBounded | app.py:105 | no checkpoint day exceeds the period |
| Progress.CheckpointDaysMonotone | app.py:104-105 | later checkpoints never fall earlier |
| Progress.CheckpointDaysStrictlyIncrease | app.py:102-105 | from 22 days on the four checkpoint days are strictly increasing |
| Progress.CheckpointsDistinctIff | app.py:102-105 | the four checkpoint days are strictly increasing exactly when the period is at least 22 days; below that the third and fourth fall on the same day |
| Progress.LastCheckpointNearEnd | app.py:102-105 | the last checkpoint falls within 3 days of the end, and on the last day when the period is at most 28 days |
| Progress.FirstCheckpointInRange | app.py:102-105 | for a positive period the first checkpoint is within it, and is `min(d, 7)` below 32 days |
| Progress.NonPositivePeriodCollapses | app.py:102-105 | for a zero or negative period every checkpoint sits on that day |
| Progress.CheckpointLabelsDistinct | app.py:108 | the checkpoint labels are pairwise different |
| ResponseParsing.FenceLineOnceStripped | app.py:132-133 | testing `line.strip().startswith('```')` is testing the line with only its leading whitespace removed |
| ResponseParsing.StrippedStartsWithFence | app.py:132-133 | the scan's test agrees with the fence-line predicate |
| ResponseParsing.NextFence | app.py:131-138 | the first fence line at or after a position: it is one, none before it is, and `None` means there is none |
| ResponseParsing.FindFences | app.py:128-138 | the scan sets `start_idx` to one past the first fence line and `end_idx` to the next fence line, or leaves them `None` |
| ResponseParsing.ExtractJsonFromResponse | app.py:121-150 | the result is the parse of `Unfenced(text)` when it parses, and exactly the object `{"error": "Failed to parse JSON response"}` otherwise |
| ResponseParsing.UnfencedPlain | app.py:123-126 | a reply that does not open with a fence is only stripped before parsing |
| ResponseParsing.OpeningFenceIsFirstLine | app.py:126-135 | in a stripped reply that opens with a fence, the first line is the first fence line |
| ResponseParsing.UnfencedBetween | app.py:126-141 | with a closing fence line at `close`, the parser receives the stripped join of lines `1..close` |
| ResponseParsing.UnfencedStripped | app.py:123-141 | whichever branch is taken, the text handed to `json.loads` is already stripped |
| ResponseParsing.UnfencedUnclosed | app.py:126-141 | with no closing fence line the reply is only stripped |
| ResponseParsing.FenceRoundTrip | app.py:121-141 | fencing a body (three backticks, an info string, the body, three backticks) and unfencing it gives the stripped body, when no line of the body is a fence line |
| PlanService.TextField | app.py:353-354 | `data.get(key, '').strip()`: a missing key reads as `""`, a string field is stripped (and the result is already stripped), and any other value raises, a 500 |
| PlanService.DurationField | app.py:355 | a missing duration reads as 30, and a conversion failure is a 500 |
| PlanService.DurationFieldCases | app.py:355 | `int()` keeps a JSON integer, reads a boolean as 0 or 1, reads a string exactly when it is a numeral, and raises on `null`, a list or a dictionary |
| PlanService.ValidateRequest | app.py:347-362 | a body that is not a dictionary, or whose field cannot be stripped or converted, is a 500; otherwise it is 400 "Syllabus text is required" iff the stripped syllabus is empty, 400 "Learning preferences are required" iff only the stripped preferences are empty, and otherwise the stripped texts and the converted duration; no other error is possible |
| PlanService.ValidRequestIsTrimmed | app.py:353-354 | an accepted request carries non-empty, already-stripped texts |
| PlanService.BlankSyllabusRefused | app.py:353-359 | for any readable body, a missing or whitespace-only syllabus is refused with the syllabus error, whatever the preferences are |
| PlanService.PreferencesRequiredIff | app.py:358-362 | the preferences error comes exactly when the syllabus has non-whitespace text and the preferences have none |
| PlanService.DurationDefaultsTo30 | app.py:355 | for any accepted body without a duration field, the duration is 30 |
| PlanService.DurationFromNumeral | app.py:355 | a duration sent as the numeral of `n` is read as `n`, the rest of the request unchanged |
| PlanService.DurationFromJsonNumber | app.py:348-355 | a JSON body whose duration is the integer `n` is read with duration `n` |
| PlanService.DurationFromJsonBool | app.py:348-355 | a JSON body whose duration is `true` or `false` is read with duration 1 or 0 |
| PlanService.BadDurationIsServerError | app.py:355 | a duration that is not a numeral gives a 500, even when the texts would be refused |
| PlanService.PlanId | app.py:371 | plan ids start with `plan_` |
| PlanService.PlanIdInjective | app.py:371 | plans generated in different seconds get different ids |
| PlanService.SyllabusAnalysisUsable | app.py:203-231 | only a dictionary can be used, and a dictionary without `subjects` always can, since `.get('subjects', [])` gives the empty list |
| PlanService.NamedSubjectsUsable | app.py:178-231 | the analysis the prompt asks for, a `subjects` list whose first three entries are dictionaries with a string `name`, is usable |
| PlanService.UnsliceableSubjectsUnusable | app.py:203 | `subjects` that is a number, `null`, a boolean or a dictionary cannot be sliced, so it raises |
| PlanService.ParseFailureIsUsable | app.py:195-231 | a syllabus reply that fails to parse gives the error object, which has no `subjects`, so the plan is still built and stored |
| PlanService.UnnamedSubjectUnusable | app.py:229 | a subject among the first three that is not a dictionary with a string `name` makes `create_study_plan` raise |
| PlanService.LaterSubjectsIgnored | app.py:203-229 | only the first three subjects are read, so those after them never decide whether the analysis is usable |
| PlanService.SubjectTextUnusable | app.py:203-229 | a string in place of the subject list is usable exactly when it is empty |
| PlanService.AssemblePlan | app.py:261-269 | the plan carries the creation time, the requested duration and the agents' three results; its learning analysis is `AnalyzeLearningPreferences` of the preferences, with the keyword style, one of the four keys; its progress tracking is `PlannedTracking` of the duration, four checkpoints, none after the period |
| PlanService.PlanCreatedReply | app.py:376-386 | the reply is a success iff the syllabus analysis is a dictionary, and a 500 otherwise; the message is "Study plan generated successfully"; the summary repeats the plan's creation time, duration and primary style, and its total hours are the analysis's `total_estimated_hours` or `"N/A"` |
| PlanService.SummaryReflectsRequest | app.py:376-386 | for an assembled plan the summary carries the requested duration and the style the keyword analysis finds |
| PlanService.PlanStore.constructor | app.py:32 | the store starts empty |
| PlanService.PlanStore.CreateAndStorePlan | app.py:367-386 | after validation: a failing agent, or a syllabus analysis that `create_study_plan` cannot use (app.py:203, 229-231), gives a 500 and leaves the store unchanged; otherwise the store gains exactly the assembled plan under `plan_<seconds>` and the reply is the 200 success built from it; every other id looks up as before |
| PlanService.PlanStore.GeneratePlan | app.py:341-392 | a refused request, a failing agent, or a syllabus analysis that `create_study_plan` cannot use (app.py:203, 229-231) gives that error and leaves the store unchanged; otherwise the store gains exactly the assembled plan under `plan_<seconds>` and the reply is the 200 success built from it; the stored plan's duration and style match the summary; every other id looks up as before |
| PlanService.PlanStore.GetPlan | app.py:394-403 | 404 "Plan not found" exactly for an id not in the store, otherwise the stored plan |
| PlanService.PlanStore.DownloadPdf | app.py:405-418 | 404 exactly for an id not in the store; otherwise the rendered bytes as `study_plan_<id>.pdf`, or a 500 when rendering raises |

## Left out

- Flask routing, `render_template`, the HTTP headers and `app.run` are HTTP plumbing. The replies are values of `Response`, and their status is `Status`.
- The agent crews inside `create_study_plan` (the prompts, `Crew.kickoff` and the model calls) are not modelled. They are the parameter `agents`, whose `None` stands for a raise inside them. A plan is assembled around their output by `AssemblePlan`. The checks that `create_study_plan` itself makes on the syllabus analysis, which raise before anything is stored, are `SyllabusAnalysisUsable`.
- `generate_study_plan_pdf` and FPDF are not modelled. They are the parameter `render`.
- `json.loads` is not modelled. It is the parameter `parse`.
- `datetime.now()` is not modelled. Its truncated seconds and ISO text are parameters.
- Request bodies that are not valid JSON are not modelled. In the source, `get_json()` raises on them and the endpoint replies 500.
- Two plans generated in the same second get the same id, and the later one overwrites the earlier. The model does this too but states no lemma about it.
- Printing, tracebacks and the `str(e)` text of a 500 reply are not kept.
- Strings.Lower: only `A`-`Z` and the Kelvin sign are lowered. Python changes other characters too, but none of those changes can complete or break one of the ASCII keywords, so the chosen style is the same.
- LearningStyle.AnalysisIgnoresCase: only ASCII upper-casing is covered. Python's `upper()` also turns `ı` (U+0131) into `I` and `ſ` (U+017F) into `S`, so upper-casing with it first can change the style (`"vısual"` is not `visual`, its upper-cased form is).
- Strings.Join: its own contract states only that the result starts with the first line. What it builds is stated by `JoinSplit` and `SplitJoin`.
- Numerals.ParseInt: decimal digits other than ASCII, and the limit on the number of digits, are not modelled. Its own contract states only that an accepted text is not blank once trimmed. `ParseNatToString`, `ParseNegativeNatToString`, `ParsePaddedNatToString` and `SeparatorBeforeNumeralRejected` state what it reads.
- JSON floating-point numbers, and `int()` truncating them, are not modelled. Numbers are integers.
- Update in place: the store's dictionary is a `map` that `GeneratePlan` reassigns. The plans themselves are immutable values, and nothing aliases them.
- The browser-side interface controller is not part of this model.
