# Agentic Career Pathfinder: a verified model of its core

Agentic Career Pathfinder guides a student through a career choice. The
backend asks a language model for assessment questions. It classifies the
student's level from the answers, asks a tool-using agent for career tracks
and for a weekly roadmap, and stores the roadmap as a checklist. The React
frontend shows the quiz, the roadmap and the progress tracker.

This Dafny project models the part of the system with behaviour worth
stating, and proves what it promises:

- **The tolerant model-output pipeline** shared by the question, track and
  roadmap agents:
  - the fenced-block search, then the agent's bare-array search, written out
    under Python's leftmost, backtracking regular-expression semantics;
  - `json.loads`, as a parameter;
  - the shape check;
  - the three-attempt retry loop with its 2, 4, 6 second backoff;
  - the fallback value.
- **The level detector**'s single call, trim and exact membership test.
- **The progress-tracker routes:** the nested in-place task update, and the
  read that normalises stored tasks.
- **The roadmap route's branch logic:** the level guard, serving a stored
  roadmap, the empty-generation error, and converting generated weeks into
  task records.
- **Three frontend pages:**
  - the roadmap page's checkbox map and week classifier;
  - the tracker page's update request and its week-replacement updater;
  - the quiz page's answer slots, submit guards, payload and navigation
    condition.

Modules follow the program:

| module | file | models |
|---|---|---|
| `Wrappers` | wrappers.dfy | None, HTTP errors, API replies, falsy strings |
| `Text` | text.dfy | Python and JavaScript whitespace, trimming, `join`, decimal rendering |
| `JsonModel` | json.dfy | parsed JSON values, record shapes, `str()` |
| `Patterns` | patterns.dfy | the three `re.search` patterns |
| `Extraction` | extraction.dfy | `_extract_and_parse_json`, shared by the three agents |
| `Retry` | retry.dfy | the bounded retry loop |
| `StrategyQuestions` | strategy_questions.dfy | the question agent |
| `TrackRecommender` | track_recommender.dfy | the track agent |
| `RoadmapGenerator` | roadmap_generator.dfy | the roadmap agent |
| `LevelDetector` | level_detector.dfy | the level agent |
| `Records` | records.dfy | the task, week and task-update records |
| `ProgressTracker` | tracker.dfy | the tracker routes |
| `RoadmapRoute` | roadmap_route.dfy | `get_roadmap` |
| `RoadmapPage` | roadmap_page.dfy | Roadmap.jsx |
| `TrackerPage` | tracker_page.dfy | Tracker.jsx |
| `QuizPage` | quiz_page.dfy | Quiz.jsx |

**Foreign calls become inputs:**

- **The model and agent calls.** A retry agent takes its replies as a
  sequence, one per attempt that may be made. `replies[i]` is an exception or
  a reply.
- **The level detector's call** is a function from the prompt text to a
  reply. None means an exception.
- **`json.loads`** is a function from the candidate string to a parsed value.
  None means a decode error.
- **Sleeps** are returned as the list of delays, in seconds, in the order
  they happen.
- **The database lookups.** A route takes what its lookups find. It returns
  what it writes alongside its response.
- **An awaited API call on a page** is an `ApiReply`: the response body, or
  the rejection's message.

## Model

| member | source | states |
|---|---|---|
| Wrappers.Falsy | backend/routes/roadmap.py:34 | Python's and JavaScript's falsiness of a string that may be missing: absent or empty; the truthiness tests at frontend/src/pages/Tracker/Tracker.jsx:39 and frontend/src/pages/Quiz/Quiz.jsx:21, :34 and :54 use it too; characterised by `RoadmapRoute.LevelGuardFirst` and `QuizPage.SubmitQuiz` |
| Text.IsSpace | backend/agents/strategy_questions.py:31 | the characters `\s` and `str.strip()` treat as whitespace; characterised through `Text.SkipWs`, `Text.TrimStart` and `Text.TrimEnd`, whose contracts are stated with it |
| Text.IsJsSpace | frontend/src/pages/Quiz/Quiz.jsx:39 | the characters JavaScript's `trim()` removes; characterised through `Text.TrimEmptyIffBlank` |
| Text.SkipWs | backend/agents/strategy_questions.py:31 | a greedy `\s*` stops at the first non-whitespace position: every skipped character is whitespace and the one it stops at is not |
| Text.TrimStart | backend/agents/level_detector.py:28 | the result is a suffix of the input; everything cut off is whitespace; the result does not start with whitespace |
| Text.TrimEnd | backend/agents/level_detector.py:28 | the result is a prefix of the input; everything cut off is whitespace; the result does not end with whitespace |
| Text.Trim | backend/agents/level_detector.py:28 | `strip()`/`trim()` at both ends; characterised by `Text.TrimEnds`, `Text.TrimPadded` and `Text.TrimEmptyIffBlank` |
| Text.TrimEnds | backend/agents/level_detector.py:28 | `strip()` leaves no whitespace at either end |
| Text.TrimPadded | backend/agents/level_detector.py:28-29 | stripping whitespace padding off a string that neither starts nor ends with whitespace gives that string back |
| Text.TrimStartPadded | backend/agents/level_detector.py:28 | trimming the start removes exactly a leading whitespace run that precedes a non-whitespace character |
| Text.TrimEndPadded | backend/agents/level_detector.py:28 | trimming the end removes exactly a trailing whitespace run that follows a non-whitespace character |
| Text.TrimEmptyIffBlank | frontend/src/pages/Quiz/Quiz.jsx:39 | `trim() === ''` holds exactly when every character of the answer is whitespace |
| Text.Join | backend/agents/level_detector.py:24 | `sep.join(parts)`; characterised by `Text.JoinAppend` and `LevelDetector.QaTextAppend` |
| Text.JoinAppend | backend/agents/level_detector.py:24 | `"\n".join` of two non-empty runs of parts is the join of each, with one separator between them |
| Text.NatToString | frontend/src/pages/Roadmap/Roadmap.jsx:36 | the rendering of a natural number is a non-empty run of decimal digits, of two or more digits from 10 on; `Text.DecimalRoundTrip` and `Text.NatToStringInjective` say it reads back as the same number |
| Text.DecimalRoundTrip | frontend/src/pages/Roadmap/Roadmap.jsx:36 | a rendered index reads back as the same number |
| Text.NatToStringInjective | frontend/src/pages/Roadmap/Roadmap.jsx:36 | distinct indices render to distinct digit strings |
| Text.IntToString | backend/routes/roadmap.py:74 | `str()` of an int starts with a minus sign exactly when the int is negative; the rest is a non-empty run of decimal digits that reads back as its absolute value |
| Patterns.FenceAt | backend/agents/strategy_questions.py:31 | the fence pattern matching at a start with its body closing at a given `]`; `Extraction.FenceShape` lays one out, and `Patterns.FenceEnd`/`Patterns.FenceFrom` are stated with it |
| Patterns.FenceEnd | backend/agents/strategy_questions.py:31 | the lazy `.*?` closes at the first `]` from which blanks and the closing backticks follow: the result is such a `]`, and no earlier position is one |
| Patterns.FenceFrom | backend/agents/strategy_questions.py:31 | the leftmost start of a fence match, with its shortest body; no earlier start matches at all; no match means none anywhere |
| Patterns.FenceGroup | backend/agents/strategy_questions.py:31-33 | `group(1)` of the fence search: from the `[` after "```json" and its blanks to the closing `]`; characterised by `Extraction.FenceCandidate` and `Extraction.FencedBlockRecovered` |
| Patterns.Tail | backend/agents/strategy_questions.py:35 | after an object: `]` ends the match just after it; `,` blanks `{` opens another object; any other character, or the end of the text, fails; any end found lies after the position and closes on `]` |
| Patterns.CloseFrom | backend/agents/strategy_questions.py:35 | backtracking over the `}` candidates of a lazy object body: any end found lies after the position and closes on `]`; which `}` it settles on, and when it fails, are the two lemmas below |
| Patterns.CloseFromNone | backend/agents/strategy_questions.py:35 | the lazy object body finds no match exactly when no `}` from the position on is followed by a match of the rest of the pattern |
| Patterns.CloseFromFirst | backend/agents/strategy_questions.py:35 | when some `}` is followed by a match of the rest, the match is the one after the FIRST such `}`: `.*?` backtracks no further than it must |
| Patterns.ArrayAt | backend/agents/strategy_questions.py:35 | a match starting at a position opens with `[`, blanks and `{`, and ends on a later `]` |
| Patterns.ArrayFrom | backend/agents/track_recommender.py:65 | the object-array search returns the leftmost start at which the pattern matches; no earlier start matches; no match means none at any start |
| Patterns.ObjectArray | backend/agents/strategy_questions.py:35-37 | `group(0)` of the object-array search; characterised by `Extraction.ObjectListRecovered`, `Extraction.FirstObjectArrayRecovered` and `Extraction.TwoBareArrays` |
| Patterns.IndexFrom | backend/agents/roadmap_generator.py:67 | the first occurrence of a character at or after a position, or the fact that there is none |
| Patterns.LastIndexBelow | backend/agents/roadmap_generator.py:67 | the last occurrence of a character below a position, or the fact that there is none |
| Patterns.BracketSpan | backend/agents/roadmap_generator.py:67 | the greedy `\[.*\]` runs from the first `[` to the last `]` of the whole text; it finds nothing exactly when no `]` comes after any `[` |
| Patterns.AnyBrackets | backend/agents/roadmap_generator.py:67-69 | `group(0)` of the greedy search; characterised by `Extraction.BracketSpanRecovered` and `Extraction.TwoBareArrays` |
| Extraction.BareCandidate | backend/agents/strategy_questions.py:35-37 | the agent's own bare pattern: the object-array search for questions and tracks (backend/agents/track_recommender.py:65), the greedy search for the roadmap (backend/agents/roadmap_generator.py:67); characterised by `Extraction.ObjectListRecovered` and `Extraction.BracketSpanRecovered` |
| Extraction.Candidate | backend/agents/strategy_questions.py:31-40 | the fenced block when the fence matches anywhere, else the bare match, else nothing; characterised by `Extraction.FencePriority` and `Extraction.CandidateNonEmpty` |
| Extraction.CandidateNonEmpty | backend/agents/roadmap_generator.py:72 | every candidate starts with `[`, so the roadmap extractor's truthiness test never rejects one |
| Extraction.Extract | backend/agents/strategy_questions.py:42-53 | the extractor returns records exactly when there is a candidate, it parses, and the value is a list of dicts with the required keys; the records returned always pass that check |
| Extraction.FencePriority | backend/agents/strategy_questions.py:31-37 | a fence match anywhere decides the candidate, whichever bare pattern the agent uses |
| Extraction.FenceShape | backend/agents/strategy_questions.py:31 | "```json", blanks, `[`, a body without backticks, `]`, blanks and "```" is a fence match that closes at that `]` and at no earlier one |
| Extraction.LeftmostFence | backend/agents/strategy_questions.py:31 | a fence match with no "```json" starting before it, closing at its first possible `]`, is the one the search returns |
| Extraction.FenceFound | backend/agents/strategy_questions.py:31 | a fence laid out position by position, with no "```json" starting before it, is the search's leftmost, shortest match |
| Extraction.FenceCandidate | backend/agents/strategy_questions.py:31-33 | for such a fence, group 1, the text from `[` to `]`, is the candidate |
| Extraction.FencedBlockRecovered | backend/agents/strategy_questions.py:31-33 | prose in which "```json" does not occur (backticks allowed), then "```json", blanks, a bracketed block, blanks, "```" and any tail: the candidate is exactly the block, whatever bare arrays surround it |
| Extraction.NoEarlierFence | backend/agents/strategy_questions.py:31 | "```json" cannot overlap itself, so prose without it, followed by one, holds no fence start before that one |
| Extraction.SkipWsRun | backend/agents/strategy_questions.py:31 | `\s*` over a known blank run ends where the run ends |
| Extraction.CloseFromSkips | backend/agents/strategy_questions.py:35 | the lazy object body steps over positions that hold no `}` |
| Extraction.LeftmostArray | backend/agents/strategy_questions.py:35 | a match with no `[` before it is the match the search returns |
| Extraction.ListAtCloses | backend/agents/strategy_questions.py:35 | one or more objects `{…}` laid out position by position, separated by `,` and blanks, with blanks and `]` after the last: the lazy body of the first object closes the whole match just after that `]` |
| Extraction.ObjectListLaid | backend/agents/strategy_questions.py:35 | objects whose bodies hold no `}`, joined by `,` and a blank run, lie in the text exactly in that position-by-position layout |
| Extraction.ListAtRecovered | backend/agents/strategy_questions.py:35-37 | the first `[` of the text, blanks, then such a layout: the object-array search returns the text from that `[` through the closing `]` |
| Extraction.ObjectListRecovered | backend/agents/strategy_questions.py:35-37 | prose without `[`, then `[`, blanks, one or more objects without `}` in their bodies separated by `,` and blanks, blanks, `]`, then anything: the object-array search returns exactly that array, the usual `[{…}, {…}]` reply |
| Extraction.FirstObjectArrayRecovered | backend/agents/strategy_questions.py:35-37 | prose without `[`, then a one-object array whose body has no `}`, then anything: the object-array search returns exactly that first array |
| Extraction.BracketSpanRecovered | backend/agents/roadmap_generator.py:67-69 | prose without `[`, a span from `[` to `]`, then a tail without `]`: the greedy search returns the whole span |
| Extraction.TwoBareArrays | backend/agents/roadmap_generator.py:67-69 | with two separate unfenced arrays, the object-array search takes the first alone; the greedy search takes one span covering both and the prose between them |
| Extraction.FirstBareArray | backend/agents/track_recommender.py:65-67 | a one-object array with no blanks, after prose without `[`, is the object-array match whatever follows |
| JsonModel.Get | backend/routes/roadmap.py:72 | `dict.get(key)`: the value under the key, JSON null when it is missing (also backend/routes/roadmap.py:77); characterised by `RoadmapRoute.ConvertLink` and `RoadmapRoute.ConvertTask` |
| JsonModel.Conforms | backend/agents/strategy_questions.py:44 | `isinstance(x, dict)` with every required key present, list-valued where the roadmap check asks; used by the contracts of `Extraction.Extract` and `StrategyQuestions.FallbackQuestions` |
| JsonModel.Validates | backend/agents/strategy_questions.py:44 | `isinstance(v, list)` and every element conforming; used by the contracts of `Extraction.Extract`, `StrategyQuestions.GeneratedQuestions`, `TrackRecommender.RecommendedTracks` and `RoadmapGenerator.GeneratedWeeks` |
| JsonModel.PyStr | backend/routes/roadmap.py:74 | Python's `str()` of a parsed value; characterised by `RoadmapRoute.ConvertLink`, and for integers by `Text.IntToString` |
| Retry.Backoff | backend/agents/strategy_questions.py:72-75 | the delay after failed attempt i (0-based) is `2*(i+1)` seconds; characterised by `Retry.BackoffSchedule` and `Retry.BackoffIncreasing` |
| Retry.BackoffSchedule | backend/agents/strategy_questions.py:72-75 | after k failed attempts the delays are `2*(i+1)` for i = 0 .. k-1, in order |
| Retry.BackoffIncreasing | backend/agents/strategy_questions.py:72-75 | the delays grow strictly; three failures sleep 2, 4 and 6 seconds |
| Retry.Run | backend/agents/strategy_questions.py:56-69 | 1 to 3 calls; a value comes from the last call made; every earlier call failed; no value exactly when the third call also failed |
| Retry.RunFrom | backend/agents/strategy_questions.py:57-75 | the loop resumed at an attempt; characterised by `Retry.RunFromSpec` |
| Retry.RunFromSpec | backend/agents/strategy_questions.py:56-69 | the same facts for the loop resumed at any attempt |
| Retry.ExhaustedIffAllFail | backend/agents/strategy_questions.py:56-78 | the loop falls back exactly when all three attempts fail |
| Retry.FirstAcceptedWins | backend/agents/strategy_questions.py:66-69 | an accepted first reply is returned after one call |
| Retry.RunUsesOnlyCalledReplies | backend/agents/strategy_questions.py:56-69 | replies after the last call made play no part in the outcome |
| Retry.RetryLoop | backend/agents/strategy_questions.py:56-77 | the loop as written returns the outcome and call count of `Run`, and sleeps the backoff delays of exactly its failed attempts, the last one included |
| StrategyQuestions.ExtractQuestions | backend/agents/strategy_questions.py:30-53 | records come back exactly when a candidate exists, parses, and is a list of dicts with `id` and `question`; no candidate, or a decode error, gives None |
| StrategyQuestions.QuestionStep | backend/agents/strategy_questions.py:58-75 | one attempt: a raised exception or an unusable reply is a failure, else the extracted questions; characterised by `StrategyQuestions.GeneratedQuestions` and `StrategyQuestions.ExceptionsGiveFallback` |
| StrategyQuestions.FallbackText | backend/agents/strategy_questions.py:78 | the text of placeholder question n; characterised by `StrategyQuestions.FallbackTextsDistinct` and `StrategyQuestions.FallbackQuestions` |
| StrategyQuestions.FallbackQuestions | backend/agents/strategy_questions.py:78 | ten records, ids 1 to 10, with text "Error-fallback question i for {domain}"; together they pass the question check |
| StrategyQuestions.FallbackTextsDistinct | backend/agents/strategy_questions.py:78 | the ten placeholder texts differ pairwise |
| StrategyQuestions.GeneratedQuestions | backend/agents/strategy_questions.py:55-78 | the result always passes the question check; it is the records extracted from the accepted reply, or the placeholders after three failures |
| StrategyQuestions.ExceptionsGiveFallback | backend/agents/strategy_questions.py:73-78 | three raised exceptions do not escape: the placeholders come back |
| StrategyQuestions.GenerateQuestions | backend/agents/strategy_questions.py:55-78 | the method returns the generated questions after 1 to 3 calls, sleeping after each failure |
| TrackRecommender.ExtractTracks | backend/agents/track_recommender.py:60-83 | records come back exactly when a candidate exists, parses, and is a list of dicts each with a `title` |
| TrackRecommender.BareCandidateOpensAnObject | backend/agents/track_recommender.py:65-67 | without a fence, the candidate starts with `[`, blanks and `{` |
| TrackRecommender.MatchOpensAnObject | backend/agents/track_recommender.py:65 | an object-array match opens with `[`, blanks and `{` |
| TrackRecommender.TrackStep | backend/agents/track_recommender.py:97-113 | one attempt: an exception, a missing "output" or an unusable reply is a failure; characterised by `TrackRecommender.RecommendedTracks` and `TrackRecommender.MissingOutputGivesNothing` |
| TrackRecommender.RecommendedTracks | backend/agents/track_recommender.py:85-116 | the result always passes the track check; it is what the accepted reply's "output" gives, or `[]` after three failures |
| TrackRecommender.MissingOutputGivesNothing | backend/agents/track_recommender.py:99-116 | responses without "output" are three failures: 3 calls, delays 2, 4, 6, and no tracks |
| TrackRecommender.RecommendTracks | backend/agents/track_recommender.py:85-116 | the method returns the recommended tracks after 1 to 3 calls, sleeping after each failure |
| RoadmapGenerator.ExtractWeeks | backend/agents/roadmap_generator.py:53-87 | weeks come back exactly when the fence or greedy candidate parses to a list of dicts with `week` and `tasks`, `tasks` being a list |
| RoadmapGenerator.EmptyListAccepted | backend/agents/roadmap_generator.py:75-78 | a candidate that parses to `[]` is accepted, with no weeks |
| RoadmapGenerator.RoadmapStep | backend/agents/roadmap_generator.py:97-117 | one attempt: an exception, a missing or empty "output" or an unusable reply is a failure; characterised by `RoadmapGenerator.GeneratedWeeks` and `RoadmapGenerator.EmptyRoadmapReturnedAtOnce` |
| RoadmapGenerator.GeneratedWeeks | backend/agents/roadmap_generator.py:89-120 | the result always passes the week check; it is what the accepted reply's non-empty "output" gives, or `[]` after three failures |
| RoadmapGenerator.EmptyRoadmapReturnedAtOnce | backend/agents/roadmap_generator.py:101-106 | a first reply parsing to `[]` ends the loop after one call, with no sleep and no weeks |
| RoadmapGenerator.GenerateRoadmap | backend/agents/roadmap_generator.py:89-120 | the method returns the generated weeks after 1 to 3 calls, sleeping after each failure |
| LevelDetector.Block | backend/agents/level_detector.py:24 | the block "Q: <question>\nA: <answer>" of one pair; characterised by `LevelDetector.Blocks` and `LevelDetector.QaTextAppend` |
| LevelDetector.QaText | backend/agents/level_detector.py:24 | the pairs' blocks joined with "\n"; characterised by `LevelDetector.QaTextAppend` |
| LevelDetector.Blocks | backend/agents/level_detector.py:24 | one "Q: …\nA: …" block per pair, in input order |
| LevelDetector.QaTextAppend | backend/agents/level_detector.py:24 | the QA text of no pairs is empty, that of one pair is its block, and each further pair adds a line break and its block |
| LevelDetector.Classify | backend/agents/level_detector.py:27-36 | the level is always one of the three names; it is the stripped reply when that is a name; otherwise, or on an exception, it is "Beginner" |
| LevelDetector.DetectLevel | backend/agents/level_detector.py:23-36 | `detect_level` is the classification of the reply to the QA text, so always one of the three names |
| LevelDetector.SingleCall | backend/agents/level_detector.py:25-26 | only the reply to the QA text matters: models that agree on it give the same level |
| LevelDetector.PaddedLevelRecognised | backend/agents/level_detector.py:28-30 | a level name padded with whitespace is recognised |
| LevelDetector.UnlistedDefaults | backend/agents/level_detector.py:29-33 | a reply with no surrounding whitespace that is not literally a level name gives "Beginner" |
| LevelDetector.LowercaseDefaults | backend/agents/level_detector.py:29-33 | "advanced" gives "Beginner": the test is case-sensitive |
| LevelDetector.PunctuatedDefaults | backend/agents/level_detector.py:29-33 | "Advanced." gives "Beginner": the test is exact |
| Records.NormalizeTask | backend/routes/tracker.py:26-30 | a stored task reads back with its text and link; it reads as completed exactly when its stored status is true, an absent status meaning false |
| Records.NormalizeTasks | backend/routes/tracker.py:25-30 | each stored task of a week is read back, in order |
| Records.NormalizeWeek | backend/routes/tracker.py:31 | a stored week reads back with its number and as many tasks |
| Records.NormalizeWeeks | backend/routes/tracker.py:23-31 | each stored week is read back, in order |
| Records.StoreTask | backend/routes/roadmap.py:84 | `model_dump(exclude_none=True)` of a task: text and status written, a None link left out; characterised by `Records.StoreRoundTrip` |
| Records.StoreWeek | backend/routes/roadmap.py:84 | `model_dump` of a week: its number and its tasks in order; characterised by `Records.StoreRoundTrip` |
| Records.StoreWeeks | backend/routes/roadmap.py:83-84 | each week is written, in order |
| Records.StoreRoundTrip | backend/routes/roadmap.py:44-84 | weeks written with `exclude_none` read back unchanged |
| ProgressTracker.GetProgressTracker | backend/routes/tracker.py:11-33 | no roadmap gives 404; otherwise the nested loops return exactly the stored weeks read back |
| ProgressTracker.TrackerReadsBack | backend/routes/tracker.py:22-33 | reading back keeps week order, numbers, task count, text and link; an absent status reads as false |
| ProgressTracker.TaskIndex | backend/routes/tracker.py:51-52 | the first task with the requested text, or the fact that there is none |
| ProgressTracker.LocateFrom | backend/routes/tracker.py:49-68 | the first week with the requested number that holds a task with the requested text, and the first such task in it; a later week is reached only if no earlier one qualifies |
| ProgressTracker.Locate | backend/routes/tracker.py:49-68 | the search of the nested loops from the first week; characterised by `ProgressTracker.LocateFrom`, `ProgressTracker.NotFoundIffNoMatch` and `ProgressTracker.LocateFromStable` |
| ProgressTracker.Apply | backend/routes/tracker.py:53-62 | the task after the assignments: the requested status, and exactly the requested link, None clearing it; characterised by `ProgressTracker.UpdateEffect` |
| ProgressTracker.Changes | backend/routes/tracker.py:53-62 | whether some assignment sets `update_needed`, an absent status always counting; characterised by `ProgressTracker.WrittenIffChanged` and `ProgressTracker.UpdateIdempotent` |
| ProgressTracker.UpdateOutcome | backend/routes/tracker.py:42-80 | the response and the write of the route; characterised by `ProgressTracker.NotFoundIffNoMatch`, `ProgressTracker.UpdateEffect`, `ProgressTracker.ReturnsUpdatedWeek`, `ProgressTracker.WrittenIffChanged` and `ProgressTracker.UpdateIdempotent` |
| ProgressTracker.SetTask | backend/routes/tracker.py:54-61 | the in-place assignment to task `ti` of week `wi`; characterised by `ProgressTracker.SetTaskAgain`, `ProgressTracker.SetTaskSame` and `ProgressTracker.UpdateEffect` |
| ProgressTracker.SetTaskAgain | backend/routes/tracker.py:54-61 | assigning a task twice in place is assigning it once, to the second value |
| ProgressTracker.SetTaskSame | backend/routes/tracker.py:54-61 | assigning a task its own value changes nothing |
| ProgressTracker.UpdateProgressTracker | backend/routes/tracker.py:35-80 | the in-place loop gives the response and the write of `UpdateOutcome`, which the lemmas below characterise |
| ProgressTracker.NotFoundIffNoMatch | backend/routes/tracker.py:70-71 | the update is 404 exactly when no week with that number holds a task with that text, and then nothing is written |
| ProgressTracker.UpdateEffect | backend/routes/tracker.py:49-68 | after an update, the targeted task has the requested status and link (None clears it); every other week and task is unchanged |
| ProgressTracker.ReturnsUpdatedWeek | backend/routes/tracker.py:65-80 | the response is the updated week read back, holding the requested task, status and link |
| ProgressTracker.WrittenIffChanged | backend/routes/tracker.py:53-77 | the store is written exactly when the status or link of the targeted task differs from the request |
| ProgressTracker.LocateFromStable | backend/routes/tracker.py:49-52 | changing a task's status and link does not change which task a search finds |
| ProgressTracker.TaskIndexStable | backend/routes/tracker.py:51-52 | the task search depends only on the task texts |
| ProgressTracker.UpdateIdempotent | backend/routes/tracker.py:73-80 | repeating an update writes nothing and returns the same response |
| RoadmapRoute.LevelMissingIn | backend/routes/roadmap.py:34 | `not session_doc.get("level")`: the level is absent or empty; characterised by `RoadmapRoute.LevelGuardFirst` |
| RoadmapRoute.ConvertLink | backend/routes/roadmap.py:72-74 | a null or absent link stays None; any other value becomes its `str()` |
| RoadmapRoute.ConvertTask | backend/routes/roadmap.py:76-80 | a generated task converts exactly when it is a dict whose `task` is a string, and then it starts incomplete |
| RoadmapRoute.ConvertTasks | backend/routes/roadmap.py:71-80 | a week's tasks convert one for one, in order; the conversion fails exactly when some task does not convert |
| RoadmapRoute.ConvertWeek | backend/routes/roadmap.py:69-81 | a week converts exactly when its number is an int and all its tasks convert; it keeps the number |
| RoadmapRoute.ConvertWeeks | backend/routes/roadmap.py:69-81 | the weeks convert one for one, in order; the conversion fails exactly when some week does not convert |
| RoadmapRoute.ConvertGeneratedTasks | backend/routes/roadmap.py:70-80 | the inner appending loop computes the task conversion |
| RoadmapRoute.ConvertGenerated | backend/routes/roadmap.py:69-81 | the outer appending loop computes the week conversion |
| RoadmapRoute.RoadmapOutcome | backend/routes/roadmap.py:34-84 | the response, agent call count and insert of the route; characterised by `RoadmapRoute.LevelGuardFirst`, `RoadmapRoute.ExistingRoadmapServed`, `RoadmapRoute.EmptyGenerationFails`, `RoadmapRoute.GeneratedRoadmapShape` and `RoadmapRoute.SecondRequestServesStored` |
| RoadmapRoute.GetRoadmap | backend/routes/roadmap.py:22-89 | the route gives the response, agent call count and insert of `RoadmapOutcome`: guards in order, then the stored roadmap, else generation, conversion and insertion |
| RoadmapRoute.LevelGuardFirst | backend/routes/roadmap.py:34-35 | a session without a level gets 400 before any agent call, and nothing is stored |
| RoadmapRoute.ExistingRoadmapServed | backend/routes/roadmap.py:44-54 | a stored roadmap is served with no agent call and no insert; an absent status reads as false |
| RoadmapRoute.EmptyGenerationFails | backend/routes/roadmap.py:66-67 | an agent that returns no weeks gives 500, and nothing is stored |
| RoadmapRoute.GeneratedRoadmapShape | backend/routes/roadmap.py:69-84 | a generated roadmap keeps the agent's week numbers, week order, task counts and texts; every task starts incomplete; links stay None or become their `str()`; exactly the returned weeks are stored |
| RoadmapRoute.SecondRequestServesStored | backend/routes/roadmap.py:40-84 | once a generated roadmap is stored, asking again serves the same weeks with no agent call |
| RoadmapPage.Key | frontend/src/pages/Roadmap/Roadmap.jsx:36 | the `${weekIndex}-${taskIndex}` key; characterised by `RoadmapPage.KeyInjective` |
| RoadmapPage.DashSplit | frontend/src/pages/Roadmap/Roadmap.jsx:36 | two digit strings joined by a dash split back only one way |
| RoadmapPage.KeyInjective | frontend/src/pages/Roadmap/Roadmap.jsx:36 | distinct (week, task) positions have distinct "w-t" keys |
| RoadmapPage.InitialStatus | frontend/src/pages/Roadmap/Roadmap.jsx:33-38 | the nested loops give one key per task position, holding that task's `isCompleted`, and no other key |
| RoadmapPage.Checked | frontend/src/pages/Roadmap/Roadmap.jsx:54 | JavaScript truthiness of `status[key]`, an absent key reading as false; characterised by `RoadmapPage.Toggle`, `RoadmapPage.ToggleTwice` and `RoadmapPage.Marks` |
| RoadmapPage.Toggle | frontend/src/pages/Roadmap/Roadmap.jsx:51-55 | the key "w-t" is set to the negation of what it read as (absent reads as false); every other key is unchanged |
| RoadmapPage.ToggleTwice | frontend/src/pages/Roadmap/Roadmap.jsx:51-55 | toggling twice restores every key's reading, and the map itself when the key was present |
| RoadmapPage.Marks | frontend/src/pages/Roadmap/Roadmap.jsx:61 | the checkbox reading of each of a week's task positions, in order |
| RoadmapPage.CountTrue | frontend/src/pages/Roadmap/Roadmap.jsx:61 | the length of the `filter`: at most the number of marks; `RoadmapPage.CountTrueAll` and `RoadmapPage.CountTrueNone` give when it is all or none of them |
| RoadmapPage.CountTrueAll | frontend/src/pages/Roadmap/Roadmap.jsx:61-63 | the count equals the number of tasks exactly when every mark is set |
| RoadmapPage.CountTrueNone | frontend/src/pages/Roadmap/Roadmap.jsx:61-65 | the count is zero exactly when no mark is set |
| RoadmapPage.GetWeekStatus | frontend/src/pages/Roadmap/Roadmap.jsx:57-66 | completed exactly when the week has tasks and all are checked; active exactly when some are checked and some are not; pending exactly when none is checked, an empty week included |
| RoadmapPage.BulletContent | frontend/src/pages/Roadmap/Roadmap.jsx:68-70 | a completed week, and only a completed week, gets a non-empty bullet: the literal's three characters U+201A U+00FA U+00EC, which are the UTF-8 bytes of a check mark read as Mac Roman |
| RoadmapPage.LoadedWeekStatus | frontend/src/pages/Roadmap/Roadmap.jsx:33-66 | on a freshly loaded page, a week is completed exactly when it has tasks and all their `isCompleted` are true |
| TrackerPage.ActiveRoadmap | frontend/src/pages/Tracker/Tracker.jsx:42 | `sessionData.careerTracks[0].roadmap` when session data and track 0 exist (also read at frontend/src/pages/Tracker/Tracker.jsx:60); characterised by `TrackerPage.TaskPayload` and `TrackerPage.UpdatedSession` |
| TrackerPage.TaskPayload | frontend/src/pages/Tracker/Tracker.jsx:41-49 | the request names the number of week `weekIndex` of track 0, the task's text and link, and the negation of its status; it cannot be built exactly when that week does not exist |
| TrackerPage.FindWeek | frontend/src/pages/Tracker/Tracker.jsx:63 | `findIndex` gives the first position holding the returned week's number, or none when no week has it |
| TrackerPage.ReplaceWeek | frontend/src/pages/Tracker/Tracker.jsx:63-66 | the roadmap keeps its length; the first week with that number is replaced and every other week kept; with no match nothing changes |
| TrackerPage.UpdatedSession | frontend/src/pages/Tracker/Tracker.jsx:56-70 | null stays null; every field but the tracks, every track but 0, and track 0's title pass through; the session is unchanged without a roadmap on track 0, and otherwise track 0's roadmap has the week replaced |
| TrackerPage.UpdateSessionData | frontend/src/pages/Tracker/Tracker.jsx:56-70 | the updater as written, copying both arrays and assigning into the copies, computes that session |
| TrackerPage.UnmatchedWeekChangesNothing | frontend/src/pages/Tracker/Tracker.jsx:63-69 | a returned week whose number matches no week of track 0 leaves the session data unchanged |
| TrackerPage.UpdateLandsAtClickedWeek | frontend/src/pages/Tracker/Tracker.jsx:42-66 | when track 0's week numbers are distinct, the returned week for the clicked week replaces exactly that week |
| TrackerPage.PayloadNamesStoredTask | frontend/src/pages/Tracker/Tracker.jsx:41-49 | a request built from a page showing the stored roadmap names a stored task, so the backend answers with the week rather than 404 |
| TrackerPage.HandleTaskStatusChange | frontend/src/pages/Tracker/Tracker.jsx:38-74 | without a session, or when the request cannot be built, nothing is sent and nothing changes; a reply updates the session data; a failure sets only the error message |
| QuizPage.Opened | frontend/src/pages/Quiz/Quiz.jsx:20-25 | with questions and a quiz id in the navigation state, the page holds those questions and one empty answer each; otherwise it keeps its state |
| QuizPage.AnswerChange | frontend/src/pages/Quiz/Quiz.jsx:27-31 | the copy holds the new value at the index; its length and every other answer are unchanged |
| QuizPage.Payload | frontend/src/pages/Quiz/Quiz.jsx:47-50 | one entry per question, in order, pairing its text with the answer at the same index (undefined past the answers) |
| QuizPage.HasBlank | frontend/src/pages/Quiz/Quiz.jsx:39 | `some(answer => answer.trim() === '')`; characterised by `QuizPage.SubmitQuiz`, `QuizPage.SentAnswersFilled` and `QuizPage.FreshQuizRefused` |
| QuizPage.SubmitQuiz | frontend/src/pages/Quiz/Quiz.jsx:33-50 | no session is refused first; then a blank answer is refused; the payload is sent exactly when neither applies |
| QuizPage.SentAnswersFilled | frontend/src/pages/Quiz/Quiz.jsx:39-50 | every answer sent from an aligned quiz is present and holds a non-whitespace character |
| QuizPage.FreshQuizRefused | frontend/src/pages/Quiz/Quiz.jsx:20-42 | a freshly opened quiz with questions cannot be submitted before it is answered |
| QuizPage.SettleSubmission | frontend/src/pages/Quiz/Quiz.jsx:52-61 | the page navigates, carrying the level, exactly when the reply has a level and the expected next step; otherwise it shows the matching error |
| QuizPage.DetectedLevelNavigates | backend/routes/quiz.py:41 | the backend's reply, a detected level with the recommendation step, always moves the quiz page on |

## Left out

- Model, agent and search calls (Groq, LangChain, Tavily) are inputs, not code. Prompts and agent construction are not modelled.
- A non-string reply content or "output" (`str(raw_response)`, a non-string `output`) is not modelled: a reply is a string or an exception.
- `json.loads` is a parameter. So the parse failure of the greedy two-array candidate is not stated: `Extraction.TwoBareArrays` shows that candidate, not its parse.
- Extraction.ObjectListRecovered: covers object bodies without `}` and the same blank run after every comma. Blanks before a comma, separators that differ, and nested objects are not covered by a whole-array lemma; for them, the match is characterised only by `Patterns.CloseFromNone` and `Patterns.CloseFromFirst`.
- Python's `str()` of a list or dict link is a placeholder in `JsonModel.PyStr`, because dictionary order and repr formatting are not modelled.
- JSON floats are parsed values (`JsonModel.JFloat`) that carry the text Python's `repr` gives them: float parsing and formatting are not modelled, and `str()` of a float link is that text. The schema checks look only at keys, so a float `id`, `title` or `resourceLink` passes them as it does in Python.
- Pydantic v2's lax conversions of a generated week number (a numeric string such as `"3"`, an integral float such as `3.0`, or a bool) are not modelled: `RoadmapRoute.ConvertWeek` accepts only a JSON integer, so such an entry gives a 500 error where the route would store it. A non-string `task` is rejected by Pydantic v2 as well, and `RoadmapRoute.ConvertTask` models that 500 error.
- `asyncio.sleep` is recorded as a delay, not performed. Logging (`print`, `traceback`) is not modelled.
- The database (MongoDB lookups, `ObjectId` parsing, the `CareerTrackDocument` and `FullCareerTrack` validation and the track echoed in the response) is not modelled. `RoadmapRoute.GetRoadmap` returns only the weeks.
- The roadmap route's 500 for an exception from `generate_roadmap` cannot happen, since that method catches every exception; it is not modelled.
- The summary route's copy of the stored-task normalisation is not modelled separately; it is the same as `Records.NormalizeWeeks`.
- Stored tasks are assumed to carry a `task` key. The tracker routes would raise on one without it.
- Record fields are taken to hold values of their declared types; JavaScript's `undefined` is modelled only where the pages produce it.
- Strings are sequences of code points. JavaScript's UTF-16 lengths and Unicode normalisation are not modelled.
- QuizPage.AnswerChange: requires the index to be inside the answers; JavaScript would extend the array with holes, which the page never does.
- The pages' fetch effects (`fetchRoadmap`, `fetchSessionData`), loading flags, rendering, bullet classes and the Loader animation are not modelled. The roadmap page model takes the fetched weeks directly.
- React's batching and interleaving of state updates are not modelled. The tracker page's updater is applied to the state at the time of the reply.
- The quiz page's request uses `location.state.quizId`, whose throw when the state is missing lands in the same error branch as a failed request. It is modelled as a `Failed` reply.
- The frontend's API paths and response shapes are taken as the pages expect them. The page posts to `/submit-answers`, and the roadmap page iterates the response directly, while the backend replies with an object holding `track` and `roadmap`.
- The quiz route's rule of exactly ten answers is not modelled; only its response is (`QuizPage.DetectedLevelNavigates`).
