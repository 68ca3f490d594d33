# funx-explorer-widget — a verified model of its rules and state machines

funx-explorer-widget is an interactive explorer of parent functions: constant, identity, quadratic, cubic,
square root, reciprocal, absolute value, exponential, logarithm and greatest integer. This project models
and proves properties of four pieces of its logic:

- **The function catalogue** (`catalog.dfy`, module `Catalog`). It has:
  - the ten-entry table with its metadata strings and two practice questions per entry;
  - the domain-guarded evaluators, which return `None` where the source returns NaN;
  - `getFunction`, the lookup by id with a fallback to the first entry.
- **The graph view's rules** (`graph_display.dfy`, module `GraphDisplay`). It has:
  - the per-function plotted range;
  - the uniform sampling grid and its null-marking rule: an excluded band around zero, non-finite
    values, and values of magnitude 100 or more;
  - the three conditions that decide whether the x-intercept, y-intercept and extremum reference lines
    are drawn, and where;
  - the axis tick label.
- **The practice-question panel** (`panel_logic.dfy`, module `PanelLogic`; `question_panel.dfy`,
  module `QuestionPanel`).
  - `PanelLogic` holds the pure parts: JavaScript's `trim` and `toLowerCase`, the answer check, and the
    cyclic question index.
  - `QuestionPanel.Panel` is a class whose methods update the panel's state: the question index, the
    typed answer, the hint flag and the feedback.
- **The end-behaviour tutorial** (`end_behavior_tutorial.dfy`, module `EndBehaviorTutorial`;
  `tutorial_graph.dfy`, module `TutorialGraph`).
  - `EndBehaviorTutorial.Tutorial` is a class holding the tutorial's state: the step, the three
    selections, the two inputs, the log of accepted answers, the feedback, the verdict, the progress
    counter, the completion flag and the studied end. Its methods are the handlers and the cycle-start
    effect.
  - `Valid()` is the invariant every handler keeps: each step already passed was answered correctly,
    and until completion the log holds one entry per step passed.
  - `TutorialGraph` holds the small graph: the sampling loop, the pixel scales, and the `generatePath`
    loop that splits the curve into segments at points outside the drawing box.

`wrappers.dfy` (module `Wrappers`) holds the `Option` type.

How the source's features are represented:

- **NaN and infinite values:** `None`.
- **`Math.sqrt`, `Math.exp`, `Math.log`:** the fields of a `Libm` record supplied by the caller.
  Lemmas that need a particular value, such as `log(1) = 0`, require it explicitly.
- **The two `Math.random` choices** of the cycle-start effect: the parameters `randomIndex` and
  `endType`.
- **Number-to-text conversion** in template literals and `toString`: a function parameter (`fmt`,
  `show`).
- **Feedback lines and log entries of the tutorial:** the datatypes `Message` and `LogItem`.
  `MessageText` and `LogText` map them to the exact strings the source shows.
- **Rendering gates:** a handler whose button is shown only in some states requires those states.
  For example:
  - each tutorial handler requires the step that renders its buttons;
  - Submit requires both selects to be filled in, since it is disabled otherwise;
  - Complete Tutorial requires the summary step and three examples;
  - Next Question requires more than one question.

Restart on the completion screen: the "Restart Tutorial" button (EndBehaviorTutorial.tsx:448-453)
calls `handleRestartTutorial` (418-427).

- That handler resets the step and clears the selections, inputs, verdict and feedback.
- It never clears `completed` or `progress`.
- The cycle-start effect does not run while `completed` is true.

So the completion screen (437-455) is shown again. `EndBehaviorTutorial.Tutorial.HandleRestartTutorial`
models that code as written, and "## Findings" records it next to a corrected restart.

## Model

| member | source | states |
|---|---|---|
| Catalog.IdName | src/data/functionData.ts:2-12 | the string of the `FunctionType` union each id stands for (see IdNameInjective) |
| Catalog.IdNameInjective | src/data/functionData.ts:2-12 | the ten ids are distinct strings, so comparing ids is comparing the source's strings |
| Catalog.Abs | src/data/functionData.ts:203 | `Math.abs(x)` is non-negative and is `x` or `-x` |
| Catalog.Evaluate | src/data/functionData.ts:41-284 | every evaluator is undefined (NaN) exactly outside its function's domain |
| Catalog.EvaluateClosedForms | src/data/functionData.ts:41-203 | constant is always 3, identity is x, reciprocal is 1/x except NaN at 0, absolute value is `x` or `-x` and never negative |
| Catalog.GuardedEvaluators | src/data/functionData.ts:149-257 | square root is NaN iff x < 0, reciprocal iff x = 0, logarithm iff x <= 0 |
| Catalog.ConstantEntry | src/data/functionData.ts:36-62 | the constant function f(x) = 3 entry: its id, name, formula and the metadata and question strings of the table, with its evaluator selected by the id (see Evaluate and TwoQuestionsEach) |
| Catalog.IdentityEntry | src/data/functionData.ts:63-89 | the identity entry: its id, name, formula and the metadata and question strings of the table, with its evaluator selected by the id (see Evaluate and TwoQuestionsEach) |
| Catalog.QuadraticEntry | src/data/functionData.ts:90-116 | the quadratic entry: its id, name, formula and the metadata and question strings of the table, with its evaluator selected by the id (see Evaluate and TwoQuestionsEach) |
| Catalog.CubicEntry | src/data/functionData.ts:117-143 | the cubic entry: its id, name, formula and the metadata and question strings of the table, with its evaluator selected by the id (see Evaluate and TwoQuestionsEach) |
| Catalog.SquareRootEntry | src/data/functionData.ts:144-170 | the square root entry: its id, name, formula and the metadata and question strings of the table, with its evaluator selected by the id (see Evaluate and TwoQuestionsEach) |
| Catalog.ReciprocalEntry | src/data/functionData.ts:171-197 | the reciprocal entry: its id, name, formula and the metadata and question strings of the table, with its evaluator selected by the id (see Evaluate and TwoQuestionsEach) |
| Catalog.AbsoluteValueEntry | src/data/functionData.ts:198-224 | the absolute value entry: its id, name, formula and the metadata and question strings of the table, with its evaluator selected by the id (see Evaluate and TwoQuestionsEach) |
| Catalog.ExponentialEntry | src/data/functionData.ts:225-251 | the exponential entry: its id, name, formula and the metadata and question strings of the table, with its evaluator selected by the id (see Evaluate and TwoQuestionsEach) |
| Catalog.LogarithmicEntry | src/data/functionData.ts:252-278 | the logarithm entry: its id, name, formula and the metadata and question strings of the table, with its evaluator selected by the id (see Evaluate and TwoQuestionsEach) |
| Catalog.GreatestIntegerEntry | src/data/functionData.ts:279-305 | the greatest integer entry: its id, name, formula and the metadata and question strings of the table, with its evaluator selected by the id (see Evaluate and TwoQuestionsEach) |
| Catalog.Functions | src/data/functionData.ts:35-306 | the ten entries in the source's order (see CatalogCoversEveryId) |
| Catalog.IndexOf | src/data/functionData.ts:35-306 | every id has a table position holding an entry with that id |
| Catalog.CatalogCoversEveryId | src/data/functionData.ts:35-306 | the table has ten entries, each at the position of its own id, with pairwise distinct ids, also as the source's id strings |
| Catalog.TwoQuestionsEach | src/data/functionData.ts:50-297 | every entry carries exactly two practice questions |
| Catalog.ExtremaEntries | src/data/functionData.ts:46-289 | `extrema` is non-null for exactly the quadratic, cubic and absolute-value entries |
| Catalog.Find | src/data/functionData.ts:309 | `find` yields an entry of the list with the id, or nothing exactly when no entry has it |
| Catalog.FindIsFirst | src/data/functionData.ts:309 | `find` yields the first entry carrying the id |
| Catalog.GetFunction | src/data/functionData.ts:308-310 | the entry returned is in the table and has the requested id, so the fallback never fires |
| Catalog.GetFunctionIsEntry | src/data/functionData.ts:308-310 | looking up an entry's id returns that very entry |
| Catalog.GetFunctionAt | src/data/functionData.ts:308-310 | `getFunction(id)` is the entry of `id` at that id's position in the table |
| GraphDisplay.GetRange | src/components/GraphDisplay.tsx:32-43 | every range is non-empty with a positive point count; the zero band is excluded exactly for the reciprocal |
| GraphDisplay.RangeTable | src/components/GraphDisplay.tsx:32-43 | logarithmic [0.01, 10] with 200 points; reciprocal [-10, 10] with 400 points and the zero band; square root [0, 10] with 200; all others [-10, 10] with 200 |
| GraphDisplay.GridX | src/components/GraphDisplay.tsx:47-49 | grid point i is `min + step * i` with `step = (max - min) / points` (see GridEnds) |
| GraphDisplay.GridEnds | src/components/GraphDisplay.tsx:47-49 | the grid starts at `min`, ends at `max` after `points` steps, and strictly increases |
| GraphDisplay.SampleY | src/components/GraphDisplay.tsx:52-58 | y is null inside the excluded band; otherwise y is defined iff f(x) is defined and below 100 in magnitude; a defined y equals f(x) |
| GraphDisplay.Data | src/components/GraphDisplay.tsx:47-60 | exactly `points + 1` samples, sample i at grid point i with the sampled y |
| GraphDisplay.FunctionSamples | src/components/GraphDisplay.tsx:45-60 | a catalogue function's data has `points + 1` samples, the first at `min` and the last at `max` |
| GraphDisplay.ReciprocalNullOnlyAtZero | src/components/GraphDisplay.tsx:36-58 | for the reciprocal a sample is null exactly when its x lies in the band \|x\| < 0.05; on the exact grid that is the one sample at x = 0 |
| GraphDisplay.ReciprocalBounded | src/components/GraphDisplay.tsx:52-57 | outside the zero band, \|1/x\| <= 20, so it is below the plotting limit |
| GraphDisplay.QuadraticEndpointsCut | src/components/GraphDisplay.tsx:53-57 | for the quadratic the samples at x = -10 and x = 10 (y = 100) are null and every inner sample is plotted |
| GraphDisplay.GuardedGridsInDomain | src/components/GraphDisplay.tsx:34-39 | the square-root and logarithm grids lie inside their domains |
| GraphDisplay.XInterceptLine | src/components/GraphDisplay.tsx:165-168 | the x-intercept gate: shown, text not exactly "None", not reciprocal or greatest integer; at 1 for the logarithm, 0 otherwise (its properties over the catalogue are XInterceptLineCatalog) |
| GraphDisplay.YInterceptLine | src/components/GraphDisplay.tsx:176-179 | the y-intercept gate: shown, text not "None", not reciprocal or logarithm; at 1 for the exponential, 0 otherwise (see YInterceptLineCatalog) |
| GraphDisplay.ExtremumLine | src/components/GraphDisplay.tsx:187-192 | the extremum gate: shown, a non-empty extremum text, not greatest integer, quadratic or absolute value only; at x = 0 (see ExtremumLineCatalog) |
| GraphDisplay.XInterceptLineCatalog | src/components/GraphDisplay.tsx:165-168 | with intercepts shown, the x-intercept line is drawn for every function except exponential, reciprocal and greatest integer, at 1 for the logarithm and 0 otherwise; with intercepts hidden, never |
| GraphDisplay.YInterceptLineCatalog | src/components/GraphDisplay.tsx:176-179 | the y-intercept line is drawn for every function except reciprocal and logarithm, at 1 for the exponential and 0 otherwise; never when hidden |
| GraphDisplay.ExtremumLineCatalog | src/components/GraphDisplay.tsx:187-192 | the extremum line is drawn only for the quadratic and absolute value, at x = 0; the cubic is excluded; never when hidden |
| GraphDisplay.ConstantInterceptLinesOffCurve | src/components/GraphDisplay.tsx:165-179 | as written, the constant function f = 3 gets an x-intercept line at 0 and a y-intercept line at 0, neither on its graph |
| GraphDisplay.InterceptTextsSayingNone | src/data/functionData.ts:44-288 | which entries' intercept texts start with "None" |
| GraphDisplay.InterceptTextsSayingNoneById | src/data/functionData.ts:44-288 | x-intercept texts start with "None" exactly for constant, reciprocal and exponential; y-intercept texts exactly for reciprocal and logarithm |
| GraphDisplay.XInterceptLineCorrected | src/components/GraphDisplay.tsx:165-168 | the x-intercept gate with "starts with None" in place of "is exactly None" (its property is CorrectedXInterceptLineOnCurve) |
| GraphDisplay.YInterceptLineCorrected | src/components/GraphDisplay.tsx:176-179 | the y-intercept line placed at the function's value at 0 (its property is CorrectedYInterceptLineOnCurve) |
| GraphDisplay.CorrectedXInterceptLineOnCurve | src/components/GraphDisplay.tsx:165-168 | with the "starts with None" gate, every drawn x-intercept line sits where the function is 0, and only the constant's line disappears |
| GraphDisplay.CorrectedYInterceptLineOnCurve | src/components/GraphDisplay.tsx:176-179 | with the line placed at f(0), every drawn y-intercept line is on the curve, and only the constant's line moves, from 0 to 3 |
| GraphDisplay.TickLabel | src/components/GraphDisplay.tsx:63-66 | values of magnitude below 0.001 print as "0", others through the number formatter |
| PanelLogic.TrimStart | src/components/QuestionPanel.tsx:34 | the result is a suffix, everything dropped is whitespace, and it does not start with whitespace |
| PanelLogic.TrimEnd | src/components/QuestionPanel.tsx:34 | the result is a prefix, everything dropped is whitespace, and it does not end with whitespace |
| PanelLogic.Trim | src/components/QuestionPanel.tsx:34 | the result has no whitespace at either end, is no longer than the input, and is empty iff the input is all whitespace |
| PanelLogic.TrimStartSkipsPadding | src/components/QuestionPanel.tsx:34 | leading whitespace does not change the start-trimmed form |
| PanelLogic.TrimEndSkipsPadding | src/components/QuestionPanel.tsx:34 | trailing whitespace does not change the end-trimmed form |
| PanelLogic.TrimOfPadded | src/components/QuestionPanel.tsx:34 | trimming whitespace-padded edge-clean text yields that text |
| PanelLogic.TrimSplit | src/components/QuestionPanel.tsx:34 | every string is its trimmed form with whitespace padding on both sides |
| PanelLogic.TrimIdempotent | src/components/QuestionPanel.tsx:34 | trimming twice equals trimming once |
| PanelLogic.TrimOfClean | src/components/QuestionPanel.tsx:34 | edge-clean text is unchanged by trimming |
| PanelLogic.TrimIgnoresPadding | src/components/QuestionPanel.tsx:34 | adding whitespace around any string leaves its trimmed form unchanged |
| PanelLogic.WhitespaceConcat | src/components/QuestionPanel.tsx:34 | two all-whitespace strings concatenate to an all-whitespace string |
| PanelLogic.LowerChar | src/components/QuestionPanel.tsx:43 | lower-casing keeps whitespace as whitespace and leaves no ASCII capital |
| PanelLogic.ToLower | src/components/QuestionPanel.tsx:43 | same length, each character lower-cased |
| PanelLogic.ToLowerIdempotent | src/components/QuestionPanel.tsx:43 | lower-casing twice equals lower-casing once |
| PanelLogic.ToLowerAppend | src/components/QuestionPanel.tsx:43 | lower-casing distributes over concatenation |
| PanelLogic.TrimToLowerCommute | src/components/QuestionPanel.tsx:43 | `toLowerCase().trim()` equals `trim().toLowerCase()` |
| PanelLogic.LowerKeepsWhitespace | src/components/QuestionPanel.tsx:34-43 | a string is all whitespace iff its lower-cased form is |
| PanelLogic.LowerKeepsEdges | src/components/QuestionPanel.tsx:43 | lower-casing keeps whether the ends are whitespace |
| PanelLogic.IsCorrectAnswer | src/components/QuestionPanel.tsx:43 | the comparison `userAnswer.toLowerCase().trim() === answer.toLowerCase()` (its properties are the AnswerCheck lemmas below) |
| PanelLogic.AnswerCheckIsTrimThenLower | src/components/QuestionPanel.tsx:43 | the answer is correct iff lowercase(trim(answer)) equals lowercase(expected) |
| PanelLogic.AnswerCheckIgnoresPaddingAndCase | src/components/QuestionPanel.tsx:43 | whitespace around, and letter case of, the user's answer never change the verdict |
| PanelLogic.PaddedExpectedNeverMatches | src/components/QuestionPanel.tsx:43 | an expected answer that starts or ends with whitespace is never matched, because it is not trimmed |
| PanelLogic.CleanExpectedMatchesItself | src/components/QuestionPanel.tsx:43 | an edge-clean expected answer is accepted when typed as is |
| PanelLogic.NextIndex | src/components/QuestionPanel.tsx:64 | `(i + 1) % n` stays below n and wraps to 0 exactly after the last question |
| PanelLogic.IndexAfterBelow | src/components/QuestionPanel.tsx:63-69 | fewer than n presses of Next Question from 0 reach question k |
| PanelLogic.IndexAfterPeriodic | src/components/QuestionPanel.tsx:63-69 | n more presses return to the same question |
| PanelLogic.IndexAfterIsMod | src/components/QuestionPanel.tsx:63-69 | after k presses from 0 the index is k mod n |
| QuestionPanel.TwoQuestionsAlternate | src/components/QuestionPanel.tsx:63-69 | with the catalogue's two questions per function, the index alternates 0, 1, 0, 1, ... |
| QuestionPanel.NoFeedback | src/components/QuestionPanel.tsx:16-19 | the empty feedback of the initial state and of every reset |
| QuestionPanel.CorrectFeedback | src/components/QuestionPanel.tsx:46-49 | the success feedback "Correct! Well done." |
| QuestionPanel.WrongFeedback | src/components/QuestionPanel.tsx:56-59 | the error feedback "That's not quite right. Try again or check the hint." |
| QuestionPanel.Verdict | src/components/QuestionPanel.tsx:33-60 | a blank answer gives no verdict; otherwise success feedback iff the answer check passes and error feedback iff it fails |
| QuestionPanel.Panel.constructor | src/components/QuestionPanel.tsx:12-19 | the first question, empty answer, hint hidden, no feedback |
| QuestionPanel.Panel.CurrentQuestion | src/components/QuestionPanel.tsx:31 | the displayed question is one of the function's questions |
| QuestionPanel.Panel.NextQuestionOffered | src/components/QuestionPanel.tsx:102-110 | Next Question is rendered exactly when the function has more than one question; NextQuestion requires it |
| QuestionPanel.Panel.ChangeFunction | src/components/QuestionPanel.tsx:24-29 | a new function resets the index to 0 and clears the answer, hint and feedback |
| QuestionPanel.Panel.SetUserAnswer | src/components/QuestionPanel.tsx:84 | typing sets the answer text and nothing else |
| QuestionPanel.Panel.CheckAnswer | src/components/QuestionPanel.tsx:33-61 | feedback becomes the verdict on the answer to the displayed question and is unchanged for a blank answer; index, answer and hint are never touched |
| QuestionPanel.Panel.NextQuestion | src/components/QuestionPanel.tsx:63-110 | offered only with more than one question; the index advances modulo the question count, stays valid and always changes; answer, hint and feedback are cleared |
| QuestionPanel.Panel.ToggleHint | src/components/QuestionPanel.tsx:96 | the hint flag flips and nothing else changes |
| QuestionPanel.ToggleHintTwice | src/components/QuestionPanel.tsx:96 | two presses of the hint button leave the panel as it was |
| TutorialGraph.XScale | src/components/EndBehaviorTutorial.tsx:50 | x in [-10, 10] stretched onto [0, 540] pixels (its property is VisibleRegion) |
| TutorialGraph.YScale | src/components/EndBehaviorTutorial.tsx:51 | y in [-10, 10] stretched onto [350, 0] pixels (see VisibleRegion) |
| TutorialGraph.InBox | src/components/EndBehaviorTutorial.tsx:62 | the drawing test: the full width and 50 pixels of slack above and below (see VisibleRegion) |
| TutorialGraph.Visible | src/components/EndBehaviorTutorial.tsx:59-62 | a point is drawn when its pixel position is in the box (see VisibleRegion) |
| TutorialGraph.VisibleRegion | src/components/EndBehaviorTutorial.tsx:28-62 | a point is inside the drawing box iff -10 <= x <= 10 and -90/7 <= y <= 90/7 |
| TutorialGraph.GridPoint | src/components/EndBehaviorTutorial.tsx:37-39 | grid point k is -10 + 0.2 k, the exact value of the loop variable after k steps (see DefinedSamplesSound and SampledPointsInView) |
| TutorialGraph.DefinedSamples | src/components/EndBehaviorTutorial.tsx:39-44 | the defined samples of the first n grid points, in order; SamplePoints is proved equal to it and DefinedSamplesSound states what it holds |
| TutorialGraph.SamplePoints | src/components/EndBehaviorTutorial.tsx:35-47 | the loop keeps, in grid order, the defined samples of the 101 grid points -10, -9.8, ..., 10 |
| TutorialGraph.DefinedSamplesSound | src/components/EndBehaviorTutorial.tsx:39-44 | every kept point is a defined value at a grid point, x strictly increases, and every defined grid point is kept |
| TutorialGraph.SampledPointsInView | src/components/EndBehaviorTutorial.tsx:39-62 | every sampled point lies in [-10, 10] horizontally, so whether it is drawn depends on y alone |
| TutorialGraph.DefinedSamplesPrefix | src/components/EndBehaviorTutorial.tsx:39-44 | sampling more grid points only extends the list of kept samples |
| TutorialGraph.UndefinedSampleDropped | src/components/EndBehaviorTutorial.tsx:39-44 | an undefined grid point between two defined ones is dropped, so the two defined samples are neighbours in the list |
| TutorialGraph.Piece | src/components/EndBehaviorTutorial.tsx:58-71 | what one point adds to the path: nothing outside the box, a move at the start or after a point outside the box, a line otherwise (GeneratePath is proved to build it) |
| TutorialGraph.PathUpTo | src/components/EndBehaviorTutorial.tsx:54-75 | the path after the first n points, the pieces in order; GeneratePath is proved equal to it |
| TutorialGraph.PieceAfterVisible | src/components/EndBehaviorTutorial.tsx:62-68 | a point in the box right after another point in the box adds a " L " line |
| TutorialGraph.UndefinedSampleKeepsLine | src/components/EndBehaviorTutorial.tsx:39-75 | an undefined sample between two drawn samples does not break the curve: the later point is joined to the earlier by a line, not a new move |
| TutorialGraph.GeneratePath | src/components/EndBehaviorTutorial.tsx:54-75 | the loop builds, point by point, nothing for a point outside the box, a move after such a point or at the start, and a line otherwise |
| TutorialGraph.PathEmptyIff | src/components/EndBehaviorTutorial.tsx:54-75 | the path is empty iff no point is in the box |
| TutorialGraph.PathStartsWithMove | src/components/EndBehaviorTutorial.tsx:63-65 | a non-empty path starts with "M " |
| TutorialGraph.SegmentsJoinWithoutSpace | src/components/EndBehaviorTutorial.tsx:62-71 | a point outside the box starts a new segment, whose "M" is appended with no separating space |
| TutorialGraph.ConsecutivePointsJoinByLine | src/components/EndBehaviorTutorial.tsx:62-68 | two consecutive points in the box are joined by " L" |
| EndBehaviorTutorial.Step.Index | src/components/EndBehaviorTutorial.tsx:5-11 | the steps are numbered 0 to 4 |
| EndBehaviorTutorial.EndName | src/components/EndBehaviorTutorial.tsx:364-368 | the end's name "left" or "right" as it appears in the log and feedback texts |
| EndBehaviorTutorial.EndNameUpper | src/components/EndBehaviorTutorial.tsx:353 | the upper-cased end name "LEFT" or "RIGHT" of the x-direction rejection message |
| EndBehaviorTutorial.XTarget | src/components/EndBehaviorTutorial.tsx:344-387 | the direction x takes at the studied end (its property is XTargetNamesEnd) |
| EndBehaviorTutorial.Expected | src/components/EndBehaviorTutorial.tsx:376-400 | the example's end behaviour at the studied end: the left one at the left end, the right one otherwise |
| EndBehaviorTutorial.XTargetNamesEnd | src/components/EndBehaviorTutorial.tsx:344 | x goes to "-∞" exactly at the left end and to "∞" exactly at the right end |
| EndBehaviorTutorial.LogText | src/components/EndBehaviorTutorial.tsx:349-407 | the exact text of each log entry (see LogTextDistinguishes) |
| EndBehaviorTutorial.MessageText | src/components/EndBehaviorTutorial.tsx:348-432 | the exact text of each feedback message |
| EndBehaviorTutorial.LogTextDistinguishes | src/components/EndBehaviorTutorial.tsx:349-408 | log texts of different kinds differ, and within a kind the text determines the entry |
| EndBehaviorTutorial.LogEntry | src/components/EndBehaviorTutorial.tsx:349-408 | the entry appended when step k of a cycle is accepted: the x direction, the end, the f(x) direction, then the completed statement (see CycleLogEntries) |
| EndBehaviorTutorial.CycleLog | src/components/EndBehaviorTutorial.tsx:349-408 | a cycle's log after n accepted steps has n entries |
| EndBehaviorTutorial.CycleLogEntries | src/components/EndBehaviorTutorial.tsx:349-408 | entry k of the log is the one written when step k was accepted |
| EndBehaviorTutorial.ShowLeftEnd | src/components/EndBehaviorTutorial.tsx:475 | the left end is shown when studied or from step SelectEnd (see GraphFlags) |
| EndBehaviorTutorial.ShowRightEnd | src/components/EndBehaviorTutorial.tsx:476 | the right end is shown when studied or from step SelectEnd (see GraphFlags) |
| EndBehaviorTutorial.HighlightLeftEnd | src/components/EndBehaviorTutorial.tsx:477 | the left end is highlighted when selected, from step SelectYDirection (see GraphFlags) |
| EndBehaviorTutorial.HighlightRightEnd | src/components/EndBehaviorTutorial.tsx:478 | the right end is highlighted when selected, from step SelectYDirection (see GraphFlags) |
| EndBehaviorTutorial.GraphFlags | src/components/EndBehaviorTutorial.tsx:475-478 | the studied end is always shown; both ends are shown exactly from step SelectEnd; at most one end is highlighted, and only a shown one |
| EndBehaviorTutorial.Tutorial.constructor | src/components/EndBehaviorTutorial.tsx:311-338 | the initial state followed by the cycle-start effect: the chosen example and end, step 1, nothing selected, empty log, progress 0 |
| EndBehaviorTutorial.Tutorial.StartCycle | src/components/EndBehaviorTutorial.tsx:326-338 | a new cycle takes the chosen example and end and clears the log, feedback and verdict |
| EndBehaviorTutorial.Tutorial.HandleXDirectionSelect | src/components/EndBehaviorTutorial.tsx:341-355 | accepted iff the answer is "-∞" at the left end or "∞" at the right end: then step SelectEnd and one log entry; otherwise the rejection message, log and step unchanged; the selection is recorded either way |
| EndBehaviorTutorial.Tutorial.HandleEndSelect | src/components/EndBehaviorTutorial.tsx:358-370 | accepted iff the end is the studied end: then step SelectYDirection and one log entry; otherwise log and step unchanged; the selection is recorded either way |
| EndBehaviorTutorial.Tutorial.HandleYDirectionSelect | src/components/EndBehaviorTutorial.tsx:373-390 | accepted iff the answer is the example's f(x) direction at the studied end: then step CompleteEndBehavior and one log entry; otherwise log and step unchanged |
| EndBehaviorTutorial.Tutorial.SetUserEndBehaviorX | src/components/EndBehaviorTutorial.tsx:561-569 | the x select sets its input and keeps the invariant |
| EndBehaviorTutorial.Tutorial.SetUserEndBehaviorFx | src/components/EndBehaviorTutorial.tsx:571-579 | the f(x) select sets its input and keeps the invariant |
| EndBehaviorTutorial.Tutorial.HandleEndBehaviorSubmit | src/components/EndBehaviorTutorial.tsx:393-415 | accepted iff both inputs equal the example's x and f(x) at the studied end: then the summary step, one log entry and progress + 1; otherwise everything but the verdict and message unchanged, progress included |
| EndBehaviorTutorial.Tutorial.ClearCycle | src/components/EndBehaviorTutorial.tsx:418-427 | step 1 with the three selections, both inputs, the verdict and the feedback cleared |
| EndBehaviorTutorial.Tutorial.HandleRestartTutorial | src/components/EndBehaviorTutorial.tsx:418-427 | back to step 1 with selections, inputs, verdict and feedback cleared; progress and completion untouched; a new cycle starts only before completion |
| EndBehaviorTutorial.Tutorial.HandleRestartTutorialCorrected | src/components/EndBehaviorTutorial.tsx:418-455 | corrected restart: from the completion screen it clears completion and progress (so Complete Tutorial is no longer offered) and starts a fresh cycle at step 1; from the summary it is the restart as written |
| EndBehaviorTutorial.Tutorial.CompleteOffered | src/components/EndBehaviorTutorial.tsx:592-629 | Complete Tutorial is rendered only in the summary, before completion, with progress >= 3; HandleCompleteTutorial requires it |
| EndBehaviorTutorial.Tutorial.HandleCompleteTutorial | src/components/EndBehaviorTutorial.tsx:430-433 | offered only in the summary with progress >= 3; sets the completion flag and the congratulation message |
| EndBehaviorTutorial.HighlightIsStudiedEnd | src/components/EndBehaviorTutorial.tsx:477-478 | in any reachable state, a highlighted end is the studied end |
| EndBehaviorTutorial.LogTracksStep | src/components/EndBehaviorTutorial.tsx:349-409 | until completion, the log has one entry per step passed |
| EndBehaviorTutorial.RestartKeepsCompletionScreen | src/components/EndBehaviorTutorial.tsx:418-455 | as written, Restart Tutorial on the completion screen leaves `completed` set and progress unchanged, so the completion screen is shown again |
| EndBehaviorTutorial.PlaySelections | src/components/EndBehaviorTutorial.tsx:341-390 | three correct selections lead from step 1 to the statement step with three log entries, example and end unchanged |
| EndBehaviorTutorial.PlayCycle | src/components/EndBehaviorTutorial.tsx:341-415 | a correctly answered cycle ends in the summary with the four expected log entries and progress + 1 |

## Left out

- Page layout, the control panel and the visualizer wiring: these are callbacks and default flag values with no logic. So are all SVG and JSX markup, colours, arrows and label components, and the explanation texts in the summary.
- recharts rendering, including `connectNulls`: it lives inside a library whose code is not part of this model, so nothing is claimed about drawn gaps.
- The window resize listener and `isMobile`: these are DOM events.
- Toast notifications of the question panel: these are foreign calls. The model keeps only their absence of effect on the panel's state.
- `Math.random`: the chosen example index and studied end are method parameters.
- Floating point:
  - reals are exact;
  - the tutorial's `x += 0.2` accumulation is modelled as the exact grid -10 + k/5 for k = 0..100 (the float sum can drift);
  - overflow to Infinity (for example `exp(710)`) is not modelled;
  - `Math.pow(x, 2)` and `Math.pow(x, 3)` are the exact products `x * x` and `x * x * x`;
  - `Math.sqrt`, `Math.exp` and `Math.log` are abstract functions supplied by the caller.
- `toString`, template-literal number formatting and `toFixed`: a formatter function parameter. The progress-bar percentage is display only.
- The `tutorialFunctions` data is not part of this model. The tutorial takes the example list as a constructor parameter, and an example's evaluator is not part of its record.
- React effect scheduling and stale closures: each handler is one atomic update, and the cycle-start effect is called where the code's dependency change fires it.
- PanelLogic.LowerChar: maps only the ASCII capitals. JavaScript's `toLowerCase` also maps the rest of Unicode, and can make a string longer (U+0130 becomes two code units), which the same-length `PanelLogic.ToLower` does not capture.
- EndBehaviorTutorial.MessageText and EndBehaviorTutorial.LogText: give the exact strings; the handlers store the typed `Message` and `LogItem` values rather than the strings.
- GraphDisplay.ReciprocalNullOnlyAtZero: its second clause (only sample 200 is null) holds on the exact grid only. In doubles, `-10 + 0.05 * 199` is -0.049999999999998934, which is also inside the band, so the program nulls samples 199 and 200. The first clause (null exactly inside the band) holds in both.
- EndBehaviorTutorial.LogTextDistinguishes: for the completed statement, it states only that the text identifies the kind, not both of its parts.

## Findings

| source | as written | input that shows it | evidently intended | confidence | as-written member | corrected member |
|---|---|---|---|---|---|---|
| src/components/GraphDisplay.tsx:165-168 | the x-intercept line is suppressed only by the exact text "None" | the constant function, whose text is "None (unless c = 0)", gets a line at x = 0, where f = 3 | no x-intercept line for a function declared to have none | not executed | GraphDisplay.ConstantInterceptLinesOffCurve | GraphDisplay.CorrectedXInterceptLineOnCurve |
| src/components/GraphDisplay.tsx:176-179 | the y-intercept line is drawn at y = 0 for every function but the exponential | the constant function: line at y = 0 while its y-intercept is (0, 3) | the line at the function's value at 0 | not executed | GraphDisplay.ConstantInterceptLinesOffCurve | GraphDisplay.CorrectedYInterceptLineOnCurve |
| src/components/EndBehaviorTutorial.tsx:418-455 | "Restart Tutorial" on the completion screen clears the cycle but never `completed` or `progress` | a completed tutorial: after pressing Restart Tutorial `completed` is still true, so the completion screen is rendered again | the restart the button names: completion and progress cleared and a fresh cycle started | not executed | EndBehaviorTutorial.RestartKeepsCompletionScreen | EndBehaviorTutorial.Tutorial.HandleRestartTutorialCorrected |
