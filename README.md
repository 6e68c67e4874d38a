# Learning app core: dashboard aggregation, progress upsert, question sampling, answer feedback

This project is a Dafny model of the logic at the centre of a children's
learning app. It covers four pieces, and it proves properties of each.

- **Parent dashboard** (`parent_dashboard.dfy`, module `ParentDashboard`). This piece works on a child's
  activity records and progress records. It builds:
  - the seven-bar weekly chart of stars and time, bucketed by calendar day;
  - the `today` / `week` / `month` / `all` time filter;
  - the summary cards: total time, total stars, rounded average accuracy and
    the activity count;
  - today's minutes;
  - the three strongest and three weakest skills, ranked by mastery;
  - the "Focus on …" advice line.

  Everything is a pure function of the records, the clock reading and a
  calendar-day function `dayOf`. It reproduces three quirks of the code:
  - `month` keeps every activity. The 30-day window date is computed but
    never consulted.
  - `week` is a rolling 7×24-hour window. The chart uses seven calendar days,
    so just after midnight the two disagree (`WeekFilterIsRolling`).
  - the chart is built once, when the dashboard loads, while today's time is
    read at every render. A page left open past midnight shows a stale last
    bar (`ChartGoesStaleAfterMidnight`).
- **Progress upsert** (`progress_service.dfy`, module `ProgressService`). The
  progress table is the field `records` of the class `ProgressTable`.
  - `UpdateProgress` finds the first record with the same child, subject and
    skill, by a loop.
  - If it finds one, it overwrites the mastery, adds one to the practice count
    (`|| 0` for a missing count) and stamps the time.
  - Otherwise it appends a new record with practice count one.
  - The store's replies to the lookup and to the write are parameters. So the
    model also captures the error paths:
    - a rejected or throwing write leaves the table alone and returns `null`;
    - a read that fails is treated as "not found" and creates a record. That
      can duplicate a key (`FailedLookupDuplicatesKey`).
- **Question sampling** (`questions_service.dfy`, module `QuestionsService`).
  `getByLevelId` takes the fetched questions, a shuffled copy (given as any
  rearrangement of them) and the first `min(10, n)` of that copy. A failed or
  throwing fetch gives the empty list.
- **Answer feedback** (`answer_feedback.dfy`, `math_question.dfy` and
  `reading_question.dfy`). The math and the reading question components share
  the same click/timer state machine, so it is modelled once:
  - the class `AnswerFeedback.AnswerCard`. It holds the state fields
    `selectedAnswer` and `showFeedback`, plus the pending timer callback;
  - the pure classification of the answer buttons.

  Each component module adds its own neutral button class and feedback texts. It
  also adds a whole answered question, including the feedback panel, as the
  method `AnswerSession`.

`records.dfy` (module `Records`) holds the shared record shapes.

## Model

| member | source | states |
|---|---|---|
| ParentDashboard.Filter | src/pages/ParentDashboard.jsx:55-58 | `filter` keeps an order-preserving subsequence of the list, and every kept element passes the test |
| ParentDashboard.Round | src/pages/ParentDashboard.jsx:110 | `Math.round` gives the integer r with x − ½ < r ≤ x + ½ |
| ParentDashboard.ProcessChartData | src/pages/ParentDashboard.jsx:51-68 | the chart always has exactly seven bars |
| ParentDashboard.ChartCoversLastSevenDays | src/pages/ParentDashboard.jsx:52-54 | bar i covers calendar day today − 6 + i: consecutive days, oldest first, the last bar is today |
| ParentDashboard.ChartOfNoActivities | src/pages/ParentDashboard.jsx:55-64 | with no activities every bar has zero stars and zero time |
| ParentDashboard.ChartAddsActivityToItsDay | src/pages/ParentDashboard.jsx:55-64 | one more activity adds its stars and time to the bar of its own calendar day and to no other bar |
| ParentDashboard.ChartStarsAreWeekStars | src/pages/ParentDashboard.jsx:51-68 | the stars of all seven bars sum to the stars of exactly the activities completed in the last seven calendar days |
| ParentDashboard.Total | src/pages/ParentDashboard.jsx:62-63 | the `reduce` sum of one field; how it fills the bars is stated by `ChartAddsActivityToItsDay` and `ChartStarsAreWeekStars` |
| ParentDashboard.KeptBy | src/pages/ParentDashboard.jsx:79-83 | the per-activity test of the time filter; what it keeps and drops for each mode is stated by `FilteredActivities` below |
| ParentDashboard.GetFilteredActivities | src/pages/ParentDashboard.jsx:70-85 | the result is an order-preserving subsequence of the activities; every kept activity passes the selected mode's test; `month` and `all` return the list unchanged |
| ParentDashboard.FilteredActivities | src/pages/ParentDashboard.jsx:70-85 | the result is an order-preserving subsequence. `today` keeps every activity of today's calendar day; `week` keeps every activity strictly after now − 604800000 ms, each as often as it occurs, and nothing else; `month` and `all` return the list unchanged |
| ParentDashboard.WeekFilterIsRolling | src/pages/ParentDashboard.jsx:78-84 | a concrete activity that the `week` filter keeps but no chart bar counts: the filter's window is not the chart's seven calendar days |
| ParentDashboard.AverageAccuracy | src/pages/ParentDashboard.jsx:109-111 | 0 for an empty list; otherwise within ½ of the mean per-activity percentage |
| ParentDashboard.Summarize | src/pages/ParentDashboard.jsx:106-111 | the count card equals the number of filtered activities; an empty filter shows all zeros |
| ParentDashboard.AccuracyInRange | src/pages/ParentDashboard.jsx:109-111 | when every activity has 0 ≤ correct ≤ total and total > 0, the shown accuracy lies in 0..100 |
| ParentDashboard.GetTodayTime | src/pages/ParentDashboard.jsx:87-91 | today's time is the time total of the `today` filter |
| ParentDashboard.Minutes | src/pages/ParentDashboard.jsx:113 | `Math.round(seconds / 60)` equals (seconds + 30) div 60 |
| ParentDashboard.TodayMinutes | src/pages/ParentDashboard.jsx:113 | today's minutes are (the `today` filter's time total + 30) div 60 |
| ParentDashboard.TodayTimeAgrees | src/pages/ParentDashboard.jsx:87-91 | when the chart was loaded on the same calendar day as the current render, today's time equals the time of the chart's last bar |
| ParentDashboard.ChartGoesStaleAfterMidnight | src/pages/ParentDashboard.jsx:42 | a concrete case: a chart loaded the day before still shows the load day's 60 s in its last bar, while today's time is 0 |
| ParentDashboard.Reverse | src/pages/ParentDashboard.jsx:99 | `reverse()` keeps the length and puts element n − 1 − i at position i |
| ParentDashboard.SortByMastery | src/pages/ParentDashboard.jsx:96 | the sorted copy is ordered by mastery from highest to lowest and is a permutation of the input |
| ParentDashboard.SortIsStable | src/pages/ParentDashboard.jsx:96 | for each mastery value, the records with that value keep their original relative order |
| ParentDashboard.GetStrengthsAndWeaknesses | src/pages/ParentDashboard.jsx:93-101 | no progress gives two empty lists; otherwise each list holds min(3, n) records. Contents and order are stated by the `Ranking…` lemmas below |
| ParentDashboard.TopAndBottom | src/pages/ParentDashboard.jsx:97-100 | the two slices of the sorted copy hold min(3, n) records each |
| ParentDashboard.RankingContents | src/pages/ParentDashboard.jsx:93-101 | strengths and weaknesses each hold min(3, n) records, all drawn from the progress list (as sub-multisets) |
| ParentDashboard.RankingOrder | src/pages/ParentDashboard.jsx:96-99 | strengths run from highest mastery down; weaknesses run from lowest mastery up |
| ParentDashboard.RankingExtremes | src/pages/ParentDashboard.jsx:96-99 | for a non-empty list, the first strength has the maximum mastery of all records and the first weakness the minimum |
| ParentDashboard.RankingOverlap | src/pages/ParentDashboard.jsx:98-99 | with six or more records strengths and weaknesses are disjoint; with at most three, weaknesses are the strengths reversed |
| ParentDashboard.RankingExample | src/pages/ParentDashboard.jsx:93-101 | with masteries 90, 40 and 70, strengths are [90, 70, 40] and weaknesses are [40, 70, 90] |
| ParentDashboard.FocusSkill | src/pages/ParentDashboard.jsx:379 | the first weakness's skill area when there is a weakness and its skill area is non-empty (truthy); "new challenges" when there are no weaknesses or the skill area is empty |
| ParentDashboard.FocusSkillIsWeakest | src/pages/ParentDashboard.jsx:379 | without progress the advice is "new challenges"; with progress, the weakest-ranked record's skill area is named whenever it is non-empty; a named skill belongs to a record of minimum mastery |
| ProgressService.FirstMatch | src/services/api/progressService.js:118-122 | `find` returns the index of the first record with the key (child, subject, skill), and none exactly when no record matches |
| ProgressService.Lookup | src/services/api/progressService.js:117-122 | what the lookup finds: the first match after a successful read, nothing after a failed one (used by `UpdateProgress`, whose contract states the outcome) |
| ProgressService.PracticeCount | src/services/api/progressService.js:130 | `practice_count_c \|\| 0`; the resulting count is stated by `UpsertUpdatesFirstMatch` |
| ProgressService.Updated | src/services/api/progressService.js:126-133 | the fields sent by the update; stated by `UpsertUpdatesFirstMatch` |
| ProgressService.NewRecord | src/services/api/progressService.js:149-158 | the record sent by the create; stated by `UpsertCreates` |
| ProgressService.Written | src/services/api/progressService.js:124-172 | the record the call sends, updated or created; `UpdateProgress` returns it on reported success |
| ProgressService.Upserted | src/services/api/progressService.js:124-172 | the table after an applied write is at most one record longer and holds a record with the key and the new mastery |
| ProgressService.UpsertUpdatesFirstMatch | src/services/api/progressService.js:124-133 | with a match, only the first matching record changes: its mastery is overwritten, its count becomes previous-or-0 plus 1, its time becomes now; id, name and key stay |
| ProgressService.UpsertCreates | src/services/api/progressService.js:147-159 | with no match, or after a failed lookup, exactly one record is appended: the key, the mastery, count 1 and the new id, with the old table unchanged before it |
| ProgressService.UpsertKeepsKeysUnique | src/services/api/progressService.js:117-159 | after a successful lookup, a table with one record per key keeps one record per key |
| ProgressService.UpsertTwiceOnFreshKey | src/services/api/progressService.js:124-159 | two calls on a new key: the first creates the record with count 1, the second updates the same record to count 2 with the second mastery; the table grows by one |
| ProgressService.FailedLookupDuplicatesKey | src/services/api/progressService.js:100-111 | a lookup that yields `[]` because the read failed leads to the create path, which turns a table with one record per key into one with a duplicate key |
| ProgressService.ProgressTable.UpdateProgress | src/services/api/progressService.js:114-181 | the table changes only when the store applied the write, and then becomes the upsert of the old table; the result is the written record when the store reported success for it, and `null` in every other case (rejected, thrown, no results, failed result) |
| QuestionsService.Sample | src/services/api/questionsService.js:98-100 | the sample is the first min(10, n) of the shuffled copy, a sub-multiset of the fetched questions, and all of them when n ≤ 10 |
| QuestionsService.Received | src/services/api/questionsService.js:98 | `response.data \|\| []`; a failed fetch reaches no list. Stated through `GetByLevelId` |
| QuestionsService.GetByLevelId | src/services/api/questionsService.js:73-105 | a failed or throwing fetch gives []; otherwise min(10, n) questions, a prefix of the shuffle and a sub-multiset of the fetched data (`data \|\| []`) |
| QuestionsService.SampleComesFromFetch | src/services/api/questionsService.js:90-100 | every sampled question was fetched, none appears more often than fetched, and an empty fetch gives no questions |
| QuestionsService.SampleOfDistinctIsDistinct | src/services/api/questionsService.js:99-100 | distinct fetched questions give a sample with no repeats; with at least ten fetched, exactly ten |
| QuestionsService.SmallFetchComesBackWhole | src/services/api/questionsService.js:98-100 | ten or fewer fetched questions all come back, in some order |
| AnswerFeedback.ButtonStyleCases | src/components/organisms/MathQuestion.jsx:26-38 | neutral exactly when no feedback shows; green exactly for the correct option; red exactly for the selected wrong option; grey for every other option |
| AnswerFeedback.ButtonStyleOf | src/components/organisms/MathQuestion.jsx:26-38 | the classification of one button, stated by `ButtonStyleCases` |
| AnswerFeedback.StylesOf | src/components/organisms/MathQuestion.jsx:57-68 | one style per option button. Before an answer every button is neutral. While feedback shows, with distinct options that include the correct answer, exactly one button is green and at most one is red, and a red button is the selected wrong answer |
| AnswerFeedback.AnswerButtonClass | src/components/organisms/MathQuestion.jsx:26-38 | the shared class strings: the component's neutral class before an answer; while feedback shows, the success, error and muted classes each exactly under its own condition |
| AnswerFeedback.FeedbackCases | src/components/organisms/MathQuestion.jsx:72-92 | no panel exactly without feedback; the correct message exactly when the selection is the correct answer; otherwise the panel names the correct answer |
| AnswerFeedback.FeedbackOf | src/components/organisms/MathQuestion.jsx:72-92 | the panel's verdict from the state fields, stated by `FeedbackCases` |
| AnswerFeedback.AnswerCard.constructor | src/components/organisms/MathQuestion.jsx:8-9 | starts with no selection and no feedback |
| AnswerFeedback.AnswerCard.HandleAnswerClick | src/components/organisms/MathQuestion.jsx:11-24 | a click while feedback shows changes nothing; otherwise it selects the answer, shows feedback and schedules the report (answer == correct, answer) |
| AnswerFeedback.AnswerCard.TimerFires | src/components/organisms/MathQuestion.jsx:19-23 | the timer delivers exactly the report scheduled at click time, then clears the selection and hides feedback |
| AnswerFeedback.AnswerCard.ButtonStyles | src/components/organisms/MathQuestion.jsx:57-60 | the option buttons' styles from the current state, as `StylesOf` states |
| AnswerFeedback.AnswerCard.CurrentFeedback | src/components/organisms/MathQuestion.jsx:72-92 | the panel's verdict from the current state, as `FeedbackCases` and `FeedbackAgreesWithReport` state |
| AnswerFeedback.AnswerCard.FeedbackAgreesWithReport | src/components/organisms/MathQuestion.jsx:11-24 | while feedback shows, the panel says "correct" exactly when the pending report says `isCorrect` |
| MathQuestion.GetAnswerButtonClass | src/components/organisms/MathQuestion.jsx:26-38 | each of the four class strings is returned exactly under its own condition (the four conditions are exclusive and cover all cases) |
| MathQuestion.FeedbackLines | src/components/organisms/MathQuestion.jsx:72-92 | the panel has no lines exactly when no feedback shows |
| MathQuestion.CorrectShownIffSelectedIsCorrect | src/components/organisms/MathQuestion.jsx:78-90 | "Correct!" heads the panel exactly when feedback shows and the selected answer is correct; otherwise the second line ends with the correct answer |
| MathQuestion.AnswerSession | src/components/organisms/MathQuestion.jsx:11-92 | first click, ignored second click, timer, timer again. The panel gives the verdict on the first answer with the math texts. During feedback exactly the correct option's button is green and the first answer's button is red when it is wrong. The parent receives (first == correct, first) once, and the panel is then gone |
| ReadingQuestion.GetAnswerButtonClass | src/components/organisms/ReadingQuestion.jsx:30-42 | as for math, with the `secondary` hover colours in the neutral class |
| ReadingQuestion.FeedbackLines | src/components/organisms/ReadingQuestion.jsx:88-108 | the panel has no lines exactly when no feedback shows |
| ReadingQuestion.CorrectShownIffSelectedIsCorrect | src/components/organisms/ReadingQuestion.jsx:94-105 | "Correct!" heads the panel exactly when feedback shows and the selection is correct; otherwise the second line ends with the correct answer in quotes |
| ReadingQuestion.AnswerSession | src/components/organisms/ReadingQuestion.jsx:11-108 | the reading component's handler (lines 11-23), the shared card and its own texts: first answer judged and reported once, second click ignored, the correct button green and a wrong first answer's button red during feedback, panel gone after the timer |

## Left out

- Clock, time zone and locale. Each reading of `new Date()` becomes a parameter, in milliseconds. `loadedAt` is the reading `processChartData` makes when the data loads (lines 26, 42, 53). `now` is the reading `getFilteredActivities` and `getTodayTime` make at each render (lines 71, 80, 82, 88). The filter's own two readings (lines 80 and 82) are taken as one instant. `toDateString()` equality becomes equality of `dayOf`, a calendar-day function passed in. The short weekday label of a chart bar is not modelled; the bar carries its day number instead.
- Timestamps. The store keeps ISO strings. The model keeps milliseconds, and `toISOString()` on writes becomes `now`.
- Floating point. Percentages and rounding use exact reals, so an IEEE double's rounding error in `correct / total * 100` is not modelled.
- Division by zero. An activity with `total_questions_c = 0` produces NaN in the source. `AverageAccuracy`, `Summarize` and `AccuracyInRange` require a non-zero total instead.
- ParentDashboard.FilteredActivities: the unused `filterDate` (lines 72-76) has no effect on the result and is not modelled.
- ParentDashboard.SortByMastery: it is stated for an insertion sort. The engine's own algorithm is not modelled, only its promised outcome: a stable sort under the comparator `b − a` (stability is guaranteed since ES2019). Masteries are compared as integers.
- Equality. JavaScript's `===` on ids and keys becomes equality of strings. The model takes `childId` already converted by `toString()`; the `Name` of a created record uses the same string.
- Store access. `updateRecord` / `createRecord` / `fetchRecords` and the request shapes they take are replaced by reply parameters (`ReadReply`, `WriteReply`, `FetchReply`). The store's filtering by child and subject is not modelled; `find` runs over the whole table in table order, which selects the same first match provided the store returns rows in table order. Paging (`limit: 50`) is not modelled. The lookup is assumed to return each row's `Id`.
- ProgressService.ProgressTable.UpdateProgress: the returned record is modelled as the record sent. The store's echo `successful[0].data` may have server-side fields that are not modelled. A write whose response has no `results` is treated as applied but returns `null` (line 175).
- Concurrency. Two overlapping `updateProgress` calls can both miss and both create; overlapping clicks or timers across React renders are not modelled either. Each call is one atomic step.
- Logging and toasts. `console.error` and `toast` have no effect on the model.
- Shuffling. `sort(() => Math.random() - 0.5)` is modelled as an arbitrary rearrangement passed in. How likely each order is (the comparator is biased) is not modelled.
- Timer. The 1500 ms delay of `setTimeout` is not modelled: the callback is an explicit step, `TimerFires`. The `disabled` attribute and the hover/tap animations of the buttons are presentation and are left out.
- Markup. The dashboard's JSX, loading/error screens, `loadDashboardData`, the children, levels and activities services, and the other components' markup are not part of this model.
