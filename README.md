# Multiplication Tables: a verified model of the quiz and scoring engine

This project models the logic of the "Multiplication Tables" iOS app in Dafny. The app is a children's times-table trainer.

- **Question generation.** Questions come in three ways: sequential, random without repeats, and mixed from several tables.
- **Quiz session.** A cursor walks through a batch of questions, scoring each answer.
- **Progress engine.** It keeps totals, streaks, stars, per-table scores with mastery, and achievements.
- **Settings.** Defaults, the difficulty time limits, and saving and loading.
- **View models.**
  - Practice mode: the number pad, submitting, moving on, restarting.
  - Challenge mode: a timed round, ten points per right answer, a countdown, table toggles, the medal.
  - Results screen: stars, message, trophy and confetti.
  - Table picker: the range of tables, expanding it, the card indicator.
- **Colour strings.** `Color(hex:)` turns a colour string into integer channels.

One module per source file, plus three shared ones:

- `Questions` (questions.dfy): Models/Question.swift
- `Progress` (progress.dfy): Models/UserProgress.swift
- `Settings` (settings.dfy): Models/AppSettings.swift
- `Practice` (practice.dfy): Views/PracticeView.swift
- `Challenge` (challenge.dfy): Views/ChallengeView.swift
- `Results` (results.dfy): Views/ResultsView.swift
- `TableSelector` (table_selector.dfy): Views/TableSelectorView.swift
- `HexColor` (hex_color.dfy): Views/SplashView.swift (`Color(hex:)`)
- `Clock` (clock.dfy): the "mm:ss" display shared by the challenge and results screens
- `SwiftStd` (swift_std.dfy): `Int(String)`; Swift's truncating `/`, `%` and `Int(Double)`; `%02d`
- `Percent` (percent.dfy): `Double(part) / Double(whole) * 100` as an exact rational; thresholds as integer cross-multiplication
- `Wrappers` (wrappers.dfy): `Option`

## How the source is represented

- **Value types.**
  - `Question`, `TableScore`, `AppSettings` and `Achievement` are datatypes.
  - `QuizSession`'s state also has a datatype, `SessionState`, which carries the specification functions `Submit` and `Reset`.
- **Mutable objects.**
  - `QuizSession`, `UserProgress`, `PracticeViewModel` and `ChallengeViewModel` are classes. Their methods mutate fields in place, as the source does.
  - Each method states its whole new state: fields it does not assign are outside its field-level `modifies` frame or stated equal to their old values. Where a value-level specification exists, the method is tied to it, e.g. `(State(), isCorrect) == old(State()).Submit(answer)`.
- **Randomness.** The random choices are oracle arguments:
  - the results `Int.random` would have returned;
  - the indices `randomElement()` would have picked;
  - the Fisher–Yates swaps `shuffled()` would have made.
- **Question ids.** A question's `UUID` is a natural number. The generators hand out `firstId`, `firstId + 1`, …, and distinctness of the ids is proved.
- **Times.**
  - `TableScore` times are whole milliseconds, so "average under 3.0 s" is `totalTime / correct < 3000`. `FastIff` shows this equals `totalTime < 3000 * correct`.
  - The challenge clock is whole seconds.
- **Percentages.** These are exact `real`s. Each threshold the app tests is proved equal to an integer cross-multiplication (`Percent.AtLeast`).
- **Launch.** The app starts from `AppSettings()` and `UserProgress()`. Nothing in the code calls `AppSettings.load()` or `UserProgress.load()`, and nothing calls `recordAnswer` or `completeTable`. The model follows the code: `AppState`'s constructor gives the default settings. `Load` is still modelled and proved with `Save`, as the operations the app provides.
- **Defaults store.** It is a map from keys to data.
  - A settings value is encoded as seven integers.
  - Data of any other shape fails to decode, as malformed JSON does.

## Model

| member | source | states |
|---|---|---|
| Questions.Generate | MultiplicationTables/Models/Question.swift:22-45 | random: exactly `count` questions for `table` with pairwise-distinct multiplicands from the draws, all in 0...10, and they are the first `count` distinct draws in draw order (`FirstSeen`); sequential: `min(11, count)` questions, question i has multiplicand i; ids distinct |
| Questions.RandomNeedsAtMostEleven | MultiplicationTables/Models/Question.swift:25-36 | the random source yields at most 11 distinct multiplicands, so the random loop cannot finish for `count > 11` |
| Questions.MixedDraws | MultiplicationTables/Models/Question.swift:51-55 | the pre-shuffle batch: `count` questions, multiplier `tables[pick]` or 1 when there are no tables, multiplicand the drawn number, distinct ids |
| Questions.GenerateRandom | MultiplicationTables/Models/Question.swift:25-36 | the rejection loop returns exactly `count` questions for `table`, ids consecutive from the first, multiplicands drawn from the draws, in 0...10 and pairwise distinct; question i's multiplicand is the i-th distinct value in draw order, `FirstSeen(draws)[i]` |
| Questions.DrawDistinct | MultiplicationTables/Models/Question.swift:28-36 | the rejection loop itself: exactly `count` questions (none for a negative count) for `table` with consecutive ids, whose multiplicands are `FirstSeen(draws[..k])` for the `k <= |draws|` draws it used |
| Questions.FirstSeenFacts | MultiplicationTables/Models/Question.swift:28-36 | the reference for the loop's order, the distinct draws in order of first appearance, holds every drawn value exactly once |
| Questions.FirstSeenPrefix | MultiplicationTables/Models/Question.swift:28-36 | drawing further only appends to the values first seen, so the loop's early stop gives a prefix |
| Questions.GenerateSequential | MultiplicationTables/Models/Question.swift:37-42 | `min(11, count)` questions for `table`, question i has multiplicand i and the i-th id |
| Questions.GenerateMixed | MultiplicationTables/Models/Question.swift:47-58 | exactly `count` questions, a permutation (same multiset) of the drawn batch, each with multiplicand in 0...10 and multiplier in `tables` (1 if empty) |
| Questions.Shuffled | MultiplicationTables/Models/Question.swift:57 | the Fisher–Yates result is a permutation of its input and keeps ids distinct |
| Questions.Question.Answer | MultiplicationTables/Models/Question.swift:14-16 | `multiplier * multiplicand`; `SessionState.Submit` judges an answer right exactly when it equals this product |
| Questions.SessionState.CurrentQuestion | MultiplicationTables/Models/Question.swift:72-75 | none exactly when the session is complete, else the question at the cursor |
| Questions.SessionState.IsComplete | MultiplicationTables/Models/Question.swift:77-79 | `currentQuestionIndex >= questions.count`; `CurrentQuestion`, `Progress` and `SubmitAdvances` pin it: no current question, progress 1, and a submission changes nothing exactly when it holds |
| Questions.SessionState.Progress | MultiplicationTables/Models/Question.swift:81-84 | 0 for an empty batch; in [0, 1] for a consistent session; 1 exactly when complete |
| Questions.SessionState.Accuracy | MultiplicationTables/Models/Question.swift:86-89 | 0 before the first answer; in [0, 100]; 100 exactly when every answer was right |
| Questions.SessionState.Submit | MultiplicationTables/Models/Question.swift:95-107 | complete session: unchanged and `false`; otherwise the answer is stored under the current id, the verdict is `answer == multiplier * multiplicand`, `correctCount` rises by one iff right, the cursor moves by one, the questions stay |
| Questions.SessionState.Reset | MultiplicationTables/Models/Question.swift:109-114 | the state of a new session over the same questions |
| Questions.NewSession | MultiplicationTables/Models/Question.swift:65-70 | a new session is at index 0 with no answers and no right answers, and is consistent |
| Questions.SubmitKeepsValid | MultiplicationTables/Models/Question.swift:95-107 | `correctCount <= currentQuestionIndex <= questions.count`, with answers stored for exactly the questions passed, survives a submission |
| Questions.SubmitAdvances | MultiplicationTables/Models/Question.swift:95-107 | a submission changes nothing iff the session is complete, else moves the cursor by exactly one; `correctCount` rises iff the verdict is true |
| Questions.SubmitAllKeepsValid | MultiplicationTables/Models/Question.swift:95-107 | after any sequence of submissions the session is consistent, keeps its questions, and its cursor is `min(count, start + submissions)` |
| Questions.ResetIdempotent | MultiplicationTables/Models/Question.swift:109-114 | resetting twice is resetting once; a reset session is consistent and complete only if it has no questions |
| Questions.QuizSession.constructor | MultiplicationTables/Models/Question.swift:65-70 | `QuizSession(questions:)` starts in the state `NewSession(questions)` |
| Questions.QuizSession.SubmitAnswer | MultiplicationTables/Models/Question.swift:95-107 | the in-place mutation produces exactly the new state and verdict of `Submit` |
| Questions.QuizSession.Reset | MultiplicationTables/Models/Question.swift:109-114 | the in-place mutation produces exactly `Reset()` of the old state |
| Progress.TableScore.Accuracy | MultiplicationTables/Models/UserProgress.swift:105-108 | 0 with no attempts; between 0 and 100 for a consistent score |
| Progress.TableScore.AverageTime | MultiplicationTables/Models/UserProgress.swift:110-113 | 0 with no right answers, else `totalTime / correct` rounded down to the millisecond |
| Progress.TableScore.RecordCorrectAnswer | MultiplicationTables/Models/UserProgress.swift:115-124 | attempts and right answers rise by one, the time is added; mastered afterwards iff it already was or `attempts >= 10 && 100 * correct >= 90 * attempts`; consistency kept |
| Progress.TableScore.RecordIncorrectAnswer | MultiplicationTables/Models/UserProgress.swift:126-128 | one more attempt; right answers, time and mastery unchanged; consistency kept |
| Progress.NewTableScore | MultiplicationTables/Models/UserProgress.swift:98-103 | a new score is for its table, with no attempts and not mastered |
| Progress.TableScore.IsFast | MultiplicationTables/Models/UserProgress.swift:77 | `averageTime < 3.0` on the millisecond model; `FastIff` shows it holds iff there is no right answer or `totalTime < 3000 * correct` |
| Progress.FastIff | MultiplicationTables/Models/UserProgress.swift:110-113 | a table counts as fast iff it has no right answer or `totalTime < 3000 * correct` |
| Progress.OnlyWrongAnswersIsFast | MultiplicationTables/Models/UserProgress.swift:77-80 | a table with only wrong answers counts as fast towards `speed_demon` |
| Progress.MasteryNeverReverts | MultiplicationTables/Models/UserProgress.swift:115-128 | neither recording operation takes mastery away |
| Progress.MasteryThreshold | MultiplicationTables/Models/UserProgress.swift:120-123 | from not mastered, a right answer masters the table exactly when attempts reach 10 and the accuracy reaches 90 % |
| Progress.Award | MultiplicationTables/Models/UserProgress.swift:62-64 | one rule check: append the achievement iff its rule holds and its id is absent; `AwardFacts` shows it only appends, keeps ids unique and leaves the achievement present when the rule holds |
| Progress.Checked | MultiplicationTables/Models/UserProgress.swift:60-81 | `checkAchievements()` as the four rule checks in the source order; `CheckedFacts`, `CheckedIdempotent` and `NeverCenturion` pin its result |
| Progress.AwardFacts | MultiplicationTables/Models/UserProgress.swift:62-64 | one rule check only appends, keeps ids unique, and leaves the achievement present when its rule holds |
| Progress.CheckedFacts | MultiplicationTables/Models/UserProgress.swift:60-81 | `checkAchievements` only appends, appends only absent ids whose rule holds, never duplicates an id, and afterwards every rule that holds has its achievement |
| Progress.CheckedIdempotent | MultiplicationTables/Models/UserProgress.swift:60-81 | checking a second time with the same totals adds nothing |
| Progress.NeverCenturion | MultiplicationTables/Models/UserProgress.swift:60-81 | `checkAchievements()` never adds the id `centurion`: a list without it still lacks it after any check, whatever the totals |
| Progress.Recorded | MultiplicationTables/Models/UserProgress.swift:33-47 | the scores after one answer: the table's score, created when missing, records the answer; `UpdateKeepsScores` shows no other table changes, one attempt is counted and mastery is kept |
| Progress.UpdateKeepsScores | MultiplicationTables/Models/UserProgress.swift:33-47 | after an answer the table's score exists under its own number with one more attempt (and one more right answer iff right), every other table is unchanged, every score stays consistent, and no mastery is lost |
| Progress.UserProgress.constructor | MultiplicationTables/Models/UserProgress.swift:8-16 | a fresh record has every counter zero, no scores, no completed tables and no achievements |
| Progress.UserProgress.Accuracy | MultiplicationTables/Models/UserProgress.swift:19-22 | 0 before any answer; between 0 and 100 while `correctAnswers <= totalQuestionsAnswered` |
| Progress.UserProgress.RecordAnswer | MultiplicationTables/Models/UserProgress.swift:24-52 | total +1, right answers +1 iff right, streak +1 or reset to 0, best streak the maximum, the table's score recorded, one star iff right and the new total is a multiple of 10, achievements checked; keeps `correct <= total`, `streak <= bestStreak`, valid scores and unique ids |
| Progress.UserProgress.UpdateCounters | MultiplicationTables/Models/UserProgress.swift:25-48 | the counter, streak, score and star updates of `recordAnswer` before the achievement check |
| Progress.UserProgress.UpdateTableScore | MultiplicationTables/Models/UserProgress.swift:33-47 | creating the missing score and recording the answer gives `Recorded(old scores, …)` and keeps all scores valid |
| Progress.UserProgress.CompleteTable | MultiplicationTables/Models/UserProgress.swift:54-58 | the table joins the set (set semantics), five stars are added on every call, achievements are checked, nothing else changes |
| Progress.UserProgress.CheckAchievements | MultiplicationTables/Models/UserProgress.swift:60-81 | the four in-place appends produce exactly `Checked(old achievements, totals)` and keep ids unique |
| Settings.TimeLimit | MultiplicationTables/Models/AppSettings.swift:31-37 | no limit exactly for easy; 15 s for normal and 8 s for hard; every limit positive |
| Settings.HardIsShorter | MultiplicationTables/Models/AppSettings.swift:31-37 | easy is untimed and hard's limit is strictly below normal's |
| Settings.Default | MultiplicationTables/Models/AppSettings.swift:10-16 | all toggles on, 10 tables, 10 questions per session, normal difficulty |
| Settings.Encode | MultiplicationTables/Models/AppSettings.swift:40-42 | the encoding of a settings value is seven integers; `DecodeEncode` shows it decodes back to the value |
| Settings.Decode | MultiplicationTables/Models/AppSettings.swift:46-49 | data of any length other than seven fails, as malformed JSON does; `EncodeDecode` shows that data which decodes is the encoding of its value |
| Settings.DecodeEncode | MultiplicationTables/Models/AppSettings.swift:40-52 | every settings value survives encoding and decoding |
| Settings.EncodeDecode | MultiplicationTables/Models/AppSettings.swift:46-52 | data that decodes is exactly the encoding of its decoded value |
| Settings.Save | MultiplicationTables/Models/AppSettings.swift:40-44 | writes under `"appSettings"` data that decodes to the saved value; no other key changes |
| Settings.Load | MultiplicationTables/Models/AppSettings.swift:46-52 | the stored value when present and decodable, otherwise the defaults; never fails |
| Settings.LoadAfterSave | MultiplicationTables/Models/AppSettings.swift:40-52 | loading after saving gives back the saved settings |
| Settings.SaveAfterLoad | MultiplicationTables/Models/AppSettings.swift:40-52 | saving freshly loaded valid settings leaves the store as it was |
| Practice.Tapped | MultiplicationTables/Views/PracticeView.swift:392-404 | disabled pad: no change; delete removes exactly the last character (no-op on empty); any other key is appended iff fewer than 4 characters; pad keys keep length <= 4 and digits only |
| Practice.DigitThenBackspace | MultiplicationTables/Views/PracticeView.swift:395-402 | delete undoes a digit just typed |
| Practice.FullAnswerRefusesDigits | MultiplicationTables/Views/PracticeView.swift:400-402 | a four-character answer accepts no more digits |
| Practice.PadAnswerParses | MultiplicationTables/Views/PracticeView.swift:95 | what the pad produces fails `Int(_:)` only when empty, and otherwise parses to 0...9999 |
| Practice.PracticeViewModel.constructor | MultiplicationTables/Views/PracticeView.swift:90-92 | ten random questions for the table, distinct ids, multiplicands in 0...10 and pairwise distinct, a new session at index 0, all flags off |
| Practice.PracticeViewModel.SubmitAnswer | MultiplicationTables/Views/PracticeView.swift:94-108 | no-op while feedback shows or when the answer does not parse; otherwise one `Submit` on the session, feedback on, celebration exactly when right |
| Practice.PracticeViewModel.MoveToNext | MultiplicationTables/Views/PracticeView.swift:110-118 | feedback, celebration and the typed answer cleared; results show exactly when the session is complete |
| Practice.PracticeViewModel.Restart | MultiplicationTables/Views/PracticeView.swift:120-127 | a new session of ten random questions for the old first question's table (1 if none), multiplicands in 0...10 and pairwise distinct; feedback, results, celebration and the typed answer cleared; `lastAnswerCorrect` kept (outside the frame) |
| Practice.PracticeViewModel.ClearAnswer | MultiplicationTables/Views/PracticeView.swift:318-321 | the clear button empties the typed answer even while feedback shows, so the next submit is a no-op; the invariants hold |
| Practice.PracticeViewModel.TapKey | MultiplicationTables/Views/PracticeView.swift:392-404 | the bound answer becomes `Tapped(old answer, !showFeedback, key)`; the view model's invariants hold |
| Challenge.StartTime | MultiplicationTables/Views/ChallengeView.swift:71-78 | 120, 60 or 30 seconds: positive |
| Challenge.HarderIsShorter | MultiplicationTables/Views/ChallengeView.swift:71-78 | hard < normal < easy |
| Challenge.Toggled | MultiplicationTables/Views/ChallengeView.swift:208-212 | the tapped table's membership flips and no other table's changes |
| Challenge.ToggleTwice | MultiplicationTables/Views/ChallengeView.swift:208-212 | toggling a table twice restores the selection |
| Challenge.TimeString | MultiplicationTables/Views/ChallengeView.swift:379-383 | the countdown label `Clock.Format(time)`; `TimeStringReadsBack` shows it reads "mm:ss" adding back to the time left |
| Challenge.TimeStringReadsBack | MultiplicationTables/Views/ChallengeView.swift:379-383 | under 100 minutes the countdown reads "mm:ss" with `seconds < 60` and `60 * minutes + seconds` the time left |
| Challenge.MedalFor | MultiplicationTables/Views/ChallengeView.swift:395-401 | the medal for a score out of `10 * totalQuestions` points; `MedalBands` states its bands as integer comparisons |
| Challenge.MedalBands | MultiplicationTables/Views/ChallengeView.swift:395-401 | gold iff `100 * score >= 80 * (10 * total)`, silver, bronze and the plain medal in the bands below, as integer comparisons |
| Challenge.MedalForTwenty | MultiplicationTables/Views/ChallengeView.swift:395-401 | in a round of 20: gold from 16 right, silver from 12, bronze from 8 |
| Challenge.SubmitOnCopy | MultiplicationTables/Views/ChallengeView.swift:84-91 | the submit handler as written, acting on a copy of the session; `CopyLosesTheAnswer` and `CopyRepeatsTheQuestion` show what that does |
| Challenge.CopyLosesTheAnswer | MultiplicationTables/Views/ChallengeView.swift:84-91 | as written, a right answer scores 10 while the kept session does not move, so the score stops matching the session |
| Challenge.CopyRepeatsTheQuestion | MultiplicationTables/Views/ChallengeView.swift:84-91 | as written, one right answer given twice scores 20 and the round stays at its first question |
| Challenge.ChallengeViewModel.constructor | MultiplicationTables/Views/ChallengeView.swift:45-57 | tables {2, 3, 4, 5}, normal difficulty, 20 questions, 60 s, no session, score 0 |
| Challenge.ChallengeViewModel.StartChallenge | MultiplicationTables/Views/ChallengeView.swift:61-81 | a fresh session of 20 mixed questions from the selected tables (1 if none), score 0, playing, no results, the clock at `StartTime(difficulty)`, the timer running |
| Challenge.RoundQuestions | MultiplicationTables/Views/ChallengeView.swift:62-63 | the round's `count` questions have distinct ids, multiplicands in 0...10 and multipliers in the selection (1 if it is empty) |
| Challenge.ChallengeViewModel.Begin | MultiplicationTables/Views/ChallengeView.swift:64-80 | a fresh session over the given questions, score 0, answer cleared, playing, no feedback or results, the clock at `StartTime(difficulty)` and the timer running |
| Challenge.ChallengeViewModel.SubmitAnswer | MultiplicationTables/Views/ChallengeView.swift:83-98 | no-op for an unparsable answer, no session, or feedback showing; otherwise one `Submit` on the view model's session and +10 exactly when right; the score stays a multiple of 10 and at most 10 × answers |
| Challenge.ChallengeViewModel.ScoreAnswer | MultiplicationTables/Views/ChallengeView.swift:88-93 | one `Submit` on the view model's own session, +10 exactly when right, feedback shown; the frame is `lastCorrect`, `score`, `showFeedback` and the session, so nothing else changes; the score stays a multiple of 10 and at most 10 × answers |
| Challenge.ChallengeViewModel.MoveToNext | MultiplicationTables/Views/ChallengeView.swift:100-107 | feedback and answer cleared; the round ends iff the session is complete or no time is left; only the feedback, answer and round flags are in the frame |
| Challenge.ChallengeViewModel.Tick | MultiplicationTables/Views/ChallengeView.swift:109-119 | while the timer runs: one second off a positive clock, or the end of the round at zero; the clock never goes negative; only the clock and the round flags are in the frame |
| Challenge.ChallengeViewModel.EndChallenge | MultiplicationTables/Views/ChallengeView.swift:121-125 | not playing, results shown, timer stopped; the frame is those three flags, so nothing else changes |
| Challenge.ChallengeViewModel.ClearAnswer | MultiplicationTables/Views/PracticeView.swift:318-321 | the shared answer view's clear button empties the challenge answer, even while feedback shows, so the next submit is a no-op |
| Challenge.ChallengeViewModel.ToggleTable | MultiplicationTables/Views/ChallengeView.swift:208-212 | the selection becomes `Toggled(old selection, table)` |
| Challenge.RunTimerOut | MultiplicationTables/Views/ChallengeView.swift:109-119 | left alone, the repeating timer runs the clock down to 0 and ends the round without touching the score |
| Results.StarsFor | MultiplicationTables/Views/ResultsView.swift:20-26 | 3 iff accuracy >= 90, 2 iff 70 <= accuracy < 90, 1 iff 50 <= accuracy < 70, 0 below 50; always at most 3 |
| Results.StarsForMonotone | MultiplicationTables/Views/ResultsView.swift:20-26 | higher accuracy never earns fewer stars |
| Results.Stars | MultiplicationTables/Views/ResultsView.swift:20-26 | `StarsFor(session.accuracy)`; `StarsBands`, `StarsMonotone` and `StarsExtremes` pin it for a session |
| Results.StarsBands | MultiplicationTables/Views/ResultsView.swift:20-26 | no answers earn 0 stars; otherwise the bands as integer comparisons `100 * correct >= 90/70/50 * answered` |
| Results.StarsMonotone | MultiplicationTables/Views/ResultsView.swift:20-26 | a session with a larger share of right answers earns at least as many stars |
| Results.StarsExtremes | MultiplicationTables/Views/ResultsView.swift:20-26 | all right earns 3 stars, none right earns 0 |
| Results.MessageFor | MultiplicationTables/Views/ResultsView.swift:28-34 | the message for an accuracy; `MessageMatchesStars` shows it follows the star count one to one |
| Results.MessageMatchesStars | MultiplicationTables/Views/ResultsView.swift:28-34 | excellent iff 3 stars, great_job iff 2, good_effort iff 1, keep_practicing iff 0 |
| Results.ShowsTrophy | MultiplicationTables/Views/ResultsView.swift:51 | the trophy rather than the star: two stars or more; `ConfettiNeedsTrophy` shows this is `100 * correct >= 70 * answered` |
| Results.SchedulesConfetti | MultiplicationTables/Views/ResultsView.swift:158-174 | the animation start: nothing when motion is reduced, else confetti iff two stars or more; pinned by `ConfettiNeedsTrophy` |
| Results.ShowsConfetti | MultiplicationTables/Views/ResultsView.swift:40-42 | the confetti layer: scheduled, two stars or more and motion not reduced; `ConfettiNeedsTrophy` shows it appears only with the trophy |
| Results.ConfettiNeedsTrophy | MultiplicationTables/Views/ResultsView.swift:158-174 | confetti is scheduled iff motion is not reduced and `100 * correct >= 70 * answered` (the reduced-motion early return schedules nothing); once scheduled the layer shows; confetti only shows with the trophy, and the trophy shows iff `100 * correct >= 70 * answered` |
| Results.FormatTime | MultiplicationTables/Views/ResultsView.swift:177-181 | the session time label `Clock.Format(Int(time))`; `FormatTimeReadsBack` shows it reads "mm:ss" adding back to the whole seconds |
| Results.FormatTimeReadsBack | MultiplicationTables/Views/ResultsView.swift:177-181 | under 100 minutes "mm:ss" with `seconds < 60` and `60 * minutes + seconds == Int(time)` |
| Clock.Split | MultiplicationTables/Views/ResultsView.swift:178-179 | `60 * minutes + seconds == t`; for `t >= 0`, `0 <= seconds < 60`; for negative `t`, Swift's truncation toward zero |
| Clock.Format | MultiplicationTables/Views/ChallengeView.swift:379-383 | the shared "%02d:%02d" of `Split(t)`; `FormatReadsBack` shows the layout and that the fields add back to `t` |
| Clock.FormatReadsBack | MultiplicationTables/Views/ChallengeView.swift:379-383 | under 100 minutes the display has five characters, a colon in the middle, and two-digit fields that add back to the seconds |
| SwiftStd.ParseInt | MultiplicationTables/Views/PracticeView.swift:95 | `Int(String)`: nil for the empty string and anything without a digit; in range when it succeeds; a plain digit string parses to its value |
| SwiftStd.ParseDecimal | MultiplicationTables/Views/PracticeView.swift:95 | `Int(String(n)) == n` for every non-negative `Int` |
| SwiftStd.Quotient | MultiplicationTables/Views/ChallengeView.swift:380 | Swift `/` by a positive divisor rounds toward zero |
| SwiftStd.Remainder | MultiplicationTables/Views/ChallengeView.swift:381 | Swift `%` by a positive divisor: `d * (a / d) + a % d == a`, the remainder taking `a`'s sign |
| SwiftStd.Truncate | MultiplicationTables/Views/ResultsView.swift:178 | `Int(Double)` drops the fraction toward zero |
| SwiftStd.Pad2 | MultiplicationTables/Views/ChallengeView.swift:382 | `%02d` of a non-negative value is at least two digits reading back to the value, exactly two below 100 |
| TableSelector.AvailableTables | MultiplicationTables/Views/TableSelectorView.swift:19-21 | `[0, 1, …, max]`: length `max + 1`, element i is i, strictly increasing |
| TableSelector.ExpandedMax | MultiplicationTables/Views/TableSelectorView.swift:63 | `min(max + 10, 100)`: never above 100, and strictly larger (by at most 10) when below 100 |
| TableSelector.ExpandTimes | MultiplicationTables/Views/TableSelectorView.swift:60-66 | the bound after k taps of the expand button; `ExpandTimesClamps` shows it is `min(max + 10k, 100)` from a bound up to 100 |
| TableSelector.ExpandTimesClamps | MultiplicationTables/Views/TableSelectorView.swift:60-66 | k taps from a bound up to 100 give `min(max + 10k, 100)` |
| TableSelector.AppState.constructor | MultiplicationTables/MultiplicationTablesApp.swift:29 | the app starts from the default settings, whatever the store holds |
| TableSelector.AppState.ExpandRange | MultiplicationTables/Views/TableSelectorView.swift:60-66 | below 100: the bound is raised by `ExpandedMax` and the settings are saved, so the store then loads back exactly the settings in force; at 100 or more nothing changes; the bound never decreases |
| TableSelector.CardIndicator | MultiplicationTables/Views/TableSelectorView.swift:194-209 | "new" iff there is no score; the crown iff the score is mastered; the percentage in 0...100 |
| TableSelector.CardFor | MultiplicationTables/Views/TableSelectorView.swift:45-50 | the card of a table: `CardIndicator` of its stored score, if any; `CardAfterAnswer` and `CrownMeansMastery` pin it after answers |
| TableSelector.CardAfterAnswer | MultiplicationTables/Views/TableSelectorView.swift:194-209 | after any answer for a table its card is not "new", and a crown stays |
| TableSelector.CrownMeansMastery | MultiplicationTables/Views/TableSelectorView.swift:196-200 | a crowned card's table has at least 10 attempts |
| HexColor.Trimmed | MultiplicationTables/Views/SplashView.swift:174 | the result starts and ends with a letter or digit, and a string already so bounded is unchanged |
| HexColor.TrimmedIsMiddle | MultiplicationTables/Views/SplashView.swift:174 | trimming removes only non-alphanumerics, and only at the two ends |
| HexColor.TrimmedHash | MultiplicationTables/Views/SplashView.swift:174 | `"#"` before hex digits is trimmed away (`"#FF6B9D"` reads as `"FF6B9D"`) |
| HexColor.ScanHex | MultiplicationTables/Views/SplashView.swift:175-176 | the scanned value is below `16^length` |
| HexColor.ParseHexColor | MultiplicationTables/Views/SplashView.swift:173-187 | every channel lies in 0...255 for any input; a trimmed length other than 3, 6 or 8 gives opaque black |
| HexColor.ParseBareDigits | MultiplicationTables/Views/SplashView.swift:173-187 | for bare hex digits, the form every `Color(hex:)` call in the app passes: length 3 is nibbles × 17, length 6 is bytes 2, 1, 0 with alpha 255, length 8 takes alpha from the top byte |
| HexColor.ParseHashDigits | MultiplicationTables/Views/SplashView.swift:173-187 | the same for `#` and hex digits: length 3 is nibbles × 17, length 6 is bytes 2, 1, 0 with alpha 255, length 8 takes alpha from the top byte |
| HexColor.RgbRoundTrip | MultiplicationTables/Views/SplashView.swift:181-182 | `RRGGBB`, the app's form, and `#RRGGBB` read back as (255, R, G, B) |
| HexColor.ArgbRoundTrip | MultiplicationTables/Views/SplashView.swift:183-184 | `AARRGGBB` and `#AARRGGBB` read back as (A, R, G, B) |
| HexColor.ShortRoundTrip | MultiplicationTables/Views/SplashView.swift:179-180 | `RGB` and `#RGB` read back as (255, 17R, 17G, 17B) |
| HexColor.TealReadsBack | MultiplicationTables/Views/ChallengeView.swift:289 | the app's `Color(hex: "4ECDC4")` is the opaque colour (0x4E, 0xCD, 0xC4) |

## Findings

| source | as written | input that shows it | evidently intended | confidence | as-written member | corrected member |
|---|---|---|---|---|---|---|
| MultiplicationTables/Views/ChallengeView.swift:84-88 | `let session = session` binds a copy of the `QuizSession` struct and calls the mutating `submitAnswer` on it. This does not compile; made a `var`, it mutates only the copy, and `self.session` never advances | a one-question round `2 × 3`, answer 6 submitted twice: score 20, still at the first question, never complete | submit on `self.session`, so the cursor advances and the score stays `10 × correctCount` | not executed; as written it does not compile | Challenge.SubmitOnCopy (shown by Challenge.CopyLosesTheAnswer, Challenge.CopyRepeatsTheQuestion) | Challenge.ChallengeViewModel.SubmitAnswer |

## Left out

- **Rendering.** SwiftUI layout, animation and navigation are left out: every `body`, the main menu, settings, progress, content and app files, `AdaptiveLayout`, `StarView` and `ConfettiView`.
- **Timers and delays.** `DispatchQueue.main.asyncAfter` and `Timer.scheduledTimer` are not modelled as time. `MoveToNext` (both view models) and `ChallengeViewModel.Tick` are explicit steps instead. `Tick` acts only while the timer is scheduled, from `StartChallenge` to `EndChallenge`.
- **Clock readings.** `Date()` is ambient time, so `lastPlayedDate`, `dateEarned`, `Question.startTime`, `QuizSession.startTime`, `totalTime` and `timeElapsed()` are left out.
- **Persistence.**
  - `UserProgress.save`/`load` are left out.
  - `AppSettings` JSON coding is replaced by a fixed seven-integer layout in a key-value map. Its decode failure stands in for JSON decode failure.
- **Randomness.** Random draws are oracle arguments. Their distribution is not modelled.
- **Localisation and display tables.** These are constant lookups: localised strings, the achievement titles, descriptions, icons and colours, the difficulty icons, and the medal and star glyphs.
- **Floating point.**
  - Accuracies, progress and percentages are exact rationals, and IEEE rounding is not modelled.
  - Times are whole milliseconds (`TableScore`) or whole seconds (challenge clock).
  - The `Double` division ending `Color(hex:)` is left out.
- **Integer width.** Counters, scores and stars are unbounded. The traps Swift's `Int` would raise on overflow after 2^63 increments are not modelled.
- **Call arguments.** `MainMenuView.swift:113` and `TableSelectorView.swift:77` pass `appState:` arguments the initialisers shown do not take. They are ignored.
- Questions.Generate: the random branch requires the draws to contain at least `count` distinct values. Without that the source's loop never ends, and for `count > 11` it never can (`RandomNeedsAtMostEleven`). The sequential branch requires `count >= 1`, since `0...min(10, count - 1)` traps otherwise.
- Questions.Question.Answer: `multiplier * multiplicand` is its definition, and the `Int` overflow trap is not modelled.
- Progress.TableScore.AverageTime: the average is rounded down to a whole millisecond. The "fast" test is unaffected (`FastIff`), but the exact `Double` average is not modelled.
- Questions.GenerateMixed: `count` is a `nat`. A negative count makes `(0..<count)` trap in the source, and the app only ever passes 20.
- Challenge.ChallengeViewModel.StartChallenge: the order in which `Array(selectedTables)` lists the selection is an argument, since `Set` iteration order is unspecified.
- Challenge.MedalFor: with `totalQuestions == 0` the model follows `Double` division. A positive score gives +infinity (gold); zero gives NaN and a negative score -infinity (no medal band). The view model always has 20 questions.
- HexColor.Trimmed: only ASCII letters and digits count as alphanumeric. `CharacterSet.alphanumerics` also covers other Unicode letters and digits.
- HexColor.ParseHexColor: the model's `|h|` counts Unicode scalars, where Swift's `hex.count` counts grapheme clusters (`Character`s); the two agree on the ASCII hex strings the app passes. The scanner's `0x` prefix is taken only when a hex digit follows it. Scanner saturation on more than 16 digits is not modelled; those values reach no channel, since only lengths 3, 6 and 8 are used.
- Progress.UserProgress.CompleteTable: like the source, it adds five stars on every call, even for a table already completed.
- Progress.AchievementType: `centurion` has no unlock rule in the source, so it is never awarded (`NeverCenturion`).
