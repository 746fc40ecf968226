# FunnyEnglish — a verified model of the learning core

FunnyEnglish is an English-learning app for children: a Kotlin/Spring
backend serves categories of tests (questions with answers of five kinds:
drag-drop image, audio select, image select, text select, fill-in-the-blank),
scores submitted attempts, keeps a per-user progress record per test, awards
points, levels, day streaks and achievements, and offers an admin area;
a Compose client plays a test through a view model holding the answer sheet.

This Dafny project models that core, one module per source file:

| module | file | models |
|---|---|---|
| `Wrappers`, `Seqs`, `Text` | wrappers.dfy, seqs.dfy, text.dfy | Option/Result, Kotlin `map`/`filter`, and the Kotlin string functions used (`trim`, `uppercase`, `equals`/`contains` ignoring case, `split`, `substringAfterLast`) |
| `Entities`, `Dtos` | entities.dfy, dtos.dfy | the JPA entities (User, Progress, Test, Question, Answer, Achievement, Category) and the request/response records, with their defaults |
| `Repositories` | repositories.dfy | the Spring Data repositories as classes holding maps, mutated by `Save` |
| `ProgressService` | progress_service.dfy | test submission (scoring loop, percentage, stars, progress merge, points policy) and the progress summary |
| `UserService` | user_service.dfy | the level table, `calculateLevel`, `addPoints`, `updateStreak`, the leaderboard ranks |
| `AchievementService` | achievement_service.dfy | the seven achievement rules and the achievement lists |
| `TestDto`, `TestService` | test_dto.dfy, test_service.dfy | catalogue mappings, listings, and test creation, update and deletion |
| `StorageService` | storage_service.dfy | public URLs, key extraction, upload keys, upload and delete on a bucket modelled as a map |
| `AdminService`, `AdminUserController`, `AdminSettingsService` | admin_service.dfy, admin_user_controller.dfy, admin_settings_service.dfy | the admin user search (service and controller) and the settings page |
| `TestViewModel` | test_view_model.dfy | the client's `TestPlayState` and the view model that updates it |

Conventions of the model:

- Ids (UUIDs) are strings. An instant is a whole number of seconds, and
  "now" is a parameter of every operation that reads the clock.
- A `@Transactional` service method either succeeds or leaves every
  repository unchanged; an exception becomes a `Failure` carrying the
  same message (`NoSuchElementException` → `NoSuchElement`,
  `IllegalArgumentException` from `valueOf` → `IllegalArgument`).
- The random UUID of a newly created row comes from a counter held by the
  test repository (`MintId`), which is proved never to repeat; the random
  part of an upload key and the permutation made by `shuffled()` are
  parameters (the permutation as any list with the same multiset).
- A progress record names its test only. The progress summary and the
  per-category counts find a record's category through the current test
  table (`tests`, a map from test id to test), as the source's
  `progress.test.category` does at query time; every record's test must
  be in that table (`RecordsHaveTests`, the foreign key).
- `submitTest` is split into `RecordAttempt` (scoring and the progress
  upsert) and `RewardUser` (streak, points, achievements), which it calls
  in the source's order.
- Repository queries that return lists (`findByUserId`,
  `findByIsPublishedTrueOrderByDisplayOrder`, `findAll` ordered by
  creation date, `findTopByTotalPoints`, `findUserAbove`/`findUserBelow`)
  are taken as given inputs in the order the query returns them.
- The client's answer map is a Kotlin `LinkedHashMap`; it is modelled as
  an association list whose `+` replaces a key in place or appends it.
- Methods with loops (`ScoreSubmission`, `CalculateLevel`,
  `BuildQuestions`, `PlayViewModel.RunTimer`) are proved against the
  functions that specify them; `EvaluateRules` has no loop: it applies the
  seven rules one after another, as the source does, and is proved equal
  to the rule-by-rule function `AwardedBy`. The view model is a class whose
  methods reassign its `state` and keep two invariants: every stored
  answer is keyed by its own question id, and no stored answer selects
  more than one id.

Behaviours of the code that the model keeps, although a reader might
expect otherwise:

- `loadTest` leaves the previous answers, index and elapsed time in place.
- `selectAnswer` on a non-drag-drop question replaces the stored answer by
  one with no drag-drop matches.
- `AdminUserController.getUsers` neither trims the query nor the role, while
  `AdminService.getUsers` trims both; they agree on inputs without
  surrounding whitespace (`AdminUserController.AgreesWithAdminService`).
- `TestService` builds a test's progress map with `associateBy`, so when
  several records share a test id the last one wins; `submitTest` uses the
  first submitted answer for a question (`find`).
- `addPoints` compares levels computed from the points before and after,
  not the stored level; achievement bonuses raise the points without
  recomputing the level.
- `checkAndAwardAchievements` ignores `lastTestStars`, and the rule about
  completed tests counts the user's progress records, one per test.

## Model

| member | source | states |
|---|---|---|
| Entities.ParseQuestionType | backend/src/main/kotlin/com/funnyenglish/service/TestService.kt:125 | a question type string is accepted exactly when its upper-cased form names one of the five constants, and the parsed constant has that name |
| Entities.ParseDifficulty | backend/src/main/kotlin/com/funnyenglish/service/TestService.kt:113 | a difficulty string is accepted exactly when its upper-cased form is EASY, MEDIUM or HARD, and the parsed constant has that name |
| Entities.NewUser | backend/src/main/kotlin/com/funnyenglish/entity/User.kt:32-62 | a new user starts at level 1 with 0 points, streak 0, no last activity, role USER and no achievements |
| Dtos.EmptyAnswer | backend/src/main/kotlin/com/funnyenglish/dto/ProgressDto.kt:18-22 | an answer with no selection and no drag-drop map for the given question |
| Dtos.AchievementToResponse | backend/src/main/kotlin/com/funnyenglish/dto/AchievementDto.kt:15-23 | the response copies id, code and reward and carries the given earned flag |
| Dtos.EntryFor | backend/src/main/kotlin/com/funnyenglish/service/UserService.kt:121-130 | a leaderboard entry carries the given rank and the user's id, points and level |
| Dtos.UserToResponse | backend/src/main/kotlin/com/funnyenglish/dto/UserDto.kt:48-58 | the public response copies id, e-mail, display name and role |
| Repositories.UserRepository.constructor | backend/src/main/kotlin/com/funnyenglish/service/UserService.kt:32-35 | the repository holds exactly the given users, each stored under its own id |
| Repositories.UserRepository.FindById | backend/src/main/kotlin/com/funnyenglish/service/UserService.kt:32-35 | a user is found exactly when its id is stored, and it is the stored record |
| Repositories.UserRepository.Save | backend/src/main/kotlin/com/funnyenglish/service/UserService.kt:73-79 | saving replaces or adds the record under its own id and changes nothing else |
| Repositories.ProgressRepository.constructor | backend/src/main/kotlin/com/funnyenglish/service/ProgressService.kt:76 | the repository holds exactly the given records, each keyed by its (user, test) pair |
| Repositories.ProgressRepository.FindByUserIdAndTestId | backend/src/main/kotlin/com/funnyenglish/service/ProgressService.kt:76 | a record is found exactly when one is stored for the (user, test) pair |
| Repositories.ProgressRepository.Save | backend/src/main/kotlin/com/funnyenglish/service/ProgressService.kt:101 | saving replaces or adds the record of its (user, test) pair and nothing else |
| Entities.QuestionTypeName | backend/src/main/kotlin/com/funnyenglish/entity/Question.kt:38-44 | the constant name of each of the five question types, as `name` spells it |
| Entities.DifficultyName | backend/src/main/kotlin/com/funnyenglish/entity/Test.kt:52-54 | the constant name EASY, MEDIUM or HARD |
| Repositories.ProgressRepository.CountByUserId | backend/src/main/kotlin/com/funnyenglish/repository/ProgressRepository.kt:13 | the number of stored records of the user, one per test |
| Repositories.TestRepository.constructor | backend/src/main/kotlin/com/funnyenglish/service/TestService.kt:72-74 | the repository holds exactly the given tests, and no id it will mint is already taken |
| Repositories.TestRepository.FindById | backend/src/main/kotlin/com/funnyenglish/service/TestService.kt:72-74 | a test is found exactly when its id is stored |
| Repositories.Digits | backend/src/main/kotlin/com/funnyenglish/service/TestService.kt:120 | the decimal digits of a counter, used to mint fresh ids, are non-empty and all digits |
| Repositories.DigitsRoundTrip | backend/src/main/kotlin/com/funnyenglish/service/TestService.kt:120 | reading the digits back gives the counter, so minted ids never repeat |
| Repositories.MintIdInjective | backend/src/main/kotlin/com/funnyenglish/service/TestService.kt:120 | two counters mint the same id only when they are equal |
| ProgressService.FindSubmitted | backend/src/main/kotlin/com/funnyenglish/service/ProgressService.kt:38 | the answer used for a question is the first submitted entry with its id, and none exactly when no entry has it |
| ProgressService.QuestionScore | backend/src/main/kotlin/com/funnyenglish/service/ProgressService.kt:38-62 | a question scores all of its points or nothing, and nothing when it has no submitted answer |
| ProgressService.CorrectIds | backend/src/main/kotlin/com/funnyenglish/service/ProgressService.kt:52-55 | the set of ids of the question's correct answers |
| ProgressService.DragDropCorrect | backend/src/main/kotlin/com/funnyenglish/service/ProgressService.kt:42-49 | every correct answer's id is mapped to that answer's match target, an absent map counting as empty |
| ProgressService.SelectionCorrect | backend/src/main/kotlin/com/funnyenglish/service/ProgressService.kt:50-57 | the selected ids, taken as a set, are exactly the correct ids |
| ProgressService.IsAnsweredCorrectly | backend/src/main/kotlin/com/funnyenglish/service/ProgressService.kt:41-58 | the drag-drop check for a DRAG_DROP_IMAGE question and the selection check for every other type |
| ProgressService.TotalScore | backend/src/main/kotlin/com/funnyenglish/service/ProgressService.kt:33-64 | the points of the questions whose first submitted answer is right, summed over the questions |
| ProgressService.MaxScore | backend/src/main/kotlin/com/funnyenglish/service/ProgressService.kt:34-37 | the points of all questions, answered or not |
| ProgressService.ScoreSubmission | backend/src/main/kotlin/com/funnyenglish/service/ProgressService.kt:33-64 | the loop's score and maximum equal the sum of the earned points and the sum of all points |
| ProgressService.ScoreWithinMax | backend/src/main/kotlin/com/funnyenglish/service/ProgressService.kt:33-64 | with non-negative points, 0 <= score <= maxScore |
| ProgressService.UnansweredScoresZero | backend/src/main/kotlin/com/funnyenglish/service/ProgressService.kt:38-40 | a submission answering none of the questions scores 0 |
| ProgressService.AllRightFullMarks | backend/src/main/kotlin/com/funnyenglish/service/ProgressService.kt:33-64 | answering every question correctly gives score == maxScore |
| ProgressService.FirstEntryWins | backend/src/main/kotlin/com/funnyenglish/service/ProgressService.kt:38 | entries after the first one for a question do not change its score |
| ProgressService.SelectionMeaning | backend/src/main/kotlin/com/funnyenglish/service/ProgressService.kt:50-57 | a select-type question is right exactly when every selected id is a correct answer's id and every correct answer is selected; order and repeats do not matter |
| ProgressService.DragDropMeaning | backend/src/main/kotlin/com/funnyenglish/service/ProgressService.kt:42-49 | a drag-drop question is right exactly when every correct answer with a target is mapped to it and every correct answer without one is unmapped; a missing map counts as empty |
| ProgressService.DragDropIgnoresOtherKeys | backend/src/main/kotlin/com/funnyenglish/service/ProgressService.kt:42-49 | mappings of answers that are not correct do not change the outcome |
| ProgressService.KotlinDiv | backend/src/main/kotlin/com/funnyenglish/service/ProgressService.kt:67 | integer division truncating toward zero, as on the JVM |
| ProgressService.Percentage | backend/src/main/kotlin/com/funnyenglish/service/ProgressService.kt:67 | 0 when maxScore is 0, otherwise floor(score*100/maxScore); within 0..100 for 0 <= score <= maxScore, and 100 exactly at full marks |
| ProgressService.PercentageBounds | backend/src/main/kotlin/com/funnyenglish/service/ProgressService.kt:67 | any quotient of score*100 by maxScore with 0 <= score <= maxScore lies in 0..100 and is 100 only at full marks |
| ProgressService.Stars | backend/src/main/kotlin/com/funnyenglish/service/ProgressService.kt:68-73 | stars are always in 0..3 |
| ProgressService.StarsMonotone | backend/src/main/kotlin/com/funnyenglish/service/ProgressService.kt:68-73 | stars never decrease as the percentage grows; 100 gives 3 and below 60 gives 0 |
| ProgressService.FirstProgress | backend/src/main/kotlin/com/funnyenglish/service/ProgressService.kt:89-99 | a first record has attemptsCount 1, bestScore and score equal to this score, this attempt's stars, and both dates now |
| ProgressService.MergeEffect | backend/src/main/kotlin/com/funnyenglish/service/ProgressService.kt:79-88 | a repeated attempt adds exactly one attempt, keeps the best score and the most stars, takes the latest score, maximum and time, and keeps completedAt |
| ProgressService.MergedProgress | backend/src/main/kotlin/com/funnyenglish/service/ProgressService.kt:79-88 | the stored record with this attempt's score, maximum and time, the larger stars and best score, one more attempt and the attempt time; its user, test and completion time are kept |
| ProgressService.ProgressAfter | backend/src/main/kotlin/com/funnyenglish/service/ProgressService.kt:79-99 | the merged record when one is stored for the pair, otherwise the first record |
| ProgressService.IsNewBestScore | backend/src/main/kotlin/com/funnyenglish/service/ProgressService.kt:77 | no stored record, or a score above the stored best score |
| ProgressService.PointsEarned | backend/src/main/kotlin/com/funnyenglish/service/ProgressService.kt:107-111 | the test's reward plus 5 per star for a new best score, otherwise 2 per star; with non-negative stars and reward a new best never pays less than a retake |
| ProgressService.NewBestScoreEffect | backend/src/main/kotlin/com/funnyenglish/service/ProgressService.kt:76-111 | a new best score becomes the stored best score; otherwise the old best is kept and the reward is 2 per star; the reward is never negative |
| ProgressService.HistoryMeaning | backend/src/main/kotlin/com/funnyenglish/service/ProgressService.kt:76-99 | after any series of attempts the record counts them, holds the best score and the most stars, the last score, and the first and last dates |
| ProgressService.Distinct | backend/src/main/kotlin/com/funnyenglish/service/ProgressService.kt:152-154 | the group keys are the category ids without repeats |
| ProgressService.SumCountsAppend | backend/src/main/kotlin/com/funnyenglish/service/ProgressService.kt:151-152 | the group sizes add up step by step as ids are appended |
| ProgressService.HitsOfDistinct | backend/src/main/kotlin/com/funnyenglish/service/ProgressService.kt:151-152 | an id is hit by at most one distinct key |
| ProgressService.GroupsPartition | backend/src/main/kotlin/com/funnyenglish/service/ProgressService.kt:151-152 | the groups of a groupBy add up to the whole list |
| ProgressService.SumCountsOfNothing | backend/src/main/kotlin/com/funnyenglish/service/ProgressService.kt:151-152 | an empty list has empty groups |
| ProgressService.TestCategoryIds | backend/src/main/kotlin/com/funnyenglish/service/ProgressService.kt:152 | the category id of each test, in order |
| ProgressService.SumStars | backend/src/main/kotlin/com/funnyenglish/service/ProgressService.kt:147 | the sum of the records' stars |
| ProgressService.RecordCategory | backend/src/main/kotlin/com/funnyenglish/service/ProgressService.kt:151 | the category of the record's test in the current test table |
| ProgressService.ProgressCategoryIds | backend/src/main/kotlin/com/funnyenglish/service/ProgressService.kt:151 | for each record, in order, the current category of its test, read through the test table |
| ProgressService.TestsIn | backend/src/main/kotlin/com/funnyenglish/service/ProgressService.kt:152 | the tests of one category: exactly the tests with that category id, as many as it occurs |
| ProgressService.ProgressIn | backend/src/main/kotlin/com/funnyenglish/service/ProgressService.kt:151-155 | the records of one category: exactly the records whose test is in that category now, as many as that category occurs among the records' categories |
| ProgressService.CategoryLine | backend/src/main/kotlin/com/funnyenglish/service/ProgressService.kt:154-164 | a category line carries its id, the name of its first test's category, its test count, 3 stars per test, and the count and star sum of the records whose test is in it now |
| ProgressService.GetUserProgressSummary | backend/src/main/kotlin/com/funnyenglish/service/ProgressService.kt:140-173 | totals are the number of published tests and of the user's records, their star sum and 3 stars per test; one line per distinct category of the tests, in first-occurrence order, each that category's line with records grouped by their test's current category |
| ProgressService.SummaryLines | backend/src/main/kotlin/com/funnyenglish/service/ProgressService.kt:151-164 | no category appears twice; each line has at least one test and 3 stars per test, and carries the count and the star sum of the records whose test is in that category now |
| ProgressService.SummaryCoversTests | backend/src/main/kotlin/com/funnyenglish/service/ProgressService.kt:151-164 | every test's category has a line |
| ProgressService.SummaryPartitions | backend/src/main/kotlin/com/funnyenglish/service/ProgressService.kt:144-164 | the lines' test counts add up to the total; when every record's test is in a listed category, the lines' completed counts add up to completedTests and their star sums to totalStars |
| ProgressService.Lines | backend/src/main/kotlin/com/funnyenglish/service/ProgressService.kt:154-164 | one line per key, in key order, each that key's category line |
| ProgressService.LinesTestsSum | backend/src/main/kotlin/com/funnyenglish/service/ProgressService.kt:154-164 | the lines' test counts add up to the sizes of the test groups of the keys |
| ProgressService.LinesCompletedSum | backend/src/main/kotlin/com/funnyenglish/service/ProgressService.kt:154-164 | the lines' completed counts add up to the sizes of the record groups of the keys |
| ProgressService.LinesStarsSum | backend/src/main/kotlin/com/funnyenglish/service/ProgressService.kt:154-164 | the lines' star sums add up to the star totals of the record groups of the keys |
| ProgressService.SumStarsAppend | backend/src/main/kotlin/com/funnyenglish/service/ProgressService.kt:147 | the star sum grows by the stars of an appended record |
| ProgressService.ProgressInAppend | backend/src/main/kotlin/com/funnyenglish/service/ProgressService.kt:151-155 | an appended record joins the group of its test's category and no other |
| ProgressService.StarsOverAppend | backend/src/main/kotlin/com/funnyenglish/service/ProgressService.kt:151-161 | with distinct keys, an appended record adds its stars to the groups' star total exactly when its category is a key |
| ProgressService.StarsOverNothing | backend/src/main/kotlin/com/funnyenglish/service/ProgressService.kt:151-161 | no records give a star total of 0 over any keys |
| ProgressService.StarsPartition | backend/src/main/kotlin/com/funnyenglish/service/ProgressService.kt:147-161 | when the keys are distinct and cover every record's category, the groups' star totals add up to the star sum of all records |
| ProgressService.RecordAttempt | backend/src/main/kotlin/com/funnyenglish/service/ProgressService.kt:33-101 | the score, maximum, percentage and stars are the specified ones, the best-score flag compares with the stored record, and the record of (user, test) becomes the first record or the merged one, no other record changing |
| ProgressService.RewardUser | backend/src/main/kotlin/com/funnyenglish/service/ProgressService.kt:103-117 | the reward follows the points policy; the user's streak, then points and level, then achievements are updated in that order, only that user changes, and the level-up and new achievements returned are those of the updates |
| ProgressService.SubmitTest | backend/src/main/kotlin/com/funnyenglish/service/ProgressService.kt:21-129 | unknown test or user fails with no change; otherwise the scored attempt is merged into its record, streak, points, level-up and achievements are applied to the user, and the response carries score, percentage, stars, best-score flag, reward, level-up and new achievements |
| UserService.ThresholdsAscending | backend/src/main/kotlin/com/funnyenglish/service/UserService.kt:20-29 | the 8 thresholds start at 0 and strictly increase |
| UserService.HighestTierReached | backend/src/main/kotlin/com/funnyenglish/service/UserService.kt:184-191 | the index of the highest threshold not above the points, scanning from the top |
| UserService.LevelFor | backend/src/main/kotlin/com/funnyenglish/service/UserService.kt:184-191 | a level is always in 1..8 |
| UserService.CalculateLevel | backend/src/main/kotlin/com/funnyenglish/service/UserService.kt:184-191 | the reversed-index loop returns the level of the points |
| UserService.TierReachedIsBelowHighest | backend/src/main/kotlin/com/funnyenglish/service/UserService.kt:184-191 | any reached threshold is at or below the highest one |
| UserService.TierMissedIsAboveHighest | backend/src/main/kotlin/com/funnyenglish/service/UserService.kt:184-191 | any threshold above the points is above the highest reached one |
| UserService.LevelIsTierContainingPoints | backend/src/main/kotlin/com/funnyenglish/service/UserService.kt:184-191 | for non-negative points, the level is l exactly when the points lie between threshold l and threshold l+1 |
| UserService.LevelMonotone | backend/src/main/kotlin/com/funnyenglish/service/UserService.kt:184-191 | more points never give a lower level |
| UserService.CalculateLevelInfo | backend/src/main/kotlin/com/funnyenglish/service/UserService.kt:193-197 | points to the next level are the distance to the next threshold, or to Int.MAX_VALUE past the last tier, and never negative |
| UserService.GetLevelTitle | backend/src/main/kotlin/com/funnyenglish/service/UserService.kt:199-201 | the title of tier level-1, or the last title when the level is out of range |
| UserService.AddPointsEffect | backend/src/main/kotlin/com/funnyenglish/service/UserService.kt:62-90 | points grow by exactly the amount; level-up is reported exactly when the level of the new total exceeds that of the old total, with the old level, the new level and its title; otherwise the stored level is kept |
| UserService.PointsAdded | backend/src/main/kotlin/com/funnyenglish/service/UserService.kt:62-90 | the user with the points raised by the amount, updatedAt now and the level raised when the computed level grows, paired with the level-up report exactly then |
| UserService.LevelUpNeedsPositivePoints | backend/src/main/kotlin/com/funnyenglish/service/UserService.kt:81-87 | a level-up can only come from a positive amount |
| UserService.AddPointsNeverLowersLevel | backend/src/main/kotlin/com/funnyenglish/service/UserService.kt:62-79 | the stored level never drops, and stays consistent with the points for a non-negative amount |
| UserService.LevelNeverDecreases | backend/src/main/kotlin/com/funnyenglish/service/UserService.kt:62-79 | over any series of non-negative awards the level never drops and the points add up |
| UserService.AddPoints | backend/src/main/kotlin/com/funnyenglish/service/UserService.kt:62-90 | unknown user fails with no change; otherwise the user record is replaced by the updated one |
| UserService.WholeDaysBetween | backend/src/main/kotlin/com/funnyenglish/service/UserService.kt:101 | Duration.toDays: whole days between two instants, truncated toward zero |
| UserService.NextStreak | backend/src/main/kotlin/com/funnyenglish/service/UserService.kt:97-107 | no previous activity gives 1; a 0-day gap keeps the streak; a 1-day gap adds 1; any other gap gives 1 |
| UserService.StreakUpdated | backend/src/main/kotlin/com/funnyenglish/service/UserService.kt:109-115 | only the streak, the last activity (now) and updatedAt change |
| UserService.UpdateStreak | backend/src/main/kotlin/com/funnyenglish/service/UserService.kt:92-116 | unknown user fails with no change; otherwise the user record is replaced by the streak-updated one |
| UserService.CountWithMorePoints | backend/src/main/kotlin/com/funnyenglish/service/UserService.kt:148 | the number of top users with strictly more points is at most the list length |
| UserService.IndexOfUserId | backend/src/main/kotlin/com/funnyenglish/service/UserService.kt:142 | the first position of the user among the entries, none exactly when absent |
| UserService.GetLeaderboard | backend/src/main/kotlin/com/funnyenglish/service/UserService.kt:118-182 | entry i has rank i+1; the user's rank is the first position + 1 when listed, else the count of top users with more points + 1; the users above and below get rank-1 and rank+1; no rank for an anonymous or unknown user |
| UserService.CountRankAtMostPositionRank | backend/src/main/kotlin/com/funnyenglish/service/UserService.kt:142-149 | in a list sorted by points, the counted rank of a listed user is at most its position rank |
| UserService.NoneAbove | backend/src/main/kotlin/com/funnyenglish/service/UserService.kt:148 | a user with at least the top score has counted rank 1 |
| AchievementService.FindByCode | backend/src/main/kotlin/com/funnyenglish/service/AchievementService.kt:52-54 | the catalogue entry with the code, none exactly when no entry has it |
| AchievementService.AwardedUser | backend/src/main/kotlin/com/funnyenglish/service/AchievementService.kt:100-111 | the awarded achievements are added to the user's set; points grow by their reward sum only when it is positive; nothing else changes |
| AchievementService.RuleHolds | backend/src/main/kotlin/com/funnyenglish/service/AchievementService.kt:50-97 | the condition of each of the seven rules: at least 1 completed test, 100 percent, streaks of at least 3, 7 and 30 days, at least 10 and 50 completed tests |
| AchievementService.EarnedCodes | backend/src/main/kotlin/com/funnyenglish/service/AchievementService.kt:44 | the codes of the achievements the user holds |
| AchievementService.AwardedBy | backend/src/main/kotlin/com/funnyenglish/service/AchievementService.kt:50-97 | the catalogue entries the first n rules add, in rule order, each when its code is unearned, its condition holds and the catalogue has it |
| AchievementService.Awarded | backend/src/main/kotlin/com/funnyenglish/service/AchievementService.kt:44-97 | what one call awards, from the user's earned codes and streak, the completed-test count and the percentage |
| AchievementService.SumRewards | backend/src/main/kotlin/com/funnyenglish/service/AchievementService.kt:105 | the sum of the awarded achievements' rewards |
| AchievementService.AwardedAreSound | backend/src/main/kotlin/com/funnyenglish/service/AchievementService.kt:44-97 | every awarded achievement comes from a rule whose condition holds, whose code was not already earned and which is in the catalogue |
| AchievementService.AwardedAreComplete | backend/src/main/kotlin/com/funnyenglish/service/AchievementService.kt:50-97 | every rule whose condition holds, whose code is not earned and whose code is in the catalogue is awarded |
| AchievementService.AwardedFollowRuleOrder | backend/src/main/kotlin/com/funnyenglish/service/AchievementService.kt:50-97 | at most one award per rule, in the fixed rule order |
| AchievementService.RuleCodesDistinct | backend/src/main/kotlin/com/funnyenglish/service/AchievementService.kt:50-97 | the seven rule codes differ, so no code is awarded twice in one call |
| AchievementService.AwardIsIdempotent | backend/src/main/kotlin/com/funnyenglish/service/AchievementService.kt:44-102 | a second evaluation with unchanged statistics awards nothing |
| AchievementService.NothingAwarded | backend/src/main/kotlin/com/funnyenglish/service/AchievementService.kt:50-97 | when no rule contributes, nothing is awarded |
| AchievementService.AwardStep | backend/src/main/kotlin/com/funnyenglish/service/AchievementService.kt:50-97 | each rule appends at most its catalogue entry to what the earlier rules awarded |
| AchievementService.ApplyRule | backend/src/main/kotlin/com/funnyenglish/service/AchievementService.kt:51-56 | one rule appends the catalogue entry when eligible and present, else nothing |
| AchievementService.EvaluateRules | backend/src/main/kotlin/com/funnyenglish/service/AchievementService.kt:44-97 | the chain of seven rules produces exactly the awarded list |
| AchievementService.CheckAndAwardAchievements | backend/src/main/kotlin/com/funnyenglish/service/AchievementService.kt:40-114 | unknown user fails with no change; otherwise the awards are saved into the user and returned in order, each marked earned |
| AchievementService.GetAllAchievements | backend/src/main/kotlin/com/funnyenglish/service/AchievementService.kt:20-33 | one response per visible achievement, earned exactly when the caller has one with its id; none earned for an anonymous caller |
| AchievementService.GetUserAchievements | backend/src/main/kotlin/com/funnyenglish/service/AchievementService.kt:35-38 | one response per earned achievement, each marked earned |
| TestDto.DefaultCreateTestRequest | backend/src/main/kotlin/com/funnyenglish/dto/TestDto.kt:106-124 | a create request defaults to EASY, 10 points, no time limit, unpublished, display order 0 |
| TestDto.CountPublished | backend/src/main/kotlin/com/funnyenglish/dto/TestDto.kt:168 | the number of published tests is at most the number of tests |
| TestDto.CountPublishedExtremes | backend/src/main/kotlin/com/funnyenglish/dto/TestDto.kt:168 | all tests count exactly when all are published, and none exactly when none is |
| TestDto.CategoryToResponse | backend/src/main/kotlin/com/funnyenglish/dto/TestDto.kt:163-171 | testsCount counts only published tests; completedCount and totalStars pass through |
| TestDto.TestToListResponse | backend/src/main/kotlin/com/funnyenglish/dto/TestDto.kt:173-190 | questionsCount is the question count; userProgress is absent exactly when there is no record, else completed with the record's best score, maximum and stars |
| TestDto.QuestionToResponse | backend/src/main/kotlin/com/funnyenglish/dto/TestDto.kt:204-212 | the player question copies its fields and its answers are a permutation of the mapped answers |
| TestDto.PlayerAnswersArePermutation | backend/src/main/kotlin/com/funnyenglish/dto/TestDto.kt:211 | the player answers are exactly the question's answers, as many, in some order |
| TestDto.TestToDetailResponse | backend/src/main/kotlin/com/funnyenglish/dto/TestDto.kt:192-202 | the player test copies its fields and keeps question order and count, each with permuted answers |
| TestDto.AnswerToAdminResponse | backend/src/main/kotlin/com/funnyenglish/dto/TestDto.kt:247-255 | the admin answer copies every field, isCorrect included |
| TestDto.AnswerToResponse | backend/src/main/kotlin/com/funnyenglish/dto/TestDto.kt:214-220 | the player's answer copies id, text, image, audio and match target and has no correctness field |
| TestDto.QuestionToAdminResponse | backend/src/main/kotlin/com/funnyenglish/dto/TestDto.kt:236-245 | the admin question keeps its answers in order and number |
| TestDto.TestToAdminResponse | backend/src/main/kotlin/com/funnyenglish/dto/TestDto.kt:222-234 | the admin test copies every field and keeps question order and number |
| TestDto.AdminViewKeepsCorrectness | backend/src/main/kotlin/com/funnyenglish/dto/TestDto.kt:222-255 | the admin view of any answer has its id and correctness flag |
| TestService.UserProgress | backend/src/main/kotlin/com/funnyenglish/service/TestService.kt:43-46 | the caller's records: exactly the records of that user |
| TestService.SumStarsBounded | backend/src/main/kotlin/com/funnyenglish/service/TestService.kt:30 | with stars in 0..3, a star sum lies within 0..3 per record |
| TestService.CategoryProgress | backend/src/main/kotlin/com/funnyenglish/service/TestService.kt:26-34 | for a signed-in caller, exactly the caller's records whose test is in the category now; none for an anonymous caller |
| TestService.GetCategories | backend/src/main/kotlin/com/funnyenglish/service/TestService.kt:19-38 | one line per category, in order, with its published-test count and the count and star sum of the caller's records whose test is in it now |
| TestService.CategoryCountsBounded | backend/src/main/kotlin/com/funnyenglish/service/TestService.kt:19-38 | an anonymous caller sees 0 completed and 0 stars; stars never exceed 3 per completed test |
| TestService.ProgressByTest | backend/src/main/kotlin/com/funnyenglish/service/TestService.kt:43-46 | the record kept for a test id by associateBy is the last one with that id, none exactly when absent |
| TestService.ProgressMap | backend/src/main/kotlin/com/funnyenglish/service/TestService.kt:43-49 | none for an anonymous caller, otherwise the record associateBy keeps for the test among the caller's records |
| TestService.Published | backend/src/main/kotlin/com/funnyenglish/service/TestService.kt:57 | the published tests: exactly those with the flag set |
| TestService.PublishedIn | backend/src/main/kotlin/com/funnyenglish/service/TestService.kt:41 | the published tests of a category |
| TestService.ListTests | backend/src/main/kotlin/com/funnyenglish/service/TestService.kt:51-53 | one list line per test, in order |
| TestService.ListedProgress | backend/src/main/kotlin/com/funnyenglish/service/TestService.kt:43-53 | a line carries progress exactly when the caller has a record for that test, and then that record's summary |
| TestService.ListedIds | backend/src/main/kotlin/com/funnyenglish/service/TestService.kt:40-70 | every published test of the scope is listed, and only those |
| TestService.GetTestsByCategory | backend/src/main/kotlin/com/funnyenglish/service/TestService.kt:40-54 | every published test of the category is listed, only those, each with that category |
| TestService.GetAllTests | backend/src/main/kotlin/com/funnyenglish/service/TestService.kt:56-70 | every published test is listed, and only those |
| TestService.AnonymousSeesNoProgress | backend/src/main/kotlin/com/funnyenglish/service/TestService.kt:59-69 | an anonymous caller's lines carry no progress |
| TestService.GetTestById | backend/src/main/kotlin/com/funnyenglish/service/TestService.kt:72-82 | fails with Test not found exactly when the id is absent, else the player view of that test |
| TestService.GetTestByIdForAdmin | backend/src/main/kotlin/com/funnyenglish/service/TestService.kt:85-94 | fails with Test not found exactly when the id is absent, else the admin view of that test |
| TestService.GetAllTestsForAdmin | backend/src/main/kotlin/com/funnyenglish/service/TestService.kt:96-101 | one admin view per test, published or not, in order |
| TestService.DisplayOrderOr | backend/src/main/kotlin/com/funnyenglish/service/TestService.kt:129 | the requested display order when positive, otherwise the index |
| TestService.QuestionId | backend/src/main/kotlin/com/funnyenglish/service/TestService.kt:122-133 | the id of the i-th question created for a test, standing for a fresh UUID |
| TestService.AnswerId | backend/src/main/kotlin/com/funnyenglish/service/TestService.kt:135-145 | the id of the j-th answer created for a question, standing for a fresh UUID |
| TestService.AnswerFrom | backend/src/main/kotlin/com/funnyenglish/service/TestService.kt:135-145 | the answer row of the j-th answer request: its fields copied, the requested display order or the index, and its positional id |
| TestService.AnswersFrom | backend/src/main/kotlin/com/funnyenglish/service/TestService.kt:135-146 | one answer per request, in order |
| TestService.QuestionFrom | backend/src/main/kotlin/com/funnyenglish/service/TestService.kt:123-131 | a question request fails exactly when its type names no constant |
| TestService.QuestionsFrom | backend/src/main/kotlin/com/funnyenglish/service/TestService.kt:122-147 | all questions are built, in order, exactly when every request is valid |
| TestService.QuestionsFromFirstFailure | backend/src/main/kotlin/com/funnyenglish/service/TestService.kt:122-147 | a failure is the first invalid question's failure, all earlier ones being valid |
| TestService.QuestionsFromPrefixFailure | backend/src/main/kotlin/com/funnyenglish/service/TestService.kt:122-147 | once a prefix fails, later requests do not matter |
| TestService.BuildStep | backend/src/main/kotlin/com/funnyenglish/service/TestService.kt:122-147 | one more valid question request extends a complete build by its question, and all requests so far are valid |
| TestService.PrefixInvalid | backend/src/main/kotlin/com/funnyenglish/service/TestService.kt:122-147 | an invalid request among the first n makes the whole list invalid |
| TestService.DisplayOrderFallback | backend/src/main/kotlin/com/funnyenglish/service/TestService.kt:129-142 | built questions and answers take the positive requested order or their index, and keep correctness and targets |
| TestService.BuildQuestions | backend/src/main/kotlin/com/funnyenglish/service/TestService.kt:122-147 | the forEachIndexed loop builds exactly the questions of the requests, or the first failure |
| TestService.CreatedTest | backend/src/main/kotlin/com/funnyenglish/service/TestService.kt:103-150 | a test is created exactly when the category exists, the difficulty parses and every question type parses; a missing category fails with Category not found |
| TestService.CreatedTestFields | backend/src/main/kotlin/com/funnyenglish/service/TestService.kt:105-148 | the new test copies the request, upper-cases the difficulty, is stamped now and has one question per request |
| TestService.CreateTest | backend/src/main/kotlin/com/funnyenglish/service/TestService.kt:103-150 | on failure nothing changes; on success the new test is stored under a fresh id and its admin view returned |
| TestService.UpdatedTest | backend/src/main/kotlin/com/funnyenglish/service/TestService.kt:152-211 | fails for a missing test or category or an invalid difficulty or question type, and succeeds otherwise |
| TestService.MergedTest | backend/src/main/kotlin/com/funnyenglish/service/TestService.kt:157-173 | the stored test with every field the request gives replaced and the rest kept, the category and its name from the given category, updatedAt now, and the built questions when given |
| TestService.UpdateMergesFields | backend/src/main/kotlin/com/funnyenglish/service/TestService.kt:157-208 | each field (title, description, thumbnail, difficulty, reward, time limit, published flag, display order, category id and name) takes the request value when present and keeps the old one otherwise; id and creation date are kept, the update time is now; questions are replaced exactly when given |
| TestService.EmptyUpdateKeepsTest | backend/src/main/kotlin/com/funnyenglish/service/TestService.kt:157-173 | an empty update only restamps updatedAt |
| TestService.UpdateTest | backend/src/main/kotlin/com/funnyenglish/service/TestService.kt:152-211 | on failure nothing changes; on success only this test is replaced and its admin view returned |
| TestService.DeleteTest | backend/src/main/kotlin/com/funnyenglish/service/TestService.kt:213-218 | fails with Test not found exactly when absent; otherwise removes that test from the test table (progress records naming it are not touched: see Left out) |
| StorageService.ExtensionOf | backend/src/main/kotlin/com/funnyenglish/service/StorageService.kt:26 | the text after the last dot of the file name, or empty when there is no dot or no name; it holds no dot |
| StorageService.UploadKey | backend/src/main/kotlin/com/funnyenglish/service/StorageService.kt:27 | an upload key lies in its folder |
| StorageService.UploadKeyKeepsExtension | backend/src/main/kotlin/com/funnyenglish/service/StorageService.kt:26-27 | the extension can be read back from the key |
| StorageService.Storage.constructor | backend/src/main/kotlin/com/funnyenglish/service/StorageService.kt:109-111 | a service for one endpoint and bucket with the given objects |
| StorageService.Storage.PublicUrl | backend/src/main/kotlin/com/funnyenglish/service/StorageService.kt:109-111 | a public URL is the bucket prefix followed by the key |
| StorageService.Storage.Prefix | backend/src/main/kotlin/com/funnyenglish/service/StorageService.kt:109-111 | the endpoint and the bucket followed by slashes: what every public URL starts with |
| StorageService.Storage.ExtractKey | backend/src/main/kotlin/com/funnyenglish/service/StorageService.kt:113-120 | a key is extracted exactly when the URL starts with the prefix, and prefix + key rebuilds the URL |
| StorageService.Storage.ExtractPublicUrl | backend/src/main/kotlin/com/funnyenglish/service/StorageService.kt:109-120 | every key comes back out of its public URL |
| StorageService.Storage.UploadFile | backend/src/main/kotlin/com/funnyenglish/service/StorageService.kt:25-38 | the object is stored under folder/id.extension and its public URL returned |
| StorageService.Storage.UploadBytes | backend/src/main/kotlin/com/funnyenglish/service/StorageService.kt:40-52 | the object is stored under folder/id.extension and its public URL returned |
| StorageService.Storage.DeleteFile | backend/src/main/kotlin/com/funnyenglish/service/StorageService.kt:54-63 | a URL outside the bucket changes nothing; otherwise exactly its object is removed |
| AdminService.NormalizedQuery | backend/src/main/kotlin/com/funnyenglish/service/AdminService.kt:27 | no query exactly when absent or blank, otherwise the trimmed, non-empty query |
| AdminService.NormalizedRole | backend/src/main/kotlin/com/funnyenglish/service/AdminService.kt:28 | no role exactly when absent or blank, otherwise the trimmed, upper-cased, non-empty role |
| AdminService.GetUsers | backend/src/main/kotlin/com/funnyenglish/service/AdminService.kt:26-43 | one response per kept user, in order |
| AdminService.MatchesRole | backend/src/main/kotlin/com/funnyenglish/service/AdminService.kt:33-35 | no normalized role, or the user's role equal to it ignoring case |
| AdminService.MatchesQuery | backend/src/main/kotlin/com/funnyenglish/service/AdminService.kt:36-40 | no normalized query, or the display name or the e-mail containing it ignoring case |
| AdminService.Matching | backend/src/main/kotlin/com/funnyenglish/service/AdminService.kt:27-40 | the users passing the role filter and then the query filter, in order, both filters normalized first |
| AdminService.MatchingUsers | backend/src/main/kotlin/com/funnyenglish/service/AdminService.kt:30-42 | the kept users are an order-preserving subsequence, and a user is kept exactly when it passes the role filter and the query filter |
| AdminService.NoFiltersListEveryone | backend/src/main/kotlin/com/funnyenglish/service/AdminService.kt:27-40 | with no or blank query and role, every user is listed |
| AdminService.EqualsIgnoreCaseUpper | backend/src/main/kotlin/com/funnyenglish/service/AdminService.kt:28-34 | upper-casing one side does not change a comparison ignoring case |
| AdminService.RoleFilterIgnoresCase | backend/src/main/kotlin/com/funnyenglish/service/AdminService.kt:28-35 | with a non-blank role, the filter compares the user's role with the trimmed role ignoring case |
| AdminUserController.Filtered | backend/src/main/kotlin/com/funnyenglish/controller/AdminUserController.kt:29-35 | the listed users are an order-preserving subsequence, and a user is listed exactly when it passes the query and role predicates |
| AdminUserController.QueryPasses | backend/src/main/kotlin/com/funnyenglish/controller/AdminUserController.kt:30-32 | a null or blank query, or the e-mail or the display name containing the untrimmed query ignoring case |
| AdminUserController.RolePasses | backend/src/main/kotlin/com/funnyenglish/controller/AdminUserController.kt:33 | a null or blank role, or the user's role equal to the untrimmed role ignoring case |
| AdminUserController.Summary | backend/src/main/kotlin/com/funnyenglish/controller/AdminUserController.kt:36-49 | a summary copies id, e-mail, name, avatar, role, level, points, streak and creation date, and carries the statistics |
| AdminUserController.GetUsers | backend/src/main/kotlin/com/funnyenglish/controller/AdminUserController.kt:23-51 | one summary per listed user, in order, with that user's statistics |
| AdminUserController.SameQueryVerdict | backend/src/main/kotlin/com/funnyenglish/controller/AdminUserController.kt:30-32 | for a query without surrounding whitespace, the controller's query test accepts a user exactly when the admin service's does |
| AdminUserController.SameRoleVerdict | backend/src/main/kotlin/com/funnyenglish/controller/AdminUserController.kt:33 | for a role without surrounding whitespace, the controller's role test accepts a user exactly when the admin service's does |
| AdminUserController.AgreesWithAdminService | backend/src/main/kotlin/com/funnyenglish/controller/AdminUserController.kt:29-35 | for a query and role without surrounding whitespace, the controller lists the same users as the admin service |
| AdminSettingsService.TrimAddsNothing | backend/src/main/kotlin/com/funnyenglish/service/AdminSettingsService.kt:18 | trimming adds no character |
| AdminSettingsService.TrimmedMember | backend/src/main/kotlin/com/funnyenglish/service/AdminSettingsService.kt:17-18 | a string is among the trimmed pieces exactly when it is the trim of one comma-separated piece |
| AdminSettingsService.OriginsAreClean | backend/src/main/kotlin/com/funnyenglish/service/AdminSettingsService.kt:17-19 | no origin is empty, holds a comma, or starts or ends with whitespace |
| AdminSettingsService.Origins | backend/src/main/kotlin/com/funnyenglish/service/AdminSettingsService.kt:17-19 | the comma pieces of the setting, trimmed, with the empty ones dropped, in order |
| AdminSettingsService.OriginsAreTrimmedPieces | backend/src/main/kotlin/com/funnyenglish/service/AdminSettingsService.kt:17-19 | the origins are exactly the non-empty trimmed comma-separated pieces, in order |
| AdminSettingsService.BlankCons | backend/src/main/kotlin/com/funnyenglish/service/AdminSettingsService.kt:18-19 | a string is blank exactly when its first character is whitespace and the rest is blank |
| AdminSettingsService.SplitAllBlank | backend/src/main/kotlin/com/funnyenglish/service/AdminSettingsService.kt:17-19 | all pieces are blank exactly when every character is a comma or whitespace |
| AdminSettingsService.NoOriginsIff | backend/src/main/kotlin/com/funnyenglish/service/AdminSettingsService.kt:17-19 | no origins exactly when the setting holds only commas and whitespace (empty and blank included) |
| AdminSettingsService.GetSettings | backend/src/main/kotlin/com/funnyenglish/service/AdminSettingsService.kt:16-29 | every setting passes through verbatim except the origins, which are the parsed list |
| TestViewModel.DefaultState | composeApp/src/commonMain/kotlin/com/funnyenglish/app/viewmodel/TestViewModel.kt:15-24 | no test, no answers, index 0, time 0, not loading or submitting, no result, no error |
| TestViewModel.Lookup | composeApp/src/commonMain/kotlin/com/funnyenglish/app/viewmodel/TestViewModel.kt:76 | the answer map's entry for a question, none exactly when absent |
| TestViewModel.CurrentAnswer | composeApp/src/commonMain/kotlin/com/funnyenglish/app/viewmodel/TestViewModel.kt:101 | the stored answer of the question, or a fresh empty answer for it |
| TestViewModel.IsDragDrop | composeApp/src/commonMain/kotlin/com/funnyenglish/app/viewmodel/TestViewModel.kt:77-80 | a test is loaded and its first question with the id is a drag-drop question |
| TestViewModel.QuestionsCount | composeApp/src/commonMain/kotlin/com/funnyenglish/app/viewmodel/TestViewModel.kt:112 | the loaded test's number of questions, 0 without a test |
| TestViewModel.TimeLimit | composeApp/src/commonMain/kotlin/com/funnyenglish/app/viewmodel/TestViewModel.kt:66 | the loaded test's time limit, none without a test or a limit |
| TestViewModel.Put | composeApp/src/commonMain/kotlin/com/funnyenglish/app/viewmodel/TestViewModel.kt:95-97 | LinkedHashMap plus: the key maps to the new value, every other key is unchanged, and a new key is appended |
| TestViewModel.PutKeepsKeyed | composeApp/src/commonMain/kotlin/com/funnyenglish/app/viewmodel/TestViewModel.kt:95-107 | storing an answer under its own question id keeps every entry keyed by its question id, with no repeated key |
| TestViewModel.LookupEntry | composeApp/src/commonMain/kotlin/com/funnyenglish/app/viewmodel/TestViewModel.kt:76 | in a keyed map, looking up an entry's key gives its value |
| TestViewModel.FindQuestion | composeApp/src/commonMain/kotlin/com/funnyenglish/app/viewmodel/TestViewModel.kt:77 | the first question with the id, none exactly when no question has it |
| TestViewModel.CurrentAnswerIsKeyed | composeApp/src/commonMain/kotlin/com/funnyenglish/app/viewmodel/TestViewModel.kt:76-82 | the current answer of a question, stored or new, carries that question id |
| TestViewModel.CurrentAnswerSelectsAtMostOne | composeApp/src/commonMain/kotlin/com/funnyenglish/app/viewmodel/TestViewModel.kt:76-92 | the current answer has at most one selected id when all stored ones do |
| TestViewModel.PutKeepsAtMostOne | composeApp/src/commonMain/kotlin/com/funnyenglish/app/viewmodel/TestViewModel.kt:95-97 | storing an answer with at most one selected id keeps that bound for all |
| TestViewModel.RemoveFirst | composeApp/src/commonMain/kotlin/com/funnyenglish/app/viewmodel/TestViewModel.kt:86-87 | list minus an element removes one occurrence, or nothing when absent |
| TestViewModel.Selected | composeApp/src/commonMain/kotlin/com/funnyenglish/app/viewmodel/TestViewModel.kt:75-98 | drag-drop keeps the current answer; otherwise an already selected id is removed, a new one becomes the whole selection, and the matches are dropped; selections never exceed one id |
| TestViewModel.Matched | composeApp/src/commonMain/kotlin/com/funnyenglish/app/viewmodel/TestViewModel.kt:100-104 | the answer maps answerId to the target, keeps every other match and the selection |
| TestViewModel.SubmitRequest | composeApp/src/commonMain/kotlin/com/funnyenglish/app/viewmodel/TestViewModel.kt:134-145 | no request without a test; otherwise the test id, the map's answers in order and timeSpentSeconds = timeElapsed |
| TestViewModel.RequestCarriesTheAnswerMap | composeApp/src/commonMain/kotlin/com/funnyenglish/app/viewmodel/TestViewModel.kt:141-145 | the request holds an answer for a question exactly when the map does, and no question twice |
| TestViewModel.AfterSubmit | composeApp/src/commonMain/kotlin/com/funnyenglish/app/viewmodel/TestViewModel.kt:133-161 | no test changes nothing; otherwise submitting ends and a success stores the result and clears the error, a failure stores the message |
| TestViewModel.TicksToLimit | composeApp/src/commonMain/kotlin/com/funnyenglish/app/viewmodel/TestViewModel.kt:61-70 | the number of one-second ticks until the elapsed time first reaches the limit |
| TestViewModel.PlayViewModel.constructor | composeApp/src/commonMain/kotlin/com/funnyenglish/app/viewmodel/TestViewModel.kt:30 | the view model starts in the default state |
| TestViewModel.PlayViewModel.LoadTest | composeApp/src/commonMain/kotlin/com/funnyenglish/app/viewmodel/TestViewModel.kt:35-54 | a loaded test is stored and the error cleared; a failure stores its message; nothing else changes |
| TestViewModel.PlayViewModel.SelectAnswer | composeApp/src/commonMain/kotlin/com/funnyenglish/app/viewmodel/TestViewModel.kt:75-98 | only the question's entry changes, to the selected answer, and the keyed and single-selection invariants hold |
| TestViewModel.PlayViewModel.SetDragDropMatch | composeApp/src/commonMain/kotlin/com/funnyenglish/app/viewmodel/TestViewModel.kt:100-108 | only the question's entry changes, to the matched answer, and the invariants hold |
| TestViewModel.PlayViewModel.GoToNextQuestion | composeApp/src/commonMain/kotlin/com/funnyenglish/app/viewmodel/TestViewModel.kt:110-117 | moves forward only before the last question, and keeps the index in range |
| TestViewModel.PlayViewModel.GoToPreviousQuestion | composeApp/src/commonMain/kotlin/com/funnyenglish/app/viewmodel/TestViewModel.kt:119-124 | moves back only after the first question, and keeps the index in range |
| TestViewModel.PlayViewModel.GoToQuestion | composeApp/src/commonMain/kotlin/com/funnyenglish/app/viewmodel/TestViewModel.kt:126-131 | jumps only to an index within the questions, and keeps the index in range |
| TestViewModel.PlayViewModel.SubmitTest | composeApp/src/commonMain/kotlin/com/funnyenglish/app/viewmodel/TestViewModel.kt:133-161 | sends the request built from the state and applies the outcome |
| TestViewModel.PlayViewModel.RunTimer | composeApp/src/commonMain/kotlin/com/funnyenglish/app/viewmodel/TestViewModel.kt:56-73 | each tick adds one second; on reaching the limit the test is submitted once with that elapsed time and ticking stops; otherwise the time grows by the seconds run |
| TestViewModel.PlayViewModel.ResetTest | composeApp/src/commonMain/kotlin/com/funnyenglish/app/viewmodel/TestViewModel.kt:163-166 | back to the default state |

## Left out

- Network, HTTP routing, Spring configuration, security and authentication (JWT, bcrypt) are not part of this model.
- The S3 client is not modelled: presigned URLs and `ensureBucketExists` (StorageService.kt lines 65-107) are left out, and the bucket is a map from key to content type that upload and delete update.
- `UUID.fromString` parse errors are not modelled: ids are strings and a malformed id behaves like an unknown one.
- `AdminUserController.getUserDetail` (lines 53-70) only gathers results of other services and is left out; `AdminService.getAnalytics` only forwards repository counts and is left out.
- `UserService.getUserStats` is a parameter of `AdminUserController.GetUsers`; its own queries are not modelled.
- Repository ordering is input: the `ORDER BY displayOrder` of the test queries and the `@OrderBy` of questions and answers are not re-established by the model.
- Int overflow: every integer is unbounded, so 32-bit wrap-around of points, scores and elapsed time is not modelled; `CalculateLevelInfo` states the `Int.MAX_VALUE` gap only for points up to `Int.MAX_VALUE`.
- `Text.Upper` upper-cases ASCII letters only; Kotlin's `uppercase()` also maps other Unicode letters.
- Text.EqualsIgnoreCase and Text.ContainsIgnoreCase: characters are compared after the ASCII-only `Text.UpperChar`, while Kotlin's `equals`/`contains` with `ignoreCase = true` compare the Unicode upper-case and then the lower-case form of each character; non-ASCII letters (Cyrillic names such as "Анна" against "анна", for instance) therefore match only in the same case.
- AdminService.MatchingUsers and AdminUserController.Filtered: inherit that gap. The query and role filters (`AdminService.MatchesQuery`, `AdminService.MatchesRole`, `AdminUserController.QueryPasses`, `AdminUserController.RolePasses`) do not fold the case of non-ASCII letters, so the model keeps fewer users than the source does for a query that differs from a name only in the case of such letters.
- TestService.DeleteTest: removes the test from the test table only and always succeeds. In the database, a progress row holds a non-null foreign key to its test, and a test cascades only to its questions. Deleting a test that has progress records therefore either fails with a constraint violation and rolls back, or removes those records too, depending on the schema migration, which is not part of this model. The model does neither, so after such a deletion `ProgressService.RecordsHaveTests`, the precondition of the progress summary and of `TestService.GetCategories`, can fail for the remaining records.
- Concurrency and time on the client: coroutines, `delay`, timer cancellation and `MutableStateFlow` emission are not modelled. The timer is `PlayViewModel.RunTimer`, which runs a given number of one-second ticks; `loadTest` starting the timer is a separate call to it.
- TestViewModel.PlayViewModel.LoadTest: the intermediate `isLoading = true` state is collapsed into the final one, and the test arrives as a given outcome of the API call.
- TestViewModel.PlayViewModel.SubmitTest: the intermediate `isSubmitting = true` state is collapsed, and the outcome of the API call is a parameter; the request it would send is returned.
- TestService.CreateTest and TestService.UpdateTest: new question and answer rows get ids derived from the test id and their positions, not fresh UUIDs. After an update that replaces the questions, the new questions and answers therefore reuse their predecessors' ids, so a submission built against the old questions is scored against the new ones; with the source's fresh UUIDs such a submission matches no question and scores 0.
- ProgressService.SubmitTest: the achievement count of tests completed is read from the progress repository after the attempt is saved, as in the code; the response's achievement order is the rule order.
