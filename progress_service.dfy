/** Test submission and progress (ProgressService.kt): all-or-nothing
    scoring per question, percentage and stars, the merge of an attempt into
    the (user, test) progress record, the points policy, and the per-category
    progress summary. */
module ProgressService {
  import opened Wrappers
  import opened Entities
  import opened Dtos
  import opened Repositories
  import UserService
  import AchievementService

  // ---------------------------------------------------------------- scoring

  /** `request.answers.find { it.questionId == questionId }`: the first entry
      for the question, if any. */
  function FindSubmitted(answers: seq<SubmitAnswerRequest>, questionId: Uuid): (r: Option<SubmitAnswerRequest>)
    ensures r.None? <==> forall i :: 0 <= i < |answers| ==> answers[i].questionId != questionId
    ensures r.Some? ==> exists i :: 0 <= i < |answers| && answers[i] == r.value && r.value.questionId == questionId
                                    && forall j :: 0 <= j < i ==> answers[j].questionId != questionId
  {
    if answers == [] then None
    else if answers[0].questionId == questionId then Some(answers[0])
    else
      var r := FindSubmitted(answers[1..], questionId);
      if r.Some? then
        ghost var i :| 0 <= i < |answers[1..]| && answers[1..][i] == r.value && r.value.questionId == questionId
                       && forall j :: 0 <= j < i ==> answers[1..][j].questionId != questionId;
        assert answers[i + 1] == r.value;
        r
      else r
  }

  /** The ids of the question's correct answers. */
  function CorrectIds(q: Question): set<Uuid> {
    set a | a in q.answers && a.isCorrect :: a.id
  }

  /** `matches[key]`: the target an answer was dropped on, if any. */
  function Lookup(matches: map<string, string>, key: string): Option<string> {
    if key in matches then Some(matches[key]) else None
  }

  /** A drag-drop question is right when every correct answer is mapped to
      its match target (a missing map counts as empty). */
  predicate DragDropCorrect(q: Question, s: SubmitAnswerRequest) {
    var matches := s.dragDropMatches.GetOr(map[]);
    forall a | a in q.answers && a.isCorrect :: Lookup(matches, a.id) == a.matchTarget
  }

  /** Any other question is right when the selected ids, as a set, are the
      correct ids. */
  predicate SelectionCorrect(q: Question, s: SubmitAnswerRequest) {
    (set x | x in s.selectedAnswerIds) == CorrectIds(q)
  }

  predicate IsAnsweredCorrectly(q: Question, s: SubmitAnswerRequest) {
    match q.qtype
    case DragDropImage => DragDropCorrect(q, s)
    case _ => SelectionCorrect(q, s)
  }

  /** What question `q` adds to the score: all its points when its first
      submitted entry is right, nothing otherwise. */
  function QuestionScore(q: Question, answers: seq<SubmitAnswerRequest>): (r: int)
    ensures FindSubmitted(answers, q.id).None? ==> r == 0
    ensures r == 0 || r == q.points
  {
    match FindSubmitted(answers, q.id)
    case None => 0
    case Some(s) => if IsAnsweredCorrectly(q, s) then q.points else 0
  }

  /** The score of a submission over `questions`. */
  function TotalScore(questions: seq<Question>, answers: seq<SubmitAnswerRequest>): int {
    if questions == [] then 0
    else TotalScore(questions[..|questions| - 1], answers) + QuestionScore(questions[|questions| - 1], answers)
  }

  /** The points of all questions, answered or not. */
  function MaxScore(questions: seq<Question>): int {
    if questions == [] then 0
    else MaxScore(questions[..|questions| - 1]) + questions[|questions| - 1].points
  }

  /** The scoring loop of `submitTest`. */
  method ScoreSubmission(questions: seq<Question>, answers: seq<SubmitAnswerRequest>) returns (score: int, maxScore: int)
    ensures score == TotalScore(questions, answers)
    ensures maxScore == MaxScore(questions)
  {
    score := 0;
    maxScore := 0;
    for i := 0 to |questions|
      invariant score == TotalScore(questions[..i], answers)
      invariant maxScore == MaxScore(questions[..i])
    {
      var question := questions[i];
      maxScore := maxScore + question.points;
      var submittedAnswer := FindSubmitted(answers, question.id);
      if submittedAnswer.Some? {
        var isCorrect := IsAnsweredCorrectly(question, submittedAnswer.value);
        if isCorrect {
          score := score + question.points;
        }
      }
      assert questions[..i + 1][..i] == questions[..i];
    }
    assert questions[..|questions|] == questions;
  }

  predicate NonNegativePoints(questions: seq<Question>) {
    forall i :: 0 <= i < |questions| ==> questions[i].points >= 0
  }

  /** With non-negative points the score lies between 0 and the maximum. */
  lemma {:induction false} ScoreWithinMax(questions: seq<Question>, answers: seq<SubmitAnswerRequest>)
    requires NonNegativePoints(questions)
    ensures 0 <= TotalScore(questions, answers) <= MaxScore(questions)
    decreases |questions|
  {
    if questions != [] {
      ScoreWithinMax(questions[..|questions| - 1], answers);
    }
  }

  /** A submission that answers none of the questions scores 0, while the
      maximum is unaffected by what was submitted. */
  lemma {:induction false} UnansweredScoresZero(questions: seq<Question>, answers: seq<SubmitAnswerRequest>)
    requires forall i, j :: 0 <= i < |questions| && 0 <= j < |answers| ==> answers[j].questionId != questions[i].id
    ensures TotalScore(questions, answers) == 0
    decreases |questions|
  {
    if questions != [] {
      UnansweredScoresZero(questions[..|questions| - 1], answers);
    }
  }

  /** When the first entry of every question is right, the score is the maximum. */
  lemma {:induction false} AllRightFullMarks(questions: seq<Question>, answers: seq<SubmitAnswerRequest>)
    requires forall i :: 0 <= i < |questions| ==>
      FindSubmitted(answers, questions[i].id).Some? && IsAnsweredCorrectly(questions[i], FindSubmitted(answers, questions[i].id).value)
    ensures TotalScore(questions, answers) == MaxScore(questions)
    decreases |questions|
  {
    if questions != [] {
      AllRightFullMarks(questions[..|questions| - 1], answers);
    }
  }

  /** Only the first entry for a question counts: entries after it, for the
      same question or any other, do not change that question's score. */
  lemma {:induction false} FirstEntryWins(q: Question, answers: seq<SubmitAnswerRequest>, later: seq<SubmitAnswerRequest>)
    requires exists i :: 0 <= i < |answers| && answers[i].questionId == q.id
    ensures QuestionScore(q, answers + later) == QuestionScore(q, answers)
    decreases |answers|
  {
    if answers[0].questionId != q.id {
      assert (answers + later)[1..] == answers[1..] + later;
      FirstEntryWins(q, answers[1..], later);
    }
  }

  /** A select-type question is right iff every selected id is correct and
      every correct id is selected; order and repetitions do not matter, and
      a partial overlap is wrong. */
  lemma SelectionMeaning(q: Question, s: SubmitAnswerRequest)
    requires q.qtype != DragDropImage
    ensures IsAnsweredCorrectly(q, s) <==>
      && (forall i :: 0 <= i < |s.selectedAnswerIds| ==> exists a :: a in q.answers && a.isCorrect && a.id == s.selectedAnswerIds[i])
      && (forall a :: a in q.answers && a.isCorrect ==> a.id in s.selectedAnswerIds)
  {
    var selected := set x | x in s.selectedAnswerIds;
    if (forall i :: 0 <= i < |s.selectedAnswerIds| ==> exists a :: a in q.answers && a.isCorrect && a.id == s.selectedAnswerIds[i])
       && (forall a :: a in q.answers && a.isCorrect ==> a.id in s.selectedAnswerIds) {
      assert selected == CorrectIds(q) by {
        forall x | x in selected ensures x in CorrectIds(q) {
          var i :| 0 <= i < |s.selectedAnswerIds| && s.selectedAnswerIds[i] == x;
        }
      }
    }
    if IsAnsweredCorrectly(q, s) {
      forall i | 0 <= i < |s.selectedAnswerIds|
        ensures exists a :: a in q.answers && a.isCorrect && a.id == s.selectedAnswerIds[i]
      {
        assert s.selectedAnswerIds[i] in selected;
      }
      forall a | a in q.answers && a.isCorrect ensures a.id in s.selectedAnswerIds {
        assert a.id in CorrectIds(q);
      }
    }
  }

  /** A drag-drop question is right iff each correct answer with a target is
      mapped to exactly that target and each correct answer without a
      target is not mapped at all. */
  lemma DragDropMeaning(q: Question, s: SubmitAnswerRequest)
    requires q.qtype == DragDropImage
    ensures IsAnsweredCorrectly(q, s) <==>
      forall a | a in q.answers && a.isCorrect ::
        if a.matchTarget.Some? then s.dragDropMatches.Some? && a.id in s.dragDropMatches.value && s.dragDropMatches.value[a.id] == a.matchTarget.value
        else s.dragDropMatches.None? || a.id !in s.dragDropMatches.value
  {
  }

  /** Drag-drop matches for ids that are not correct answers are ignored. */
  lemma DragDropIgnoresOtherKeys(q: Question, s: SubmitAnswerRequest, key: string, target: string)
    requires q.qtype == DragDropImage && s.dragDropMatches.Some?
    requires forall a :: a in q.answers && a.isCorrect ==> a.id != key
    ensures IsAnsweredCorrectly(q, s.(dragDropMatches := Some(s.dragDropMatches.value[key := target]))) == IsAnsweredCorrectly(q, s)
  {
  }

  // ------------------------------------------------------- percentage, stars

  /** Kotlin's `/` on `Int`: rounds toward zero. */
  function KotlinDiv(a: int, b: int): (q: int)
    requires b > 0
    ensures a >= 0 ==> q * b <= a < (q + 1) * b
    ensures a < 0 ==> (q - 1) * b < a <= q * b
  {
    if a >= 0 then a / b else -((-a) / b)
  }

  /** `if (maxScore > 0) (score * 100) / maxScore else 0`. */
  function Percentage(score: int, maxScore: int): (p: int)
    ensures maxScore <= 0 ==> p == 0
    ensures 0 <= score && 0 < maxScore ==> p * maxScore <= score * 100 < (p + 1) * maxScore
    ensures 0 <= score <= maxScore ==> 0 <= p <= 100
    ensures 0 <= score <= maxScore && maxScore > 0 ==> (p == 100 <==> score == maxScore)
  {
    if maxScore > 0 then
      var p := KotlinDiv(score * 100, maxScore);
      if 0 <= score <= maxScore then PercentageBounds(score, maxScore, p); p else p
    else 0
  }

  lemma MulMonotone(a: int, b: int, m: int)
    requires a <= b && m >= 0
    ensures a * m <= b * m
  {
    assert b * m - a * m == (b - a) * m;
  }

  /** The quotient `p` of `score * 100` by `maxScore` is a percentage, and
      100 exactly when the score is full. */
  lemma PercentageBounds(score: int, maxScore: int, p: int)
    requires 0 <= score <= maxScore && 0 < maxScore
    requires p * maxScore <= score * 100 < (p + 1) * maxScore
    ensures 0 <= p <= 100
    ensures p == 100 <==> score == maxScore
  {
    if p < 0 {
      MulMonotone(p + 1, 0, maxScore);
    }
    if p > 100 {
      MulMonotone(101, p, maxScore);
      MulMonotone(score, maxScore, 100);
    }
    if score == maxScore && p < 100 {
      MulMonotone(p + 1, 100, maxScore);
    }
    if score < maxScore && p >= 100 {
      MulMonotone(100, p, maxScore);
      MulMonotone(score, maxScore - 1, 100);
    }
  }

  /** Stars for a percentage: 3 from 95, 2 from 80, 1 from 60, else 0. */
  function Stars(percentage: int): (stars: int)
    ensures 0 <= stars <= 3
  {
    if percentage >= 95 then 3
    else if percentage >= 80 then 2
    else if percentage >= 60 then 1
    else 0
  }

  /** A better percentage never earns fewer stars; a perfect one earns three,
      and below 60 none. */
  lemma StarsMonotone(p: int, q: int)
    requires p <= q
    ensures Stars(p) <= Stars(q)
    ensures Stars(100) == 3 && (q < 60 ==> Stars(q) == 0)
  {
  }

  // ------------------------------------------------------- progress records

  /** The record a user's first attempt at a test creates: one attempt, best
      score = this score, completed and last attempted now. */
  function FirstProgress(userId: Uuid, test: Test, score: int, maxScore: int, stars: int, timeSpent: Option<int>, now: Instant): (p: Progress)
    ensures p.userId == userId && p.testId == test.id
    ensures p.attemptsCount == 1 && p.bestScore == score && p.score == score && p.stars == stars
    ensures p.completedAt == now && p.lastAttemptAt == now
  {
    Progress(userId, test.id, score, maxScore, stars, 1, score, timeSpent, now, now)
  }

  function Max(a: int, b: int): int {
    if a >= b then a else b
  }

  /** `existingProgress.copy(...)`: a later attempt merged into the record. */
  function MergedProgress(existing: Progress, score: int, maxScore: int, stars: int, timeSpent: Option<int>, now: Instant): (p: Progress)
    ensures p.userId == existing.userId && p.testId == existing.testId && p.completedAt == existing.completedAt
  {
    existing.(
      score := score,
      maxScore := maxScore,
      stars := Max(existing.stars, stars),
      attemptsCount := existing.attemptsCount + 1,
      bestScore := Max(existing.bestScore, score),
      timeSpentSeconds := timeSpent,
      lastAttemptAt := now)
  }

  /** A merge counts one more attempt, keeps the best score and the most
      stars, takes this attempt's score, maximum, time and timestamp, and
      changes nothing else (the completion time in particular). */
  lemma MergeEffect(existing: Progress, score: int, maxScore: int, stars: int, timeSpent: Option<int>, now: Instant)
    ensures var p := MergedProgress(existing, score, maxScore, stars, timeSpent, now);
      && p.attemptsCount == existing.attemptsCount + 1
      && p.bestScore >= existing.bestScore && p.bestScore >= score && (p.bestScore == existing.bestScore || p.bestScore == score)
      && p.stars >= existing.stars && p.stars >= stars && (p.stars == existing.stars || p.stars == stars)
      && p.score == score && p.maxScore == maxScore && p.timeSpentSeconds == timeSpent && p.lastAttemptAt == now
      && p.completedAt == existing.completedAt && p.userId == existing.userId && p.testId == existing.testId
  {
  }

  /** The record `submitTest` saves, given what was stored before. */
  function ProgressAfter(existing: Option<Progress>, userId: Uuid, test: Test, score: int, maxScore: int, stars: int, timeSpent: Option<int>, now: Instant): Progress {
    match existing
    case Some(e) => MergedProgress(e, score, maxScore, stars, timeSpent, now)
    case None => FirstProgress(userId, test, score, maxScore, stars, timeSpent, now)
  }

  /** `existingProgress == null || score > existingProgress.bestScore`. */
  predicate IsNewBestScore(existing: Option<Progress>, score: int) {
    existing.None? || score > existing.value.bestScore
  }

  /** The points policy: the test's reward plus 5 per star for a new best
      score, 2 per star for any other retake. */
  function PointsEarned(isNewBestScore: bool, pointsReward: int, stars: int): (points: int)
    ensures 0 <= stars && 0 <= pointsReward ==> 2 * stars <= points
  {
    if isNewBestScore then pointsReward + stars * 5 else stars * 2
  }

  /** A new best score raises the stored best score to it exactly; any other
      attempt leaves the best score as it was and pays 2 points a star. */
  lemma NewBestScoreEffect(existing: Option<Progress>, userId: Uuid, test: Test, score: int, maxScore: int, stars: int, timeSpent: Option<int>, now: Instant)
    ensures IsNewBestScore(existing, score) ==>
      ProgressAfter(existing, userId, test, score, maxScore, stars, timeSpent, now).bestScore == score
    ensures !IsNewBestScore(existing, score) ==>
      && ProgressAfter(existing, userId, test, score, maxScore, stars, timeSpent, now).bestScore == existing.value.bestScore
      && PointsEarned(false, test.pointsReward, stars) == 2 * stars
    ensures 0 <= stars <= 3 && test.pointsReward >= 0 ==>
      PointsEarned(IsNewBestScore(existing, score), test.pointsReward, stars) >= 0
  {
  }

  /** One attempt at a test. */
  datatype Attempt = Attempt(score: int, maxScore: int, stars: int, timeSpent: Option<int>, at: Instant)

  /** The record after a series of attempts by one user at one test. */
  function History(userId: Uuid, test: Test, attempts: seq<Attempt>): Progress
    requires |attempts| >= 1
  {
    var a := attempts[|attempts| - 1];
    if |attempts| == 1 then FirstProgress(userId, test, a.score, a.maxScore, a.stars, a.timeSpent, a.at)
    else MergedProgress(History(userId, test, attempts[..|attempts| - 1]), a.score, a.maxScore, a.stars, a.timeSpent, a.at)
  }

  /** The largest of a non-empty list. */
  function MaxOf(xs: seq<int>): int
    requires |xs| >= 1
  {
    if |xs| == 1 then xs[0] else Max(MaxOf(xs[..|xs| - 1]), xs[|xs| - 1])
  }

  /** Over any series of attempts the record counts them all, holds the best
      score and the most stars ever reached, the last attempt's score, and
      the time of the first attempt as its completion time. */
  lemma {:induction false} HistoryMeaning(userId: Uuid, test: Test, attempts: seq<Attempt>)
    requires |attempts| >= 1
    ensures var p := History(userId, test, attempts);
      && p.attemptsCount == |attempts|
      && p.bestScore == MaxOf(seq(|attempts|, i requires 0 <= i < |attempts| => attempts[i].score))
      && p.stars == MaxOf(seq(|attempts|, i requires 0 <= i < |attempts| => attempts[i].stars))
      && p.score == attempts[|attempts| - 1].score
      && p.completedAt == attempts[0].at
      && p.lastAttemptAt == attempts[|attempts| - 1].at
    decreases |attempts|
  {
    if |attempts| > 1 {
      var init := attempts[..|attempts| - 1];
      HistoryMeaning(userId, test, init);
      var scores := seq(|attempts|, i requires 0 <= i < |attempts| => attempts[i].score);
      var stars := seq(|attempts|, i requires 0 <= i < |attempts| => attempts[i].stars);
      assert scores[..|scores| - 1] == seq(|init|, i requires 0 <= i < |init| => init[i].score);
      assert stars[..|stars| - 1] == seq(|init|, i requires 0 <= i < |init| => init[i].stars);
    }
  }

  // ---------------------------------------------------------------- summary

  /** The ids in order of first appearance (the keys of a `groupBy`). */
  function Distinct(ids: seq<Uuid>): (keys: seq<Uuid>)
    ensures forall i, j :: 0 <= i < j < |keys| ==> keys[i] != keys[j]
    ensures forall c :: c in keys <==> c in ids
  {
    if ids == [] then []
    else
      var keys := Distinct(ids[..|ids| - 1]);
      assert ids == ids[..|ids| - 1] + [ids[|ids| - 1]];
      if ids[|ids| - 1] in keys then keys else keys + [ids[|ids| - 1]]
  }

  /** How often `c` occurs in `ids`. */
  function Count(ids: seq<Uuid>, c: Uuid): nat {
    if ids == [] then 0
    else Count(ids[..|ids| - 1], c) + (if ids[|ids| - 1] == c then 1 else 0)
  }

  /** The total of `Count(ids, k)` over the keys `keys`. */
  function SumCounts(keys: seq<Uuid>, ids: seq<Uuid>): nat {
    if keys == [] then 0 else Count(ids, keys[0]) + SumCounts(keys[1..], ids)
  }

  /** How many of `keys` equal `x`. */
  function Hits(keys: seq<Uuid>, x: Uuid): nat {
    if keys == [] then 0 else (if keys[0] == x then 1 else 0) + Hits(keys[1..], x)
  }

  lemma {:induction false} SumCountsAppend(keys: seq<Uuid>, ids: seq<Uuid>, x: Uuid)
    ensures SumCounts(keys, ids + [x]) == SumCounts(keys, ids) + Hits(keys, x)
    decreases |keys|
  {
    if keys != [] {
      assert (ids + [x])[..|ids + [x]| - 1] == ids;
      SumCountsAppend(keys[1..], ids, x);
    }
  }

  lemma {:induction false} HitsOfDistinct(keys: seq<Uuid>, x: Uuid)
    requires forall i, j :: 0 <= i < j < |keys| ==> keys[i] != keys[j]
    ensures Hits(keys, x) == (if x in keys then 1 else 0)
    decreases |keys|
  {
    if keys != [] {
      HitsOfDistinct(keys[1..], x);
      if keys[0] == x {
        assert x !in keys[1..] by {
          forall j | 0 <= j < |keys[1..]| ensures keys[1..][j] != x {
            assert keys[1..][j] == keys[j + 1];
          }
        }
      }
    }
  }

  /** Grouping by distinct keys that cover every id partitions the ids:
      the group sizes add up to the number of ids. */
  lemma {:induction false} GroupsPartition(keys: seq<Uuid>, ids: seq<Uuid>)
    requires forall i, j :: 0 <= i < j < |keys| ==> keys[i] != keys[j]
    requires forall c :: c in ids ==> c in keys
    ensures SumCounts(keys, ids) == |ids|
    decreases |ids|
  {
    if ids == [] {
      SumCountsOfNothing(keys);
    } else {
      var init := ids[..|ids| - 1];
      var x := ids[|ids| - 1];
      assert ids == init + [x];
      GroupsPartition(keys, init);
      SumCountsAppend(keys, init, x);
      HitsOfDistinct(keys, x);
    }
  }

  lemma {:induction false} SumCountsOfNothing(keys: seq<Uuid>)
    ensures SumCounts(keys, []) == 0
    decreases |keys|
  {
    if keys != [] {
      SumCountsOfNothing(keys[1..]);
    }
  }

  /** The category ids of the tests, in order. */
  function TestCategoryIds(tests: seq<Test>): (ids: seq<Uuid>)
    ensures |ids| == |tests| && forall i :: 0 <= i < |tests| ==> ids[i] == tests[i].categoryId
  {
    seq(|tests|, i requires 0 <= i < |tests| => tests[i].categoryId)
  }

  /** Every record's test is in the test table: the foreign key of
      `progress.test_id`. */
  predicate RecordsHaveTests(records: seq<Progress>, tests: map<Uuid, Test>) {
    forall p :: p in records ==> p.testId in tests
  }

  /** `p.test.category.id`: the category the record's test belongs to now. */
  function RecordCategory(tests: map<Uuid, Test>, p: Progress): Uuid
    requires p.testId in tests
  {
    tests[p.testId].categoryId
  }

  /** The current category ids of the progress records' tests, in order. */
  function ProgressCategoryIds(records: seq<Progress>, tests: map<Uuid, Test>): (ids: seq<Uuid>)
    requires RecordsHaveTests(records, tests)
    ensures |ids| == |records|
    ensures forall i :: 0 <= i < |records| ==> records[i].testId in tests && ids[i] == tests[records[i].testId].categoryId
  {
    seq(|records|, i requires 0 <= i < |records| => assert records[i] in records; RecordCategory(tests, records[i]))
  }

  /** The tests of category `c`, in order. */
  function TestsIn(tests: seq<Test>, c: Uuid): (r: seq<Test>)
    ensures |r| == Count(TestCategoryIds(tests), c)
    ensures forall t :: t in r <==> t in tests && t.categoryId == c
  {
    if tests == [] then []
    else
      var init := tests[..|tests| - 1];
      assert TestCategoryIds(tests)[..|tests| - 1] == TestCategoryIds(init);
      assert tests == init + [tests[|tests| - 1]];
      TestsIn(init, c) + (if tests[|tests| - 1].categoryId == c then [tests[|tests| - 1]] else [])
  }

  /** The progress records whose test is in category `c` now, in order. */
  function ProgressIn(records: seq<Progress>, tests: map<Uuid, Test>, c: Uuid): (r: seq<Progress>)
    requires RecordsHaveTests(records, tests)
    ensures |r| == Count(ProgressCategoryIds(records, tests), c)
    ensures forall p :: p in r <==> p in records && tests[p.testId].categoryId == c
  {
    if records == [] then []
    else
      var init := records[..|records| - 1];
      var last := records[|records| - 1];
      assert records == init + [last];
      assert RecordsHaveTests(init, tests);
      assert ProgressCategoryIds(records, tests)[..|records| - 1] == ProgressCategoryIds(init, tests);
      ProgressIn(init, tests, c) + (if tests[last.testId].categoryId == c then [last] else [])
  }

  function SumStars(records: seq<Progress>): int {
    if records == [] then 0 else records[0].stars + SumStars(records[1..])
  }

  /** Stars add up over an appended record. */
  lemma {:induction false} SumStarsAppend(records: seq<Progress>, p: Progress)
    ensures SumStars(records + [p]) == SumStars(records) + p.stars
  {
    if records != [] {
      assert (records + [p])[1..] == records[1..] + [p];
      SumStarsAppend(records[1..], p);
    }
  }

  /** The summary line of category `c`: its published tests, and the user's
      records whose test is in `c` now, with their star total. */
  function CategoryLine(c: Uuid, allTests: seq<Test>, tests: map<Uuid, Test>, progressList: seq<Progress>): (line: CategoryProgressResponse)
    requires RecordsHaveTests(progressList, tests)
    ensures line.categoryId == c && line.maxStars == 3 * line.testsCount
    ensures line.testsCount == |TestsIn(allTests, c)| && line.completedCount == |ProgressIn(progressList, tests, c)|
    ensures line.totalStars == SumStars(ProgressIn(progressList, tests, c))
    ensures line.categoryName == (if TestsIn(allTests, c) != [] then TestsIn(allTests, c)[0].categoryName else "")
  {
    var categoryTests := TestsIn(allTests, c);
    var categoryProgress := ProgressIn(progressList, tests, c);
    CategoryProgressResponse(
      c,
      if categoryTests != [] then categoryTests[0].categoryName else "",
      |categoryTests|,
      |categoryProgress|,
      SumStars(categoryProgress),
      |categoryTests| * 3)
  }

  /** `getUserProgressSummary`: `progressList` is the user's records,
      `allTests` the published tests in display order and `tests` the test
      table, through which each record finds its category. */
  function GetUserProgressSummary(progressList: seq<Progress>, allTests: seq<Test>, tests: map<Uuid, Test>): (r: UserProgressSummary)
    requires RecordsHaveTests(progressList, tests)
    ensures r.totalTests == |allTests| && r.completedTests == |progressList|
    ensures r.totalStars == SumStars(progressList) && r.maxPossibleStars == 3 * |allTests|
    ensures |r.categoriesProgress| == |Distinct(TestCategoryIds(allTests))|
    ensures forall i :: 0 <= i < |r.categoriesProgress| ==>
      r.categoriesProgress[i] == CategoryLine(Distinct(TestCategoryIds(allTests))[i], allTests, tests, progressList)
  {
    var keys := Distinct(TestCategoryIds(allTests));
    UserProgressSummary(
      |allTests|,
      |progressList|,
      SumStars(progressList),
      |allTests| * 3,
      Lines(keys, allTests, tests, progressList))
  }

  /** The summary's categories are distinct and each has at least one test,
      three stars per test at most, and the count and star total of the
      user's records whose test is in it now. */
  lemma SummaryLines(progressList: seq<Progress>, allTests: seq<Test>, tests: map<Uuid, Test>)
    requires RecordsHaveTests(progressList, tests)
    ensures var lines := GetUserProgressSummary(progressList, allTests, tests).categoriesProgress;
      && (forall i, j :: 0 <= i < j < |lines| ==> lines[i].categoryId != lines[j].categoryId)
      && (forall i :: 0 <= i < |lines| ==> lines[i].testsCount >= 1 && lines[i].maxStars == 3 * lines[i].testsCount)
      && (forall i :: 0 <= i < |lines| ==> lines[i].completedCount == |ProgressIn(progressList, tests, lines[i].categoryId)|)
      && (forall i :: 0 <= i < |lines| ==> lines[i].totalStars == SumStars(ProgressIn(progressList, tests, lines[i].categoryId)))
  {
    var ids := TestCategoryIds(allTests);
    var keys := Distinct(ids);
    var lines := GetUserProgressSummary(progressList, allTests, tests).categoriesProgress;
    forall i | 0 <= i < |lines|
      ensures lines[i].categoryId == keys[i] && lines[i].testsCount >= 1 && lines[i].maxStars == 3 * lines[i].testsCount
      ensures lines[i].completedCount == |ProgressIn(progressList, tests, lines[i].categoryId)|
      ensures lines[i].totalStars == SumStars(ProgressIn(progressList, tests, lines[i].categoryId))
    {
      var line := CategoryLine(keys[i], allTests, tests, progressList);
      assert lines[i] == line;
      assert keys[i] in ids;
      CategoryHasTest(allTests, keys[i]);
    }
  }

  /** A category some test names has that test among its tests. */
  lemma CategoryHasTest(allTests: seq<Test>, c: Uuid)
    requires c in TestCategoryIds(allTests)
    ensures TestsIn(allTests, c) != []
  {
    var ids := TestCategoryIds(allTests);
    var k :| 0 <= k < |ids| && ids[k] == c;
    assert allTests[k] in TestsIn(allTests, c);
  }

  /** Every published test's category has a line in the summary. */
  lemma SummaryCoversTests(progressList: seq<Progress>, allTests: seq<Test>, tests: map<Uuid, Test>, t: Test)
    requires RecordsHaveTests(progressList, tests)
    requires t in allTests
    ensures var lines := GetUserProgressSummary(progressList, allTests, tests).categoriesProgress;
      exists i :: 0 <= i < |lines| && lines[i].categoryId == t.categoryId
  {
    var ids := TestCategoryIds(allTests);
    var keys := Distinct(ids);
    var k :| 0 <= k < |allTests| && allTests[k] == t;
    assert ids[k] == t.categoryId;
    assert t.categoryId in ids;
    assert t.categoryId in keys;
    var i :| 0 <= i < |keys| && keys[i] == t.categoryId;
    var lines := GetUserProgressSummary(progressList, allTests, tests).categoriesProgress;
    assert lines[i] == CategoryLine(keys[i], allTests, tests, progressList);
    assert lines[i].categoryId == keys[i];
  }

  /** Every record's test is, now, in the category of some published test. */
  predicate InPublishedCategories(progressList: seq<Progress>, allTests: seq<Test>, tests: map<Uuid, Test>)
    requires RecordsHaveTests(progressList, tests)
  {
    forall p :: p in progressList ==> exists t :: t in allTests && t.categoryId == tests[p.testId].categoryId
  }

  /** The categories' test counts add up to the number of published tests,
      and, when every record's test is in a published test's category, their
      completed counts add up to the number of records and their star totals
      to the summary's star total. */
  lemma SummaryPartitions(progressList: seq<Progress>, allTests: seq<Test>, tests: map<Uuid, Test>)
    requires RecordsHaveTests(progressList, tests)
    ensures var lines := GetUserProgressSummary(progressList, allTests, tests).categoriesProgress;
      SumTestsCounts(lines) == |allTests|
    ensures InPublishedCategories(progressList, allTests, tests) ==>
      var r := GetUserProgressSummary(progressList, allTests, tests);
      SumCompletedCounts(r.categoriesProgress) == r.completedTests && SumLineStars(r.categoriesProgress) == r.totalStars
  {
    var ids := TestCategoryIds(allTests);
    var keys := Distinct(ids);
    GroupsPartition(keys, ids);
    LinesTestsSum(keys, allTests, tests, progressList);
    LinesCompletedSum(keys, allTests, tests, progressList);
    LinesStarsSum(keys, allTests, tests, progressList);
    if InPublishedCategories(progressList, allTests, tests) {
      var pids := ProgressCategoryIds(progressList, tests);
      forall c | c in pids ensures c in keys {
        var k :| 0 <= k < |pids| && pids[k] == c;
        assert progressList[k] in progressList;
        var t :| t in allTests && t.categoryId == tests[progressList[k].testId].categoryId;
        var m :| 0 <= m < |allTests| && allTests[m] == t;
        assert ids[m] == c;
      }
      GroupsPartition(keys, pids);
      StarsPartition(keys, progressList, tests);
    }
  }

  function SumTestsCounts(lines: seq<CategoryProgressResponse>): int {
    if lines == [] then 0 else lines[0].testsCount + SumTestsCounts(lines[1..])
  }

  function SumCompletedCounts(lines: seq<CategoryProgressResponse>): int {
    if lines == [] then 0 else lines[0].completedCount + SumCompletedCounts(lines[1..])
  }

  function SumLineStars(lines: seq<CategoryProgressResponse>): int {
    if lines == [] then 0 else lines[0].totalStars + SumLineStars(lines[1..])
  }

  /** The total of the star sums of the categories `keys`. */
  function StarsOver(keys: seq<Uuid>, records: seq<Progress>, tests: map<Uuid, Test>): int
    requires RecordsHaveTests(records, tests)
  {
    if keys == [] then 0 else SumStars(ProgressIn(records, tests, keys[0])) + StarsOver(keys[1..], records, tests)
  }

  /** Every record of an extended list has its test in the table when
      every record of the list and the new one have. */
  lemma HaveTestsInit(records: seq<Progress>, tests: map<Uuid, Test>, p: Progress)
    requires RecordsHaveTests(records + [p], tests)
    ensures RecordsHaveTests(records, tests) && p.testId in tests
  {
    assert p in records + [p];
    forall q | q in records ensures q.testId in tests {
      assert q in records + [p];
    }
  }

  /** An appended record joins the group of its test's category. */
  lemma ProgressInAppend(records: seq<Progress>, tests: map<Uuid, Test>, p: Progress, c: Uuid)
    requires RecordsHaveTests(records + [p], tests)
    ensures RecordsHaveTests(records, tests)
    ensures ProgressIn(records + [p], tests, c)
      == ProgressIn(records, tests, c) + (if tests[p.testId].categoryId == c then [p] else [])
  {
    HaveTestsInit(records, tests, p);
    var all := records + [p];
    assert all[..|all| - 1] == records && all[|all| - 1] == p;
  }

  /** Over distinct keys, an appended record adds its stars once when its
      category is among the keys, and not at all otherwise. */
  lemma {:induction false} StarsOverAppend(keys: seq<Uuid>, records: seq<Progress>, tests: map<Uuid, Test>, p: Progress)
    requires RecordsHaveTests(records + [p], tests)
    requires forall i, j :: 0 <= i < j < |keys| ==> keys[i] != keys[j]
    ensures RecordsHaveTests(records, tests)
    ensures StarsOver(keys, records + [p], tests)
      == StarsOver(keys, records, tests) + (if tests[p.testId].categoryId in keys then p.stars else 0)
    decreases |keys|
  {
    HaveTestsInit(records, tests, p);
    if keys != [] {
      var c := tests[p.testId].categoryId;
      assert c in keys <==> c == keys[0] || c in keys[1..];
      if c == keys[0] {
        assert c !in keys[1..] by {
          forall j | 0 <= j < |keys[1..]| ensures keys[1..][j] != c {
            assert keys[1..][j] == keys[j + 1];
          }
        }
      }
      StarsOverAppend(keys[1..], records, tests, p);
      ProgressInAppend(records, tests, p, keys[0]);
      var before := ProgressIn(records, tests, keys[0]);
      if c == keys[0] {
        assert ProgressIn(records + [p], tests, keys[0]) == before + [p];
        SumStarsAppend(before, p);
      } else {
        assert ProgressIn(records + [p], tests, keys[0]) == before;
      }
    }
  }

  /** Grouping the records by distinct keys that cover their categories
      keeps every star: the groups' star sums add up to the total. */
  lemma {:induction false} StarsPartition(keys: seq<Uuid>, records: seq<Progress>, tests: map<Uuid, Test>)
    requires RecordsHaveTests(records, tests)
    requires forall i, j :: 0 <= i < j < |keys| ==> keys[i] != keys[j]
    requires forall c :: c in ProgressCategoryIds(records, tests) ==> c in keys
    ensures StarsOver(keys, records, tests) == SumStars(records)
    decreases |records|
  {
    if records == [] {
      StarsOverNothing(keys, tests);
    } else {
      var init := records[..|records| - 1];
      var p := records[|records| - 1];
      assert records == init + [p];
      StarsOverAppend(keys, init, tests, p);
      forall c | c in ProgressCategoryIds(init, tests) ensures c in keys {
        var k :| 0 <= k < |init| && ProgressCategoryIds(init, tests)[k] == c;
        assert ProgressCategoryIds(records, tests)[k] == c;
      }
      StarsPartition(keys, init, tests);
      assert ProgressCategoryIds(records, tests)[|records| - 1] == tests[p.testId].categoryId;
      SumStarsAppend(init, p);
    }
  }

  lemma {:induction false} StarsOverNothing(keys: seq<Uuid>, tests: map<Uuid, Test>)
    ensures StarsOver(keys, [], tests) == 0
    decreases |keys|
  {
    if keys != [] {
      StarsOverNothing(keys[1..], tests);
    }
  }

  /** The summary lines of the categories `keys`, in order. */
  function Lines(keys: seq<Uuid>, allTests: seq<Test>, tests: map<Uuid, Test>, progressList: seq<Progress>)
    : (lines: seq<CategoryProgressResponse>)
    requires RecordsHaveTests(progressList, tests)
    ensures |lines| == |keys| && forall i :: 0 <= i < |keys| ==> lines[i] == CategoryLine(keys[i], allTests, tests, progressList)
  {
    seq(|keys|, i requires 0 <= i < |keys| => CategoryLine(keys[i], allTests, tests, progressList))
  }

  /** The lines' test counts are the per-key test counts. */
  lemma {:induction false} LinesTestsSum(keys: seq<Uuid>, allTests: seq<Test>, tests: map<Uuid, Test>, progressList: seq<Progress>)
    requires RecordsHaveTests(progressList, tests)
    ensures SumTestsCounts(Lines(keys, allTests, tests, progressList)) == SumCounts(keys, TestCategoryIds(allTests))
    decreases |keys|
  {
    if keys != [] {
      LinesTestsSum(keys[1..], allTests, tests, progressList);
      assert Lines(keys, allTests, tests, progressList)[1..] == Lines(keys[1..], allTests, tests, progressList);
    }
  }

  /** The lines' completed counts are the per-key record counts. */
  lemma {:induction false} LinesCompletedSum(keys: seq<Uuid>, allTests: seq<Test>, tests: map<Uuid, Test>, progressList: seq<Progress>)
    requires RecordsHaveTests(progressList, tests)
    ensures SumCompletedCounts(Lines(keys, allTests, tests, progressList)) == SumCounts(keys, ProgressCategoryIds(progressList, tests))
    decreases |keys|
  {
    if keys != [] {
      LinesCompletedSum(keys[1..], allTests, tests, progressList);
      assert Lines(keys, allTests, tests, progressList)[1..] == Lines(keys[1..], allTests, tests, progressList);
    }
  }

  /** The lines' star totals are the per-key star sums. */
  lemma {:induction false} LinesStarsSum(keys: seq<Uuid>, allTests: seq<Test>, tests: map<Uuid, Test>, progressList: seq<Progress>)
    requires RecordsHaveTests(progressList, tests)
    ensures SumLineStars(Lines(keys, allTests, tests, progressList)) == StarsOver(keys, progressList, tests)
    decreases |keys|
  {
    if keys != [] {
      LinesStarsSum(keys[1..], allTests, tests, progressList);
      assert Lines(keys, allTests, tests, progressList)[1..] == Lines(keys[1..], allTests, tests, progressList);
    }
  }

  // ------------------------------------------------------------- submission

  /** The first half of `submitTest`: scores the submission against the
      test and saves the user's merged progress record. */
  method RecordAttempt(progress: ProgressRepository, test: Test, userId: Uuid, request: SubmitTestRequest, now: Instant)
    returns (score: int, maxScore: int, percentage: int, stars: int, isNewBestScore: bool)
    requires progress.Valid() && test.id == request.testId
    modifies progress
    ensures progress.Valid()
    ensures score == TotalScore(test.questions, request.answers) && maxScore == MaxScore(test.questions)
    ensures percentage == Percentage(score, maxScore) && stars == Stars(percentage)
    ensures var key := (userId, request.testId);
      var existing := if key in old(progress.records) then Some(old(progress.records)[key]) else None;
      && isNewBestScore == IsNewBestScore(existing, score)
      && progress.records == old(progress.records)[key := ProgressAfter(existing, userId, test, score, maxScore, stars, request.timeSpentSeconds, now)]
  {
    score, maxScore := ScoreSubmission(test.questions, request.answers);
    percentage := Percentage(score, maxScore);
    stars := Stars(percentage);

    var existingProgress := progress.FindByUserIdAndTestId(userId, request.testId);
    isNewBestScore := existingProgress.None? || score > existingProgress.value.bestScore;

    var record := if existingProgress.Some? then
        MergedProgress(existingProgress.value, score, maxScore, stars, request.timeSpentSeconds, now)
      else
        FirstProgress(userId, test, score, maxScore, stars, request.timeSpentSeconds, now);
    assert record == ProgressAfter(existingProgress, userId, test, score, maxScore, stars, request.timeSpentSeconds, now);
    assert record.userId == userId && record.testId == request.testId;
    progress.Save(record);
  }

  /** The second half of `submitTest`, for a user who exists: updates the
      streak, adds the points earned and runs the achievement rules. */
  method RewardUser(
    users: UserRepository, progress: ProgressRepository, catalogue: seq<Achievement>,
    userId: Uuid, isNewBestScore: bool, pointsReward: int, percentage: int, stars: int, now: Instant)
    returns (pointsEarned: int, levelUp: Option<LevelUpInfo>, newAchievements: seq<AchievementResponse>)
    requires users.Valid() && userId in users.users
    modifies users
    ensures users.Valid()
    ensures pointsEarned == PointsEarned(isNewBestScore, pointsReward, stars)
    ensures var afterStreak := UserService.StreakUpdated(old(users.users)[userId], now);
      var (afterPoints, up) := UserService.PointsAdded(afterStreak, pointsEarned, now);
      var awarded := AchievementService.Awarded(catalogue, afterPoints, progress.CountByUserId(userId), percentage);
      && users.users == old(users.users)[userId := AchievementService.AwardedUser(afterPoints, awarded)]
      && levelUp == up
      && |newAchievements| == |awarded|
      && forall i :: 0 <= i < |awarded| ==> newAchievements[i] == AchievementToResponse(awarded[i], true)
  {
    ghost var before := users.users;
    var streakResult := UserService.UpdateStreak(users, userId, now);
    ghost var afterStreak := UserService.StreakUpdated(before[userId], now);
    assert users.users == before[userId := afterStreak];

    pointsEarned := PointsEarned(isNewBestScore, pointsReward, stars);

    var added := UserService.AddPoints(users, userId, pointsEarned, now);
    levelUp := added.value.1;
    ghost var afterPoints := UserService.PointsAdded(afterStreak, pointsEarned, now).0;
    Overwrite(before, userId, afterStreak, afterPoints);
    assert users.users == before[userId := afterPoints];

    var awardedResponses := AchievementService.CheckAndAwardAchievements(users, progress, catalogue, userId, percentage, stars);
    newAchievements := awardedResponses.value;
    ghost var awarded := AchievementService.Awarded(catalogue, afterPoints, progress.CountByUserId(userId), percentage);
    Overwrite(before, userId, afterPoints, AchievementService.AwardedUser(afterPoints, awarded));
  }

  /** A second save under the same id replaces the first. */
  lemma Overwrite(m: map<Uuid, User>, id: Uuid, first: User, second: User)
    ensures m[id := first][id := second] == m[id := second]
  {
  }

  /** `submitTest(userId, request)` at time `now`: scores the submission,
      saves the merged progress record, updates the streak, adds the points
      earned and runs the achievement rules. It is one transaction: when the
      test or the user is missing nothing is written (the source may save
      the progress record before it notices a missing user, and the
      rollback undoes that write). */
  method SubmitTest(
    tests: TestRepository, progress: ProgressRepository, users: UserRepository, catalogue: seq<Achievement>,
    userId: Uuid, request: SubmitTestRequest, now: Instant)
    returns (r: Result<SubmitTestResponse>)
    requires tests.Valid() && progress.Valid() && users.Valid()
    modifies progress, users
    ensures progress.Valid() && users.Valid()
    ensures request.testId !in tests.tests ==>
      r == Failure(NoSuchElement("Test not found")) && progress.records == old(progress.records) && users.users == old(users.users)
    ensures request.testId in tests.tests && userId !in old(users.users) ==>
      r == Failure(NoSuchElement("User not found")) && progress.records == old(progress.records) && users.users == old(users.users)
    ensures request.testId in tests.tests && userId in old(users.users) ==>
      var test := tests.tests[request.testId];
      var score := TotalScore(test.questions, request.answers);
      var maxScore := MaxScore(test.questions);
      var percentage := Percentage(score, maxScore);
      var stars := Stars(percentage);
      var key := (userId, request.testId);
      var existing := if key in old(progress.records) then Some(old(progress.records)[key]) else None;
      var isNewBest := IsNewBestScore(existing, score);
      var pointsEarned := PointsEarned(isNewBest, test.pointsReward, stars);
      var afterStreak := UserService.StreakUpdated(old(users.users)[userId], now);
      var (afterPoints, levelUp) := UserService.PointsAdded(afterStreak, pointsEarned, now);
      var awarded := AchievementService.Awarded(catalogue, afterPoints, progress.CountByUserId(userId), percentage);
      && progress.records == old(progress.records)[key := ProgressAfter(existing, userId, test, score, maxScore, stars, request.timeSpentSeconds, now)]
      && users.users == old(users.users)[userId := AchievementService.AwardedUser(afterPoints, awarded)]
      && r.Success?
      && r.value.score == score && r.value.maxScore == maxScore
      && r.value.percentage == percentage && r.value.stars == stars
      && r.value.isNewBestScore == isNewBest && r.value.pointsEarned == pointsEarned
      && r.value.levelUp == levelUp
      && |r.value.newAchievements| == |awarded|
      && forall i :: 0 <= i < |awarded| ==> r.value.newAchievements[i] == AchievementToResponse(awarded[i], true)
  {
    var found := tests.FindById(request.testId);
    if found.None? {
      return Failure(NoSuchElement("Test not found"));
    }
    var test := found.value;
    if users.FindById(userId).None? {
      return Failure(NoSuchElement("User not found"));
    }
    var score, maxScore, percentage, stars, isNewBestScore := RecordAttempt(progress, test, userId, request, now);
    ghost var savedRecords := progress.records;

    var pointsEarned, levelUp, newAchievements := RewardUser(users, progress, catalogue, userId, isNewBestScore, test.pointsReward, percentage, stars, now);
    assert progress.records == savedRecords;

    return Success(SubmitTestResponse(score, maxScore, percentage, stars, pointsEarned, isNewBestScore, newAchievements, levelUp));
  }
}
