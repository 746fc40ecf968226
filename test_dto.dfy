/** The catalogue's request and response records and their mapping
    functions (TestDto.kt). Player-facing answers have no correctness field
    at all and come in shuffled order; admin-facing ones keep it and keep
    the stored order. */
module TestDto {
  import opened Wrappers
  import opened Entities
  import opened Seqs

  datatype CategoryResponse = CategoryResponse(
    id: Uuid,
    name: string,
    description: Option<string>,
    iconUrl: Option<string>,
    testsCount: int,
    completedCount: int,
    totalStars: int)

  datatype TestProgressSummary = TestProgressSummary(completed: bool, bestScore: int, maxScore: int, stars: int)

  datatype TestListResponse = TestListResponse(
    id: Uuid,
    categoryId: Uuid,
    title: string,
    description: Option<string>,
    thumbnailUrl: Option<string>,
    difficulty: string,
    pointsReward: int,
    questionsCount: int,
    userProgress: Option<TestProgressSummary>)

  /** A player-facing answer: there is no `isCorrect` here. */
  datatype AnswerResponse = AnswerResponse(
    id: Uuid,
    text: Option<string>,
    imageUrl: Option<string>,
    audioUrl: Option<string>,
    matchTarget: Option<string>)

  datatype QuestionResponse = QuestionResponse(
    id: Uuid,
    qtype: string,
    text: Option<string>,
    audioUrl: Option<string>,
    imageUrl: Option<string>,
    points: int,
    answers: seq<AnswerResponse>)

  datatype TestDetailResponse = TestDetailResponse(
    id: Uuid,
    categoryId: Uuid,
    title: string,
    description: Option<string>,
    thumbnailUrl: Option<string>,
    difficulty: string,
    pointsReward: int,
    timeLimitSeconds: Option<int>,
    questions: seq<QuestionResponse>)

  datatype AdminAnswerResponse = AdminAnswerResponse(
    id: Uuid,
    text: Option<string>,
    imageUrl: Option<string>,
    audioUrl: Option<string>,
    isCorrect: bool,
    displayOrder: int,
    matchTarget: Option<string>)

  datatype AdminQuestionResponse = AdminQuestionResponse(
    id: Uuid,
    qtype: string,
    text: Option<string>,
    audioUrl: Option<string>,
    imageUrl: Option<string>,
    displayOrder: int,
    points: int,
    answers: seq<AdminAnswerResponse>)

  datatype AdminTestDetailResponse = AdminTestDetailResponse(
    id: Uuid,
    categoryId: Uuid,
    title: string,
    description: Option<string>,
    thumbnailUrl: Option<string>,
    difficulty: string,
    pointsReward: int,
    timeLimitSeconds: Option<int>,
    isPublished: bool,
    displayOrder: int,
    questions: seq<AdminQuestionResponse>)

  /** `CreateTestRequest`; its defaults are in `DefaultCreateTestRequest`. */
  datatype CreateTestRequest = CreateTestRequest(
    categoryId: string,
    title: string,
    description: Option<string>,
    thumbnailUrl: Option<string>,
    difficulty: string,
    pointsReward: int,
    timeLimitSeconds: Option<int>,
    isPublished: bool,
    displayOrder: int,
    questions: seq<CreateQuestionRequest>)

  datatype CreateQuestionRequest = CreateQuestionRequest(
    qtype: string,
    text: Option<string>,
    audioUrl: Option<string>,
    imageUrl: Option<string>,
    displayOrder: int,
    points: int,
    answers: seq<CreateAnswerRequest>)

  datatype CreateAnswerRequest = CreateAnswerRequest(
    text: Option<string>,
    imageUrl: Option<string>,
    audioUrl: Option<string>,
    isCorrect: bool,
    displayOrder: int,
    matchTarget: Option<string>)

  /** `UpdateTestRequest`: every field optional. */
  datatype UpdateTestRequest = UpdateTestRequest(
    categoryId: Option<string>,
    title: Option<string>,
    description: Option<string>,
    thumbnailUrl: Option<string>,
    difficulty: Option<string>,
    pointsReward: Option<int>,
    timeLimitSeconds: Option<int>,
    isPublished: Option<bool>,
    displayOrder: Option<int>,
    questions: Option<seq<CreateQuestionRequest>>)

  /** A create request with only the required fields given: easy, 10 points,
      no time limit, unpublished, display order 0. */
  function DefaultCreateTestRequest(categoryId: string, title: string, questions: seq<CreateQuestionRequest>): (r: CreateTestRequest)
    ensures r.difficulty == "EASY" && r.pointsReward == 10 && r.timeLimitSeconds.None?
    ensures !r.isPublished && r.displayOrder == 0 && r.questions == questions
  {
    CreateTestRequest(categoryId, title, None, None, "EASY", 10, None, false, 0, questions)
  }

  /** The number of published tests. */
  function CountPublished(tests: seq<Test>): (n: nat)
    ensures n <= |tests|
  {
    if tests == [] then 0 else (if tests[0].isPublished then 1 else 0) + CountPublished(tests[1..])
  }

  /** The published count is the full count exactly when every test is
      published, and zero exactly when none is. */
  lemma {:induction false} CountPublishedExtremes(tests: seq<Test>)
    ensures CountPublished(tests) == |tests| <==> forall i :: 0 <= i < |tests| ==> tests[i].isPublished
    ensures CountPublished(tests) == 0 <==> forall i :: 0 <= i < |tests| ==> !tests[i].isPublished
    decreases |tests|
  {
    if tests != [] {
      CountPublishedExtremes(tests[1..]);
      assert forall i :: 1 <= i < |tests| ==> tests[i] == tests[1..][i - 1];
    }
  }

  /** `Category.toResponse(completedCount, totalStars)`: the test count
      counts published tests only; the two figures pass through. */
  function CategoryToResponse(c: Category, completedCount: int, totalStars: int): (r: CategoryResponse)
    ensures r.id == c.id && r.name == c.name && r.description == c.description && r.iconUrl == c.iconUrl
    ensures 0 <= r.testsCount <= |c.tests| && r.testsCount == CountPublished(c.tests)
    ensures r.completedCount == completedCount && r.totalStars == totalStars
  {
    CategoryResponse(c.id, c.name, c.description, c.iconUrl, CountPublished(c.tests), completedCount, totalStars)
  }

  /** `Test.toListResponse(progress)`: the user's progress appears iff there
      is a record, and then as completed with the record's figures. */
  function TestToListResponse(t: Test, progress: Option<Progress>): (r: TestListResponse)
    ensures r.id == t.id && r.categoryId == t.categoryId && r.title == t.title && r.pointsReward == t.pointsReward
    ensures r.difficulty == DifficultyName(t.difficulty) && r.questionsCount == |t.questions|
    ensures r.userProgress.None? <==> progress.None?
    ensures progress.Some? ==> r.userProgress == Some(TestProgressSummary(true, progress.value.bestScore, progress.value.maxScore, progress.value.stars))
  {
    TestListResponse(
      t.id, t.categoryId, t.title, t.description, t.thumbnailUrl, DifficultyName(t.difficulty), t.pointsReward, |t.questions|,
      match progress
      case Some(p) => Some(TestProgressSummary(true, p.bestScore, p.maxScore, p.stars))
      case None => None)
  }

  /** `Answer.toResponse()`: everything but the correctness flag and the
      display order. */
  function AnswerToResponse(a: Answer): AnswerResponse {
    AnswerResponse(a.id, a.text, a.imageUrl, a.audioUrl, a.matchTarget)
  }

  function AnswersToResponses(answers: seq<Answer>): seq<AnswerResponse> {
    MapSeq(AnswerToResponse, answers)
  }

  /** `Question.toResponse()`: `shuffled` is the order `answers.shuffled()`
      produced, which may be any permutation of the question's answers. */
  function QuestionToResponse(q: Question, shuffled: seq<Answer>): (r: QuestionResponse)
    requires multiset(shuffled) == multiset(q.answers)
    ensures r.id == q.id && r.qtype == QuestionTypeName(q.qtype) && r.points == q.points
    ensures r.text == q.text && r.audioUrl == q.audioUrl && r.imageUrl == q.imageUrl
    ensures multiset(r.answers) == multiset(AnswersToResponses(q.answers))
  {
    MapSeqPermutation(AnswerToResponse, shuffled, q.answers);
    QuestionResponse(q.id, QuestionTypeName(q.qtype), q.text, q.audioUrl, q.imageUrl, q.points, AnswersToResponses(shuffled))
  }

  /** Every answer a player sees belongs to the question, and every answer
      of the question is seen as often as it is stored. */
  lemma PlayerAnswersArePermutation(q: Question, shuffled: seq<Answer>)
    requires multiset(shuffled) == multiset(q.answers)
    ensures |QuestionToResponse(q, shuffled).answers| == |q.answers|
    ensures forall r :: r in QuestionToResponse(q, shuffled).answers ==> exists a :: a in q.answers && r == AnswerToResponse(a)
    ensures forall a :: a in q.answers ==> AnswerToResponse(a) in QuestionToResponse(q, shuffled).answers
  {
    var rs := QuestionToResponse(q, shuffled).answers;
    assert |shuffled| == |multiset(shuffled)| == |multiset(q.answers)| == |q.answers|;
    forall r | r in rs ensures exists a :: a in q.answers && r == AnswerToResponse(a) {
      var i :| 0 <= i < |rs| && rs[i] == r;
      assert shuffled[i] in multiset(q.answers);
    }
    forall a | a in q.answers ensures AnswerToResponse(a) in rs {
      assert a in multiset(shuffled);
      var i :| 0 <= i < |shuffled| && shuffled[i] == a;
      assert rs[i] == AnswerToResponse(a);
    }
  }

  /** Each question's shuffled answers are a permutation of its answers. */
  predicate ShufflesFit(questions: seq<Question>, shuffles: seq<seq<Answer>>) {
    |shuffles| == |questions| && forall i :: 0 <= i < |questions| ==> multiset(shuffles[i]) == multiset(questions[i].answers)
  }

  /** `Test.toDetailResponse()`: the questions in stored order, each with
      its answers in the order `shuffles` gives. */
  function TestToDetailResponse(t: Test, shuffles: seq<seq<Answer>>): (r: TestDetailResponse)
    requires ShufflesFit(t.questions, shuffles)
    ensures r.id == t.id && r.categoryId == t.categoryId && r.title == t.title && r.difficulty == DifficultyName(t.difficulty)
    ensures r.pointsReward == t.pointsReward && r.timeLimitSeconds == t.timeLimitSeconds
    ensures |r.questions| == |t.questions|
    ensures forall i :: 0 <= i < |t.questions| ==>
      r.questions[i].id == t.questions[i].id && multiset(r.questions[i].answers) == multiset(AnswersToResponses(t.questions[i].answers))
  {
    TestDetailResponse(
      t.id, t.categoryId, t.title, t.description, t.thumbnailUrl, DifficultyName(t.difficulty), t.pointsReward, t.timeLimitSeconds,
      seq(|t.questions|, i requires 0 <= i < |t.questions| => QuestionToResponse(t.questions[i], shuffles[i])))
  }

  /** `Answer.toAdminResponse()`: all fields, the correctness flag included. */
  function AnswerToAdminResponse(a: Answer): (r: AdminAnswerResponse)
    ensures r.id == a.id && r.isCorrect == a.isCorrect && r.displayOrder == a.displayOrder && r.matchTarget == a.matchTarget
    ensures r.text == a.text && r.imageUrl == a.imageUrl && r.audioUrl == a.audioUrl
  {
    AdminAnswerResponse(a.id, a.text, a.imageUrl, a.audioUrl, a.isCorrect, a.displayOrder, a.matchTarget)
  }

  /** `Question.toAdminResponse()`: the answers in stored order. */
  function QuestionToAdminResponse(q: Question): (r: AdminQuestionResponse)
    ensures r.id == q.id && r.qtype == QuestionTypeName(q.qtype) && r.displayOrder == q.displayOrder && r.points == q.points
    ensures |r.answers| == |q.answers| && forall j :: 0 <= j < |q.answers| ==> r.answers[j] == AnswerToAdminResponse(q.answers[j])
  {
    AdminQuestionResponse(
      q.id, QuestionTypeName(q.qtype), q.text, q.audioUrl, q.imageUrl, q.displayOrder, q.points,
      seq(|q.answers|, j requires 0 <= j < |q.answers| => AnswerToAdminResponse(q.answers[j])))
  }

  /** `Test.toAdminResponse()`: the questions in stored order. */
  function TestToAdminResponse(t: Test): (r: AdminTestDetailResponse)
    ensures r.id == t.id && r.categoryId == t.categoryId && r.title == t.title && r.description == t.description
    ensures r.thumbnailUrl == t.thumbnailUrl && r.difficulty == DifficultyName(t.difficulty) && r.pointsReward == t.pointsReward
    ensures r.timeLimitSeconds == t.timeLimitSeconds && r.isPublished == t.isPublished && r.displayOrder == t.displayOrder
    ensures |r.questions| == |t.questions| && forall i :: 0 <= i < |t.questions| ==> r.questions[i] == QuestionToAdminResponse(t.questions[i])
  {
    AdminTestDetailResponse(
      t.id, t.categoryId, t.title, t.description, t.thumbnailUrl, DifficultyName(t.difficulty), t.pointsReward,
      t.timeLimitSeconds, t.isPublished, t.displayOrder,
      seq(|t.questions|, i requires 0 <= i < |t.questions| => QuestionToAdminResponse(t.questions[i])))
  }

  /** The admin view loses nothing an editor needs: which answers are
      correct can be read back from it, question by question and in order. */
  lemma AdminViewKeepsCorrectness(t: Test, i: nat, j: nat)
    requires i < |t.questions| && j < |t.questions[i].answers|
    ensures TestToAdminResponse(t).questions[i].answers[j].isCorrect == t.questions[i].answers[j].isCorrect
    ensures TestToAdminResponse(t).questions[i].answers[j].id == t.questions[i].answers[j].id
  {
  }
}
