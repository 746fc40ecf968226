/** The test catalogue (TestService.kt): listing categories and tests with
    the caller's progress, reading one test, and the admin operations that
    create, update and delete tests. Every admin operation is transactional:
    when it fails, nothing it wrote is kept, so the model checks everything
    before it writes. */
module TestService {
  import opened Wrappers
  import opened Entities
  import opened TestDto
  import opened Repositories
  import Text
  import ProgressService

  // ---------------------------------------------------------------------
  // Reading the catalogue
  // ---------------------------------------------------------------------

  /** `progressRepository.findByUserId(userId)`: the records of one user,
      in table order. */
  function UserProgress(records: seq<Progress>, userId: Uuid): (r: seq<Progress>)
    ensures forall p :: p in r <==> p in records && p.userId == userId
    ensures |r| <= |records|
  {
    if records == [] then []
    else (if records[0].userId == userId then [records[0]] else []) + UserProgress(records[1..], userId)
  }

  /** Each record's stars are a star rating. */
  predicate StarsInRange(records: seq<Progress>) {
    forall i :: 0 <= i < |records| ==> 0 <= records[i].stars <= 3
  }

  /** Star sums of ratings are at most three per record. */
  lemma {:induction false} SumStarsBounded(records: seq<Progress>)
    requires StarsInRange(records)
    ensures 0 <= ProgressService.SumStars(records) <= 3 * |records|
    decreases |records|
  {
    if records != [] {
      assert StarsInRange(records[1..]) by {
        forall i | 0 <= i < |records[1..]| ensures 0 <= records[1..][i].stars <= 3 {
          assert records[1..][i] == records[i + 1];
        }
      }
      SumStarsBounded(records[1..]);
    }
  }

  /** The caller's records whose test is in category `c` now (the query
      joins through `p.test.category.id`): `findByUserIdAndCategoryId`, or
      nothing for an anonymous caller. */
  function CategoryProgress(userId: Option<Uuid>, records: seq<Progress>, tests: map<Uuid, Test>, c: Uuid): (r: seq<Progress>)
    requires ProgressService.RecordsHaveTests(records, tests)
    ensures userId.None? ==> r == []
    ensures userId.Some? ==> forall p :: p in r <==> p in records && p.userId == userId.value && tests[p.testId].categoryId == c
  {
    match userId
    case None => []
    case Some(u) => ProgressService.ProgressIn(UserProgress(records, u), tests, c)
  }

  /** `getCategories(userId)`: one line per active category, in the order
      the query returns them, with the caller's completed count and star
      total in that category. */
  function GetCategories(categories: seq<Category>, userId: Option<Uuid>, records: seq<Progress>, tests: map<Uuid, Test>)
    : (r: seq<CategoryResponse>)
    requires ProgressService.RecordsHaveTests(records, tests)
    ensures |r| == |categories|
    ensures forall i :: 0 <= i < |categories| ==>
      r[i].id == categories[i].id && r[i].testsCount == CountPublished(categories[i].tests)
    ensures forall i :: 0 <= i < |categories| ==>
      r[i].completedCount == |CategoryProgress(userId, records, tests, categories[i].id)|
      && r[i].totalStars == ProgressService.SumStars(CategoryProgress(userId, records, tests, categories[i].id))
  {
    seq(|categories|, i requires 0 <= i < |categories| =>
      var mine := CategoryProgress(userId, records, tests, categories[i].id);
      CategoryToResponse(categories[i], |mine|, ProgressService.SumStars(mine)))
  }

  /** An anonymous caller sees zero counts; a signed-in caller with star
      ratings in 0..3 sees at most three stars per completed test. */
  lemma CategoryCountsBounded(categories: seq<Category>, userId: Option<Uuid>, records: seq<Progress>, tests: map<Uuid, Test>, i: nat)
    requires ProgressService.RecordsHaveTests(records, tests)
    requires i < |categories|
    requires StarsInRange(records)
    ensures userId.None? ==> GetCategories(categories, userId, records, tests)[i].completedCount == 0
    ensures userId.None? ==> GetCategories(categories, userId, records, tests)[i].totalStars == 0
    ensures 0 <= GetCategories(categories, userId, records, tests)[i].totalStars <= 3 * GetCategories(categories, userId, records, tests)[i].completedCount
  {
    var mine := CategoryProgress(userId, records, tests, categories[i].id);
    assert StarsInRange(mine) by {
      forall j | 0 <= j < |mine| ensures 0 <= mine[j].stars <= 3 {
        assert mine[j] in records;
      }
    }
    SumStarsBounded(mine);
  }

  /** `associateBy { it.test.id }[testId]`: the record of that test, the
      last one in the list when there are several. */
  function ProgressByTest(records: seq<Progress>, testId: Uuid): (r: Option<Progress>)
    ensures r.Some? <==> exists p :: p in records && p.testId == testId
    ensures r.Some? ==> exists i :: (0 <= i < |records| && records[i] == r.value && r.value.testId == testId
      && forall j :: i < j < |records| ==> records[j].testId != testId)
  {
    if records == [] then None
    else
      var last := records[|records| - 1];
      var init := records[..|records| - 1];
      assert records == init + [last];
      if last.testId == testId then Some(last)
      else
        var r := ProgressByTest(init, testId);
        if r.Some? then
          var i :| 0 <= i < |init| && init[i] == r.value && r.value.testId == testId
            && forall j :: i < j < |init| ==> init[j].testId != testId;
          assert records[i] == init[i];
          r
        else r
  }

  /** The progress map's entry for one test: none for an anonymous caller. */
  function ProgressMap(userId: Option<Uuid>, records: seq<Progress>, testId: Uuid): Option<Progress> {
    match userId
    case None => None
    case Some(u) => ProgressByTest(UserProgress(records, u), testId)
  }

  /** `findBy...IsPublishedTrue...`: the published tests, in list order. */
  function Published(tests: seq<Test>): (r: seq<Test>)
    ensures forall t :: t in r <==> t in tests && t.isPublished
  {
    if tests == [] then []
    else (if tests[0].isPublished then [tests[0]] else []) + Published(tests[1..])
  }

  /** `findByCategoryIdAndIsPublishedTrue...`. */
  function PublishedIn(tests: seq<Test>, categoryId: Uuid): (r: seq<Test>)
    ensures forall t :: t in r <==> t in tests && t.isPublished && t.categoryId == categoryId
  {
    if tests == [] then []
    else (if tests[0].isPublished && tests[0].categoryId == categoryId then [tests[0]] else []) + PublishedIn(tests[1..], categoryId)
  }

  /** `tests.map { it.toListResponse(progressMap[it.id]) }`: each line
      carries the caller's record of that test exactly when there is one. */
  function ListTests(listed: seq<Test>, userId: Option<Uuid>, records: seq<Progress>): (r: seq<TestListResponse>)
    ensures |r| == |listed|
    ensures forall i :: 0 <= i < |listed| ==> r[i].id == listed[i].id && r[i].categoryId == listed[i].categoryId
  {
    seq(|listed|, i requires 0 <= i < |listed| => TestToListResponse(listed[i], ProgressMap(userId, records, listed[i].id)))
  }

  /** Each line of a listing carries the caller's record of that test
      exactly when there is one, with that record's figures. */
  lemma ListedProgress(listed: seq<Test>, userId: Option<Uuid>, records: seq<Progress>, i: nat)
    requires i < |listed|
    ensures var line := ListTests(listed, userId, records)[i];
      && (line.userProgress.Some? <==> userId.Some? && exists p :: p in records && p.userId == userId.value && p.testId == listed[i].id)
      && (line.userProgress.Some? ==>
        exists p :: p in records && p.userId == userId.value && p.testId == listed[i].id
          && line.userProgress.value == TestProgressSummary(true, p.bestScore, p.maxScore, p.stars))
  {
    var line := ListTests(listed, userId, records)[i];
    if userId.Some? {
      var mine := UserProgress(records, userId.value);
      var found := ProgressByTest(mine, listed[i].id);
      if found.Some? {
        assert found.value in mine;
      }
    }
  }

  /** Some line of the listing is about test `id`. */
  predicate ListsTest(lines: seq<TestListResponse>, id: Uuid) {
    exists i :: 0 <= i < |lines| && lines[i].id == id
  }

  /** `tests` holds a published test `id`, in category `categoryId` when one is given. */
  predicate HasPublishedTest(tests: seq<Test>, categoryId: Option<Uuid>, id: Uuid) {
    exists t :: t in tests && t.isPublished && (categoryId.Some? ==> t.categoryId == categoryId.value) && t.id == id
  }

  /** A listing with one line per listed test, in order, names exactly
      the listed tests. */
  lemma ListedIds(tests: seq<Test>, categoryId: Option<Uuid>, listed: seq<Test>, r: seq<TestListResponse>)
    requires |r| == |listed| && forall i :: 0 <= i < |listed| ==> r[i].id == listed[i].id
    requires forall t :: t in listed <==> t in tests && t.isPublished && (categoryId.Some? ==> t.categoryId == categoryId.value)
    ensures forall t :: t in tests && t.isPublished && (categoryId.Some? ==> t.categoryId == categoryId.value) ==> ListsTest(r, t.id)
    ensures forall i :: 0 <= i < |r| ==> HasPublishedTest(tests, categoryId, r[i].id)
  {
    forall t | t in listed ensures ListsTest(r, t.id) {
      var i :| 0 <= i < |listed| && listed[i] == t;
      assert r[i].id == t.id;
    }
    forall i | 0 <= i < |r| ensures HasPublishedTest(tests, categoryId, r[i].id) {
      assert listed[i] in listed;
    }
  }

  /** `getTestsByCategory(categoryId, userId)`: exactly the published tests
      of the category, each with the caller's progress. */
  function GetTestsByCategory(tests: seq<Test>, categoryId: Uuid, userId: Option<Uuid>, records: seq<Progress>): (r: seq<TestListResponse>)
    ensures forall i :: 0 <= i < |r| ==> r[i].categoryId == categoryId
    ensures forall t :: t in tests && t.isPublished && t.categoryId == categoryId ==> ListsTest(r, t.id)
    ensures forall i :: 0 <= i < |r| ==> HasPublishedTest(tests, Some(categoryId), r[i].id)
  {
    var listed := PublishedIn(tests, categoryId);
    var r := ListTests(listed, userId, records);
    ListedIds(tests, Some(categoryId), listed, r);
    assert forall i :: 0 <= i < |r| ==> r[i].categoryId == listed[i].categoryId && listed[i] in listed;
    r
  }

  /** `getAllTests(userId)`: exactly the published tests, each with the
      caller's progress. */
  function GetAllTests(tests: seq<Test>, userId: Option<Uuid>, records: seq<Progress>): (r: seq<TestListResponse>)
    ensures forall t :: t in tests && t.isPublished ==> ListsTest(r, t.id)
    ensures forall i :: 0 <= i < |r| ==> HasPublishedTest(tests, None, r[i].id)
  {
    var listed := Published(tests);
    var r := ListTests(listed, userId, records);
    ListedIds(tests, None, listed, r);
    r
  }

  /** An anonymous caller sees no progress on any listed test. */
  lemma AnonymousSeesNoProgress(tests: seq<Test>, records: seq<Progress>, i: nat)
    requires i < |GetAllTests(tests, None, records)|
    ensures GetAllTests(tests, None, records)[i].userProgress.None?
  {
  }

  /** `getTestById(testId)`: the player's view of the test, or "Test not found". */
  function GetTestById(repo: TestRepository, testId: Uuid, shuffles: seq<seq<Answer>>): (r: Result<TestDetailResponse>)
    reads repo
    requires repo.Valid()
    requires testId in repo.tests ==> ShufflesFit(repo.tests[testId].questions, shuffles)
    ensures r.Failure? <==> testId !in repo.tests
    ensures r.Failure? ==> r.error == NoSuchElement("Test not found")
    ensures r.Success? ==> r.value.id == testId && |r.value.questions| == |repo.tests[testId].questions|
  {
    match repo.FindById(testId)
    case None => Failure(NoSuchElement("Test not found"))
    case Some(t) => Success(TestToDetailResponse(t, shuffles))
  }

  /** `getTestByIdForAdmin(testId)`: the editor's view, or "Test not found". */
  function GetTestByIdForAdmin(repo: TestRepository, testId: Uuid): (r: Result<AdminTestDetailResponse>)
    reads repo
    requires repo.Valid()
    ensures r.Failure? <==> testId !in repo.tests
    ensures r.Failure? ==> r.error == NoSuchElement("Test not found")
    ensures r.Success? ==> r.value.id == testId && |r.value.questions| == |repo.tests[testId].questions|
  {
    match repo.FindById(testId)
    case None => Failure(NoSuchElement("Test not found"))
    case Some(t) => Success(TestToAdminResponse(t))
  }

  /** `getAllTestsForAdmin()`: every test, published or not, in list order. */
  function GetAllTestsForAdmin(tests: seq<Test>): (r: seq<AdminTestDetailResponse>)
    ensures |r| == |tests|
    ensures forall i :: 0 <= i < |tests| ==> r[i].id == tests[i].id && r[i].isPublished == tests[i].isPublished
  {
    seq(|tests|, i requires 0 <= i < |tests| => TestToAdminResponse(tests[i]))
  }

  // ---------------------------------------------------------------------
  // Building questions and answers from a request
  // ---------------------------------------------------------------------

  /** `requested.takeIf { it > 0 } ?: index`. */
  function DisplayOrderOr(requested: int, index: nat): (d: int)
    ensures d >= 0
    ensures d == requested || d == index
    ensures d == requested <==> requested > 0 || requested == index
  {
    if requested > 0 then requested else index
  }

  /** The id of the `i`-th question created for a test. */
  function QuestionId(testId: Uuid, i: nat): Uuid {
    testId + "/q" + Digits(i)
  }

  /** The id of the `j`-th answer created for a question. */
  function AnswerId(questionId: Uuid, j: nat): Uuid {
    questionId + "/a" + Digits(j)
  }

  /** The answer row built from the `j`-th answer request. */
  function AnswerFrom(questionId: Uuid, j: nat, a: CreateAnswerRequest): Answer {
    Answer(AnswerId(questionId, j), a.text, a.imageUrl, a.audioUrl, a.isCorrect, DisplayOrderOr(a.displayOrder, j), a.matchTarget)
  }

  /** The answer rows built from a question request's answers, in order. */
  function AnswersFrom(questionId: Uuid, answers: seq<CreateAnswerRequest>): (r: seq<Answer>)
    ensures |r| == |answers| && forall j :: 0 <= j < |answers| ==> r[j] == AnswerFrom(questionId, j, answers[j])
  {
    seq(|answers|, j requires 0 <= j < |answers| => AnswerFrom(questionId, j, answers[j]))
  }

  /** The question row built from the `i`-th question request; its type must
      name a `QuestionType` in any letter case. */
  function QuestionFrom(testId: Uuid, i: nat, q: CreateQuestionRequest): (r: Result<Question>)
    ensures r.Failure? <==> ParseQuestionType(q.qtype).Failure?
  {
    match ParseQuestionType(q.qtype)
    case Failure(e) => Failure(e)
    case Success(t) =>
      var id := QuestionId(testId, i);
      Success(Question(id, testId, t, q.text, q.audioUrl, q.imageUrl, DisplayOrderOr(q.displayOrder, i), q.points, AnswersFrom(id, q.answers)))
  }

  /** `qs` holds, position by position, the questions built from `requests`. */
  ghost predicate BuiltFrom(testId: Uuid, requests: seq<CreateQuestionRequest>, qs: seq<Question>) {
    |qs| == |requests| && forall i :: 0 <= i < |requests| ==> QuestionFrom(testId, i, requests[i]) == Success(qs[i])
  }

  /** Every question request names a valid question type. */
  ghost predicate AllValid(testId: Uuid, requests: seq<CreateQuestionRequest>) {
    forall i :: 0 <= i < |requests| ==> QuestionFrom(testId, i, requests[i]).Success?
  }

  /** Building one more question extends a successful build. */
  lemma BuildStep(testId: Uuid, requests: seq<CreateQuestionRequest>, qs: seq<Question>, q: Question)
    requires requests != [] && BuiltFrom(testId, requests[..|requests| - 1], qs)
    requires QuestionFrom(testId, |requests| - 1, requests[|requests| - 1]) == Success(q)
    ensures BuiltFrom(testId, requests, qs + [q]) && AllValid(testId, requests)
  {
    var n := |requests| - 1;
    forall i | 0 <= i < |requests| ensures QuestionFrom(testId, i, requests[i]) == Success((qs + [q])[i]) {
      if i < n {
        assert requests[..n][i] == requests[i] && (qs + [q])[i] == qs[i];
        assert QuestionFrom(testId, i, requests[..n][i]) == Success(qs[i]);
      } else {
        assert (qs + [q])[i] == q;
      }
    }
  }

  /** A bad question in the prefix makes the whole list invalid. */
  lemma PrefixInvalid(testId: Uuid, requests: seq<CreateQuestionRequest>, n: nat)
    requires n <= |requests| && !AllValid(testId, requests[..n])
    ensures !AllValid(testId, requests)
  {
    var i :| 0 <= i < n && QuestionFrom(testId, i, requests[..n][i]).Failure?;
    assert requests[..n][i] == requests[i];
  }

  /** The question rows built from all question requests, in order; the
      first bad question type aborts the whole build. */
  function QuestionsFrom(testId: Uuid, requests: seq<CreateQuestionRequest>): (r: Result<seq<Question>>)
    ensures r.Success? ==> |r.value| == |requests|
    ensures r.Success? ==> forall i :: 0 <= i < |requests| ==> QuestionFrom(testId, i, requests[i]) == Success(r.value[i])
    ensures r.Success? <==> forall i :: 0 <= i < |requests| ==> QuestionFrom(testId, i, requests[i]).Success?
    decreases |requests|
  {
    if requests == [] then Success([])
    else
      var n := |requests| - 1;
      var init := requests[..n];
      match QuestionsFrom(testId, init)
      case Failure(e) =>
        PrefixInvalid(testId, requests, n);
        Failure(e)
      case Success(qs) =>
        match QuestionFrom(testId, n, requests[n])
        case Failure(e) => Failure(e)
        case Success(q) =>
          BuildStep(testId, requests, qs, q);
          Success(qs + [q])
  }

  /** A failed build reports the error of the first bad question. */
  lemma {:induction false} QuestionsFromFirstFailure(testId: Uuid, requests: seq<CreateQuestionRequest>)
    requires QuestionsFrom(testId, requests).Failure?
    ensures exists i :: (0 <= i < |requests| && QuestionFrom(testId, i, requests[i]) == Failure(QuestionsFrom(testId, requests).error)
      && forall k :: 0 <= k < i ==> QuestionFrom(testId, k, requests[k]).Success?)
    decreases |requests|
  {
    var n := |requests| - 1;
    var init := requests[..n];
    assert forall k :: 0 <= k < n ==> init[k] == requests[k];
    if QuestionsFrom(testId, init).Failure? {
      QuestionsFromFirstFailure(testId, init);
      var i :| 0 <= i < |init| && QuestionFrom(testId, i, init[i]) == Failure(QuestionsFrom(testId, init).error)
        && forall k :: 0 <= k < i ==> QuestionFrom(testId, k, init[k]).Success?;
      assert QuestionFrom(testId, i, requests[i]) == Failure(QuestionsFrom(testId, requests).error);
    } else {
      assert QuestionFrom(testId, n, requests[n]) == Failure(QuestionsFrom(testId, requests).error);
    }
  }

  /** Once a prefix of the requests fails, the whole build fails with the
      same error. */
  lemma {:induction false} QuestionsFromPrefixFailure(testId: Uuid, requests: seq<CreateQuestionRequest>, k: nat)
    requires k <= |requests| && QuestionsFrom(testId, requests[..k]).Failure?
    ensures QuestionsFrom(testId, requests) == QuestionsFrom(testId, requests[..k])
    decreases |requests|
  {
    if k < |requests| {
      var init := requests[..|requests| - 1];
      assert init[..k] == requests[..k];
      QuestionsFromPrefixFailure(testId, init, k);
    } else {
      assert requests[..k] == requests;
    }
  }

  /** Every built question and answer takes the requested display order
      when it is positive and its position in the request otherwise. */
  lemma DisplayOrderFallback(testId: Uuid, requests: seq<CreateQuestionRequest>, i: nat, j: nat)
    requires QuestionsFrom(testId, requests).Success?
    requires i < |requests| && j < |requests[i].answers|
    ensures var q := QuestionsFrom(testId, requests).value[i];
      && q.displayOrder == (if requests[i].displayOrder > 0 then requests[i].displayOrder else i)
      && q.answers[j].displayOrder == (if requests[i].answers[j].displayOrder > 0 then requests[i].answers[j].displayOrder else j)
      && q.answers[j].isCorrect == requests[i].answers[j].isCorrect
      && q.answers[j].matchTarget == requests[i].answers[j].matchTarget
  {
    assert QuestionFrom(testId, i, requests[i]) == Success(QuestionsFrom(testId, requests).value[i]);
  }

  /** The nested `forEachIndexed` loops that save every question and,
      under it, every answer. */
  method BuildQuestions(testId: Uuid, requests: seq<CreateQuestionRequest>) returns (r: Result<seq<Question>>)
    ensures r == QuestionsFrom(testId, requests)
  {
    var questions: seq<Question> := [];
    var i := 0;
    while i < |requests|
      invariant 0 <= i <= |requests|
      invariant QuestionsFrom(testId, requests[..i]) == Success(questions)
    {
      var request := requests[i];
      assert requests[..i + 1][..i] == requests[..i];
      assert requests[..i + 1][i] == request;
      var qtype := ParseQuestionType(request.qtype);
      if qtype.Failure? {
        QuestionsFromPrefixFailure(testId, requests, i + 1);
        return Failure(qtype.error);
      }
      var id := QuestionId(testId, i);
      var answers: seq<Answer> := [];
      var j := 0;
      while j < |request.answers|
        invariant 0 <= j <= |request.answers|
        invariant |answers| == j
        invariant forall k :: 0 <= k < j ==> answers[k] == AnswerFrom(id, k, request.answers[k])
      {
        var a := request.answers[j];
        answers := answers + [Answer(AnswerId(id, j), a.text, a.imageUrl, a.audioUrl, a.isCorrect, DisplayOrderOr(a.displayOrder, j), a.matchTarget)];
        j := j + 1;
      }
      assert answers == AnswersFrom(id, request.answers);
      questions := questions + [Question(id, testId, qtype.value, request.text, request.audioUrl, request.imageUrl,
                                         DisplayOrderOr(request.displayOrder, i), request.points, answers)];
      i := i + 1;
    }
    assert requests[..i] == requests;
    r := Success(questions);
  }

  // ---------------------------------------------------------------------
  // Creating, updating and deleting tests
  // ---------------------------------------------------------------------

  /** The test `createTest(request)` stores under id `id`, or the error it
      throws: the category must exist, then the difficulty and every
      question type must name a constant. */
  function CreatedTest(id: Uuid, categories: map<Uuid, Category>, request: CreateTestRequest, now: Instant): (r: Result<Test>)
    ensures r.Success? <==>
      && request.categoryId in categories
      && ParseDifficulty(request.difficulty).Success?
      && QuestionsFrom(id, request.questions).Success?
    ensures request.categoryId !in categories ==> r == Failure(NoSuchElement("Category not found"))
  {
    if request.categoryId !in categories then Failure(NoSuchElement("Category not found"))
    else
      var category := categories[request.categoryId];
      match ParseDifficulty(request.difficulty)
      case Failure(e) => Failure(e)
      case Success(difficulty) =>
        match QuestionsFrom(id, request.questions)
        case Failure(e) => Failure(e)
        case Success(questions) =>
          Success(Test(id, category.id, category.name, request.title, request.description, request.thumbnailUrl, difficulty,
                       request.pointsReward, request.timeLimitSeconds, request.isPublished, request.displayOrder, now, now, questions))
  }

  /** A created test has the request's fields, its category, the parsed
      difficulty, one question per question request, and was created now. */
  lemma CreatedTestFields(id: Uuid, categories: map<Uuid, Category>, request: CreateTestRequest, now: Instant)
    requires CreatedTest(id, categories, request, now).Success?
    ensures var t := CreatedTest(id, categories, request, now).value;
      && t.id == id && t.categoryId == categories[request.categoryId].id
      && t.title == request.title && t.description == request.description && t.pointsReward == request.pointsReward
      && t.isPublished == request.isPublished && t.displayOrder == request.displayOrder
      && DifficultyName(t.difficulty) == Text.Upper(request.difficulty)
      && t.createdAt == now && t.updatedAt == now
      && |t.questions| == |request.questions|
      && forall i :: 0 <= i < |t.questions| ==> t.questions[i].testId == id && |t.questions[i].answers| == |request.questions[i].answers|
  {
    var t := CreatedTest(id, categories, request, now).value;
    forall i | 0 <= i < |t.questions|
      ensures t.questions[i].testId == id && |t.questions[i].answers| == |request.questions[i].answers|
    {
      assert QuestionFrom(id, i, request.questions[i]) == Success(t.questions[i]);
    }
  }

  /** `createTest(request)`: stores the new test under a freshly minted id,
      never over an existing one, and returns the editor's view of it; on
      any error nothing changes. */
  method CreateTest(repo: TestRepository, categories: map<Uuid, Category>, request: CreateTestRequest, now: Instant)
    returns (r: Result<AdminTestDetailResponse>)
    requires repo.Valid()
    modifies repo
    ensures repo.Valid()
    ensures match CreatedTest(MintId(old(repo.nextId)), categories, request, now)
      case Failure(e) => r == Failure(e) && repo.tests == old(repo.tests) && repo.nextId == old(repo.nextId)
      case Success(t) =>
        && MintId(old(repo.nextId)) !in old(repo.tests)
        && repo.tests == old(repo.tests)[t.id := t] && repo.nextId == old(repo.nextId) + 1
        && r == Success(TestToAdminResponse(t))
  {
    var id := MintId(repo.nextId);
    if request.categoryId !in categories {
      return Failure(NoSuchElement("Category not found"));
    }
    var category := categories[request.categoryId];
    var difficulty := ParseDifficulty(request.difficulty);
    if difficulty.Failure? {
      return Failure(difficulty.error);
    }
    var questions := BuildQuestions(id, request.questions);
    if questions.Failure? {
      return Failure(questions.error);
    }
    var t := Test(id, category.id, category.name, request.title, request.description, request.thumbnailUrl, difficulty.value,
                  request.pointsReward, request.timeLimitSeconds, request.isPublished, request.displayOrder, now, now, questions.value);
    forall n: nat | n >= repo.nextId + 1 ensures MintId(n) != id {
      if MintId(n) == id {
        MintIdInjective(n, repo.nextId);
      }
    }
    repo.tests := repo.tests[id := t];
    repo.nextId := repo.nextId + 1;
    r := Success(TestToAdminResponse(t));
  }

  /** The test `updateTest` stores: every field the request gives replaces
      the stored one, every field it leaves null keeps the stored value, and
      the questions are replaced wholesale only when the request lists them. */
  function MergedTest(
    test: Test, category: Option<Category>, request: UpdateTestRequest, difficulty: Option<Difficulty>,
    questions: Option<seq<Question>>, now: Instant): Test
  {
    test.(
      categoryId := if category.Some? then category.value.id else test.categoryId,
      categoryName := if category.Some? then category.value.name else test.categoryName,
      title := request.title.GetOr(test.title),
      description := if request.description.Some? then request.description else test.description,
      thumbnailUrl := if request.thumbnailUrl.Some? then request.thumbnailUrl else test.thumbnailUrl,
      difficulty := difficulty.GetOr(test.difficulty),
      pointsReward := request.pointsReward.GetOr(test.pointsReward),
      timeLimitSeconds := if request.timeLimitSeconds.Some? then request.timeLimitSeconds else test.timeLimitSeconds,
      isPublished := request.isPublished.GetOr(test.isPublished),
      displayOrder := request.displayOrder.GetOr(test.displayOrder),
      updatedAt := now,
      questions := questions.GetOr(test.questions))
  }

  /** The test `updateTest(testId, request)` stores, or the error it throws:
      the test must exist, then a given category, then a given difficulty,
      then every given question type. */
  function UpdatedTest(tests: map<Uuid, Test>, categories: map<Uuid, Category>, testId: Uuid, request: UpdateTestRequest, now: Instant): (r: Result<Test>)
    ensures testId !in tests ==> r == Failure(NoSuchElement("Test not found"))
    ensures testId in tests && request.categoryId.Some? && request.categoryId.value !in categories ==>
      r == Failure(NoSuchElement("Category not found"))
    ensures r.Success? <==>
      && testId in tests
      && (request.categoryId.Some? ==> request.categoryId.value in categories)
      && (request.difficulty.Some? ==> ParseDifficulty(request.difficulty.value).Success?)
      && (request.questions.Some? ==> QuestionsFrom(testId, request.questions.value).Success?)
  {
    if testId !in tests then Failure(NoSuchElement("Test not found"))
    else if request.categoryId.Some? && request.categoryId.value !in categories then Failure(NoSuchElement("Category not found"))
    else
      var category := if request.categoryId.Some? then Some(categories[request.categoryId.value]) else None;
      var difficulty := if request.difficulty.Some? then Some(ParseDifficulty(request.difficulty.value)) else None;
      if difficulty.Some? && difficulty.value.Failure? then Failure(difficulty.value.error)
      else
        var questions := if request.questions.Some? then Some(QuestionsFrom(testId, request.questions.value)) else None;
        if questions.Some? && questions.value.Failure? then Failure(questions.value.error)
        else
          Success(MergedTest(
            tests[testId], category, request,
            if difficulty.Some? then Some(difficulty.value.value) else None,
            if questions.Some? then Some(questions.value.value) else None,
            now))
  }

  /** The null-coalescing merge: a field the request leaves null keeps its
      stored value, a field it gives takes the given value, and the stored
      questions survive exactly when the request lists none. */
  lemma UpdateMergesFields(tests: map<Uuid, Test>, categories: map<Uuid, Category>, testId: Uuid, request: UpdateTestRequest, now: Instant)
    requires UpdatedTest(tests, categories, testId, request, now).Success?
    ensures var before := tests[testId];
      var t := UpdatedTest(tests, categories, testId, request, now).value;
      && t.id == before.id && t.createdAt == before.createdAt && t.updatedAt == now
      && t.title == (if request.title.Some? then request.title.value else before.title)
      && t.description == (if request.description.Some? then request.description else before.description)
      && t.pointsReward == (if request.pointsReward.Some? then request.pointsReward.value else before.pointsReward)
      && t.isPublished == (if request.isPublished.Some? then request.isPublished.value else before.isPublished)
      && t.displayOrder == (if request.displayOrder.Some? then request.displayOrder.value else before.displayOrder)
      && t.thumbnailUrl == (if request.thumbnailUrl.Some? then request.thumbnailUrl else before.thumbnailUrl)
      && t.timeLimitSeconds == (if request.timeLimitSeconds.Some? then request.timeLimitSeconds else before.timeLimitSeconds)
      && t.categoryId == (if request.categoryId.Some? then categories[request.categoryId.value].id else before.categoryId)
      && t.categoryName == (if request.categoryId.Some? then categories[request.categoryId.value].name else before.categoryName)
      && (request.difficulty.None? ==> t.difficulty == before.difficulty)
      && (request.difficulty.Some? ==> DifficultyName(t.difficulty) == Text.Upper(request.difficulty.value))
      && (request.questions.None? ==> t.questions == before.questions)
      && (request.questions.Some? ==> Success(t.questions) == QuestionsFrom(testId, request.questions.value))
  {
  }

  /** An update with every field null changes nothing but the update time. */
  lemma EmptyUpdateKeepsTest(tests: map<Uuid, Test>, categories: map<Uuid, Category>, testId: Uuid, now: Instant)
    requires testId in tests
    ensures UpdatedTest(tests, categories, testId, UpdateTestRequest(None, None, None, None, None, None, None, None, None, None), now)
      == Success(tests[testId].(updatedAt := now))
  {
  }

  /** `updateTest(testId, request)`: stores the merged test and returns the
      editor's view of it; on any error nothing changes. */
  method UpdateTest(repo: TestRepository, categories: map<Uuid, Category>, testId: Uuid, request: UpdateTestRequest, now: Instant)
    returns (r: Result<AdminTestDetailResponse>)
    requires repo.Valid()
    modifies repo
    ensures repo.Valid() && repo.nextId == old(repo.nextId)
    ensures match UpdatedTest(old(repo.tests), categories, testId, request, now)
      case Failure(e) => r == Failure(e) && repo.tests == old(repo.tests)
      case Success(t) => repo.tests == old(repo.tests)[testId := t] && r == Success(TestToAdminResponse(t))
  {
    ghost var expected := UpdatedTest(repo.tests, categories, testId, request, now);
    var found := repo.FindById(testId);
    if found.None? {
      return Failure(NoSuchElement("Test not found"));
    }
    var test := found.value;
    var category: Option<Category> := None;
    if request.categoryId.Some? {
      if request.categoryId.value !in categories {
        return Failure(NoSuchElement("Category not found"));
      }
      category := Some(categories[request.categoryId.value]);
    }
    var difficulty: Option<Difficulty> := None;
    if request.difficulty.Some? {
      var parsed := ParseDifficulty(request.difficulty.value);
      if parsed.Failure? {
        assert expected == Failure(parsed.error);
        return Failure(parsed.error);
      }
      difficulty := Some(parsed.value);
    }
    var questions: Option<seq<Question>> := None;
    if request.questions.Some? {
      var built := BuildQuestions(testId, request.questions.value);
      if built.Failure? {
        assert expected == Failure(built.error);
        return Failure(built.error);
      }
      questions := Some(built.value);
    }
    var updated := MergedTest(test, category, request, difficulty, questions, now);
    assert expected == Success(updated);
    repo.tests := repo.tests[testId := updated];
    r := Success(TestToAdminResponse(updated));
  }

  /** `deleteTest(testId)`: removes the test with its questions and answers,
      or fails with "Test not found" and changes nothing. */
  method DeleteTest(repo: TestRepository, testId: Uuid) returns (r: Result<()>)
    requires repo.Valid()
    modifies repo
    ensures repo.Valid() && repo.nextId == old(repo.nextId)
    ensures r.Failure? <==> testId !in old(repo.tests)
    ensures r.Failure? ==> r.error == NoSuchElement("Test not found") && repo.tests == old(repo.tests)
    ensures r.Success? ==> repo.tests == old(repo.tests) - {testId}
  {
    if testId !in repo.tests {
      return Failure(NoSuchElement("Test not found"));
    }
    repo.tests := repo.tests - {testId};
    r := Success(());
  }
}
