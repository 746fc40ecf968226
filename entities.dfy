/** The persistent records of the backend (the JPA entities), as values.
    Kotlin data classes updated with `copy(...)` are Dafny datatypes updated
    with `r.(field := ...)`; references to other entities are kept as the ids
    (and, where a service reads them, the few fields) of the referenced rows. */
module Entities {
  import opened Wrappers
  import Text

  /** A UUID, compared through its string form. */
  type Uuid = string

  /** An `Instant`, in whole seconds since the epoch. */
  type Instant = int

  datatype QuestionType = DragDropImage | AudioSelect | ImageSelect | TextSelect | FillBlank

  datatype Difficulty = Easy | Medium | Hard

  /** `QuestionType.name`. */
  function QuestionTypeName(t: QuestionType): string {
    match t
    case DragDropImage => "DRAG_DROP_IMAGE"
    case AudioSelect => "AUDIO_SELECT"
    case ImageSelect => "IMAGE_SELECT"
    case TextSelect => "TEXT_SELECT"
    case FillBlank => "FILL_BLANK"
  }

  /** `Difficulty.name`. */
  function DifficultyName(d: Difficulty): string {
    match d
    case Easy => "EASY"
    case Medium => "MEDIUM"
    case Hard => "HARD"
  }

  /** `QuestionType.valueOf(s.uppercase())`: the constant named by `s`
      in any letter case, or IllegalArgumentException. */
  function ParseQuestionType(s: string): (r: Result<QuestionType>)
    ensures r.Failure? ==> forall t :: QuestionTypeName(t) != Text.Upper(s)
    ensures r.Success? ==> QuestionTypeName(r.value) == Text.Upper(s)
  {
    var u := Text.Upper(s);
    if u == "DRAG_DROP_IMAGE" then Success(DragDropImage)
    else if u == "AUDIO_SELECT" then Success(AudioSelect)
    else if u == "IMAGE_SELECT" then Success(ImageSelect)
    else if u == "TEXT_SELECT" then Success(TextSelect)
    else if u == "FILL_BLANK" then Success(FillBlank)
    else Failure(IllegalArgument("No enum constant QuestionType." + u))
  }

  /** `Difficulty.valueOf(s.uppercase())`. */
  function ParseDifficulty(s: string): (r: Result<Difficulty>)
    ensures r.Failure? ==> forall d :: DifficultyName(d) != Text.Upper(s)
    ensures r.Success? ==> DifficultyName(r.value) == Text.Upper(s)
  {
    var u := Text.Upper(s);
    if u == "EASY" then Success(Easy)
    else if u == "MEDIUM" then Success(Medium)
    else if u == "HARD" then Success(Hard)
    else Failure(IllegalArgument("No enum constant Difficulty." + u))
  }

  /** A row of `answers`; `matchTarget` is what a drag-drop answer must be matched to. */
  datatype Answer = Answer(
    id: Uuid,
    text: Option<string>,
    imageUrl: Option<string>,
    audioUrl: Option<string>,
    isCorrect: bool,
    displayOrder: int,
    matchTarget: Option<string>)

  /** A row of `questions` with its answers. */
  datatype Question = Question(
    id: Uuid,
    testId: Uuid,
    qtype: QuestionType,
    text: Option<string>,
    audioUrl: Option<string>,
    imageUrl: Option<string>,
    displayOrder: int,
    points: int,
    answers: seq<Answer>)

  /** A row of `tests` with its questions; of its category only the id and
      the name are read by the services. */
  datatype Test = Test(
    id: Uuid,
    categoryId: Uuid,
    categoryName: string,
    title: string,
    description: Option<string>,
    thumbnailUrl: Option<string>,
    difficulty: Difficulty,
    pointsReward: int,
    timeLimitSeconds: Option<int>,
    isPublished: bool,
    displayOrder: int,
    createdAt: Instant,
    updatedAt: Instant,
    questions: seq<Question>)

  /** A row of `categories` with the tests that belong to it. */
  datatype Category = Category(
    id: Uuid,
    name: string,
    description: Option<string>,
    iconUrl: Option<string>,
    displayOrder: int,
    isActive: bool,
    tests: seq<Test>)

  /** A row of `progress`: one per (user, test) pair. It names its test
      only; the category a record counts under is that test's current one. */
  datatype Progress = Progress(
    userId: Uuid,
    testId: Uuid,
    score: int,
    maxScore: int,
    stars: int,
    attemptsCount: int,
    bestScore: int,
    timeSpentSeconds: Option<int>,
    completedAt: Instant,
    lastAttemptAt: Instant)

  /** A row of `achievements`. */
  datatype Achievement = Achievement(
    id: Uuid,
    code: string,
    name: string,
    description: string,
    iconUrl: Option<string>,
    pointsReward: int,
    isHidden: bool)

  /** A row of `users`, with the achievements it has earned (the
      `user_achievements` join table). */
  datatype User = User(
    id: Uuid,
    email: string,
    displayName: string,
    avatarUrl: Option<string>,
    level: int,
    totalPoints: int,
    currentStreak: int,
    lastActivityDate: Option<Instant>,
    role: string,
    createdAt: Instant,
    updatedAt: Instant,
    achievements: set<Achievement>)

  /** A freshly registered user: the entity's defaults (level 1, no points,
      no streak, no activity yet, role USER, nothing earned). */
  function NewUser(id: Uuid, email: string, displayName: string, now: Instant): (u: User)
    ensures u.level == 1 && u.totalPoints == 0 && u.currentStreak == 0
    ensures u.lastActivityDate.None? && u.role == "USER" && u.achievements == {}
  {
    User(id, email, displayName, None, 1, 0, 0, None, "USER", now, now, {})
  }
}
