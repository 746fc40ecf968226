/** The request and response records of the submission, user, achievement
    and admin endpoints, shared by the backend and the mobile client. */
module Dtos {
  import opened Wrappers
  import opened Entities

  /** One answered question of a submission. `dragDropMatches` maps answer
      ids to the target each was dropped on. */
  datatype SubmitAnswerRequest = SubmitAnswerRequest(
    questionId: string,
    selectedAnswerIds: seq<string>,
    dragDropMatches: Option<map<string, string>>)

  /** `SubmitAnswerRequest(questionId)`: the constructor's defaults. */
  function EmptyAnswer(questionId: string): (a: SubmitAnswerRequest)
    ensures a.questionId == questionId && a.selectedAnswerIds == [] && a.dragDropMatches.None?
  {
    SubmitAnswerRequest(questionId, [], None)
  }

  datatype SubmitTestRequest = SubmitTestRequest(
    testId: string,
    answers: seq<SubmitAnswerRequest>,
    timeSpentSeconds: Option<int>)

  datatype LevelUpInfo = LevelUpInfo(previousLevel: int, newLevel: int, newTitle: string)

  datatype AchievementResponse = AchievementResponse(
    id: Uuid,
    code: string,
    name: string,
    description: string,
    iconUrl: Option<string>,
    pointsReward: int,
    earned: bool)

  /** `Achievement.toResponse(earned)`. */
  function AchievementToResponse(a: Achievement, earned: bool): (r: AchievementResponse)
    ensures r.id == a.id && r.code == a.code && r.pointsReward == a.pointsReward && r.earned == earned
  {
    AchievementResponse(a.id, a.code, a.name, a.description, a.iconUrl, a.pointsReward, earned)
  }

  datatype SubmitTestResponse = SubmitTestResponse(
    score: int,
    maxScore: int,
    percentage: int,
    stars: int,
    pointsEarned: int,
    isNewBestScore: bool,
    newAchievements: seq<AchievementResponse>,
    levelUp: Option<LevelUpInfo>)

  datatype CategoryProgressResponse = CategoryProgressResponse(
    categoryId: Uuid,
    categoryName: string,
    testsCount: int,
    completedCount: int,
    totalStars: int,
    maxStars: int)

  datatype UserProgressSummary = UserProgressSummary(
    totalTests: int,
    completedTests: int,
    totalStars: int,
    maxPossibleStars: int,
    categoriesProgress: seq<CategoryProgressResponse>)

  datatype LeaderboardEntry = LeaderboardEntry(
    rank: int,
    userId: Uuid,
    displayName: string,
    avatarUrl: Option<string>,
    level: int,
    totalPoints: int)

  datatype LeaderboardResponse = LeaderboardResponse(
    entries: seq<LeaderboardEntry>,
    userRank: Option<int>,
    usersAbove: Option<LeaderboardEntry>,
    usersBelow: Option<LeaderboardEntry>)

  /** A leaderboard line for `u` at rank `rank`. */
  function EntryFor(u: User, rank: int): (e: LeaderboardEntry)
    ensures e.rank == rank && e.userId == u.id && e.totalPoints == u.totalPoints && e.level == u.level
  {
    LeaderboardEntry(rank, u.id, u.displayName, u.avatarUrl, u.level, u.totalPoints)
  }

  datatype UserResponse = UserResponse(
    id: Uuid,
    email: string,
    displayName: string,
    avatarUrl: Option<string>,
    level: int,
    totalPoints: int,
    currentStreak: int,
    role: string,
    createdAt: Instant)

  /** `User.toResponse()`. */
  function UserToResponse(u: User): (r: UserResponse)
    ensures r.id == u.id && r.email == u.email && r.displayName == u.displayName && r.role == u.role
  {
    UserResponse(u.id, u.email, u.displayName, u.avatarUrl, u.level, u.totalPoints, u.currentStreak, u.role, u.createdAt)
  }

  datatype UserStats = UserStats(
    testsCompleted: int,
    totalStars: int,
    perfectScores: int,
    currentLevel: int,
    pointsToNextLevel: int)

  datatype AdminUserSummaryResponse = AdminUserSummaryResponse(
    id: Uuid,
    email: string,
    displayName: string,
    avatarUrl: Option<string>,
    role: string,
    level: int,
    totalPoints: int,
    currentStreak: int,
    createdAt: Instant,
    stats: UserStats)

  datatype AdminSettingsResponse = AdminSettingsResponse(
    s3Endpoint: string,
    s3Bucket: string,
    s3Region: string,
    maxFileSize: string,
    maxRequestSize: string,
    corsAllowedOrigins: seq<string>)
}
