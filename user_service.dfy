/** Levels, points, streaks and leaderboard ranks (UserService.kt).
    The level is read off a fixed ascending table of eight point thresholds;
    `AddPoints` and `UpdateStreak` rewrite the user's row in place. */
module UserService {
  import opened Wrappers
  import opened Entities
  import opened Dtos
  import opened Repositories

  /** `LEVEL_THRESHOLDS`: the points at which each tier starts, and its title. */
  const LevelThresholds: seq<(int, string)> := [
    (0, "Новичок"),
    (100, "Ученик"),
    (300, "Знаток"),
    (600, "Мастер"),
    (1000, "Эксперт"),
    (1500, "Профессионал"),
    (2500, "Гуру"),
    (4000, "Легенда")
  ]

  /** Kotlin's `Int.MAX_VALUE`. */
  const IntMaxValue: int := 2147483647

  const SecondsPerDay: int := 86400

  /** The table starts at 0 and is strictly ascending. */
  lemma ThresholdsAscending()
    ensures |LevelThresholds| == 8 && LevelThresholds[0].0 == 0
    ensures forall i, j :: 0 <= i < j < |LevelThresholds| ==> LevelThresholds[i].0 < LevelThresholds[j].0
  {
  }

  /** The index of the highest of the first `n` thresholds that `points`
      reaches, or -1 when it reaches none of them. */
  function HighestTierReached(points: int, n: nat): (i: int)
    requires n <= |LevelThresholds|
    ensures -1 <= i < n
    ensures i >= 0 ==> LevelThresholds[i].0 <= points
    ensures forall j :: i < j < n ==> points < LevelThresholds[j].0
  {
    if n == 0 then -1
    else if points >= LevelThresholds[n - 1].0 then n - 1
    else HighestTierReached(points, n - 1)
  }

  /** The level that `points` earn: one more than the index of the highest
      threshold reached, and 1 when none is reached. */
  function LevelFor(points: int): (level: int)
    ensures 1 <= level <= |LevelThresholds|
  {
    var i := HighestTierReached(points, |LevelThresholds|);
    if i >= 0 then i + 1 else 1
  }

  /** `calculateLevel`: scans the table from the top and returns at the first
      threshold that `points` reaches. */
  method CalculateLevel(points: int) returns (level: int)
    ensures level == LevelFor(points)
    ensures 1 <= level <= |LevelThresholds|
  {
    var i := |LevelThresholds| - 1;
    while i >= 0
      invariant -1 <= i < |LevelThresholds|
      invariant HighestTierReached(points, i + 1) == HighestTierReached(points, |LevelThresholds|)
    {
      if points >= LevelThresholds[i].0 {
        return i + 1;
      }
      i := i - 1;
    }
    return 1;
  }

  /** Every threshold `points` reaches lies at or below the highest one reached. */
  lemma TierReachedIsBelowHighest(points: int, n: nat, k: nat)
    requires k < n <= |LevelThresholds| && LevelThresholds[k].0 <= points
    ensures k <= HighestTierReached(points, n)
  {
  }

  /** A threshold above `points` lies above the highest one reached. */
  lemma TierMissedIsAboveHighest(points: int, n: nat, k: nat)
    requires k < n <= |LevelThresholds| && points < LevelThresholds[k].0
    ensures HighestTierReached(points, n) < k
  {
    ThresholdsAscending();
  }

  /** For non-negative points, the level is the one tier whose range
      [threshold, next threshold) holds the points. */
  lemma LevelIsTierContainingPoints(points: int, level: int)
    requires points >= 0
    ensures LevelFor(points) == level <==>
      && 1 <= level <= |LevelThresholds|
      && LevelThresholds[level - 1].0 <= points
      && (level == |LevelThresholds| || points < LevelThresholds[level].0)
  {
    TierReachedIsBelowHighest(points, |LevelThresholds|, 0);
    var i := HighestTierReached(points, |LevelThresholds|);
    if 1 <= level <= |LevelThresholds| && LevelThresholds[level - 1].0 <= points {
      TierReachedIsBelowHighest(points, |LevelThresholds|, level - 1);
      if level < |LevelThresholds| && points < LevelThresholds[level].0 {
        TierMissedIsAboveHighest(points, |LevelThresholds|, level);
      }
    }
  }

  /** More points never mean a lower level. */
  lemma LevelMonotone(p: int, q: int)
    requires p <= q
    ensures LevelFor(p) <= LevelFor(q)
  {
    var a := HighestTierReached(p, |LevelThresholds|);
    if a >= 0 {
      TierReachedIsBelowHighest(q, |LevelThresholds|, a);
    }
  }

  /** `calculateLevelInfo`: the level and the points still missing to the
      next tier (never negative; measured against `Int.MAX_VALUE` on the top tier). */
  function CalculateLevelInfo(points: int): (r: (int, int))
    ensures r.0 == LevelFor(points)
    ensures r.1 >= 0
    ensures r.0 < |LevelThresholds| ==> 0 < r.1 && points + r.1 == LevelThresholds[r.0].0
    ensures r.0 == |LevelThresholds| && points <= IntMaxValue ==> points + r.1 == IntMaxValue
  {
    var level := LevelFor(points);
    var nextLevelThreshold := if level < |LevelThresholds| then LevelThresholds[level].0 else IntMaxValue;
    var missing := nextLevelThreshold - points;
    (level, if missing < 0 then 0 else missing)
  }

  /** `getLevelTitle`: the title of tier `level`, and the top tier's title for
      a level outside the table. */
  function GetLevelTitle(level: int): (title: string)
    ensures 1 <= level <= |LevelThresholds| ==> title == LevelThresholds[level - 1].1
    ensures title == LevelThresholds[if 1 <= level <= |LevelThresholds| then level - 1 else |LevelThresholds| - 1].1
  {
    if 1 <= level <= |LevelThresholds| then LevelThresholds[level - 1].1 else "Легенда"
  }

  /** The stored level never runs ahead of the level the user's points earn.
      It can lag behind: achievement bonuses add points without touching it. */
  predicate LevelConsistent(u: User) {
    1 <= u.level <= LevelFor(u.totalPoints)
  }

  /** The user row and level-up notice `addPoints` produces. The level before
      is computed from the points, not read from the stored level, and the
      stored level is only overwritten when the computed level rises. */
  function PointsAdded(u: User, points: int, now: Instant): (User, Option<LevelUpInfo>) {
    var oldLevel := LevelFor(u.totalPoints);
    var updatedUser := u.(totalPoints := u.totalPoints + points, updatedAt := now);
    var newLevel := LevelFor(updatedUser.totalPoints);
    var saved := if newLevel > oldLevel then updatedUser.(level := newLevel) else updatedUser;
    (saved, if newLevel > oldLevel then Some(LevelUpInfo(oldLevel, newLevel, GetLevelTitle(newLevel))) else None)
  }

  /** `addPoints` adds exactly `points`; it reports a level-up iff the level
      computed from the points rises, with the old and new level and the new
      title, and then (and only then) stores the new level. */
  lemma AddPointsEffect(u: User, points: int, now: Instant)
    ensures var (v, up) := PointsAdded(u, points, now);
      && v.totalPoints == u.totalPoints + points
      && v == u.(totalPoints := v.totalPoints, updatedAt := now, level := v.level)
      && (up.Some? <==> LevelFor(u.totalPoints + points) > LevelFor(u.totalPoints))
      && (up.Some? ==> up.value.previousLevel == LevelFor(u.totalPoints) && up.value.newLevel == v.level
                       && v.level == LevelFor(v.totalPoints) && up.value.newTitle == LevelThresholds[v.level - 1].1)
      && (up.None? ==> v.level == u.level)
  {
  }

  /** A level-up needs a positive number of points. */
  lemma LevelUpNeedsPositivePoints(u: User, points: int, now: Instant)
    requires PointsAdded(u, points, now).1.Some?
    ensures points > 0
  {
    if points <= 0 {
      LevelMonotone(u.totalPoints + points, u.totalPoints);
    }
  }

  /** `addPoints` never lowers a consistent stored level, and adding
      non-negative points keeps it consistent. */
  lemma AddPointsNeverLowersLevel(u: User, points: int, now: Instant)
    requires LevelConsistent(u)
    ensures PointsAdded(u, points, now).0.level >= u.level
    ensures points >= 0 ==> LevelConsistent(PointsAdded(u, points, now).0)
  {
    if points >= 0 {
      LevelMonotone(u.totalPoints, u.totalPoints + points);
    }
  }

  /** The user after a series of `addPoints` calls. */
  function PointsAddedAll(u: User, deltas: seq<int>, now: Instant): User
    decreases |deltas|
  {
    if deltas == [] then u else PointsAddedAll(PointsAdded(u, deltas[0], now).0, deltas[1..], now)
  }

  /** Across any series of non-negative point additions the stored level
      never decreases and the total is the sum of what was added. */
  lemma {:induction false} LevelNeverDecreases(u: User, deltas: seq<int>, now: Instant)
    requires LevelConsistent(u)
    requires forall k :: 0 <= k < |deltas| ==> deltas[k] >= 0
    ensures PointsAddedAll(u, deltas, now).level >= u.level
    ensures PointsAddedAll(u, deltas, now).totalPoints == u.totalPoints + Sum(deltas)
    ensures LevelConsistent(PointsAddedAll(u, deltas, now))
    decreases |deltas|
  {
    if deltas != [] {
      AddPointsNeverLowersLevel(u, deltas[0], now);
      LevelNeverDecreases(PointsAdded(u, deltas[0], now).0, deltas[1..], now);
    }
  }

  function Sum(xs: seq<int>): int {
    if xs == [] then 0 else xs[0] + Sum(xs[1..])
  }

  /** `addPoints(userId, points)`: a read-modify-write of the user's row. */
  method AddPoints(repo: UserRepository, userId: Uuid, points: int, now: Instant)
    returns (r: Result<(User, Option<LevelUpInfo>)>)
    requires repo.Valid()
    modifies repo
    ensures repo.Valid()
    ensures userId !in old(repo.users) ==> r == Failure(NoSuchElement("User not found")) && repo.users == old(repo.users)
    ensures userId in old(repo.users) ==>
      && r == Success(PointsAdded(old(repo.users)[userId], points, now))
      && repo.users == old(repo.users)[userId := r.value.0]
  {
    var found := repo.FindById(userId);
    if found.None? {
      return Failure(NoSuchElement("User not found"));
    }
    var user := found.value;
    var oldLevel := CalculateLevel(user.totalPoints);
    var updatedUser := user.(totalPoints := user.totalPoints + points, updatedAt := now);
    var newLevel := CalculateLevel(updatedUser.totalPoints);
    var saved := if newLevel > oldLevel then updatedUser.(level := newLevel) else updatedUser;
    repo.Save(saved);
    var levelUpInfo := if newLevel > oldLevel then Some(LevelUpInfo(oldLevel, newLevel, GetLevelTitle(newLevel))) else None;
    return Success((saved, levelUpInfo));
  }

  /** `Duration.between(from, to).toDays()`: the whole days elapsed, rounded
      toward zero (also when `to` lies before `from`). */
  function WholeDaysBetween(from: Instant, to: Instant): (days: int)
    ensures to - from >= 0 ==> days >= 0 && days * SecondsPerDay <= to - from < (days + 1) * SecondsPerDay
    ensures to - from < 0 ==> days <= 0 && (days - 1) * SecondsPerDay < to - from <= days * SecondsPerDay
  {
    var d := to - from;
    if d >= 0 then d / SecondsPerDay else -((-d) / SecondsPerDay)
  }

  /** The streak after activity at `now`: kept within the same day-length
      (either way round), extended by one after one full day, restarted
      after a longer gap or when there was no earlier activity. */
  function NextStreak(lastActivity: Option<Instant>, streak: int, now: Instant): (r: int)
    ensures lastActivity.None? ==> r == 1
    ensures lastActivity.Some? && -SecondsPerDay < now - lastActivity.value < SecondsPerDay ==> r == streak
    ensures lastActivity.Some? && SecondsPerDay <= now - lastActivity.value < 2 * SecondsPerDay ==> r == streak + 1
    ensures lastActivity.Some? && (now - lastActivity.value >= 2 * SecondsPerDay || now - lastActivity.value <= -SecondsPerDay) ==> r == 1
  {
    match lastActivity
    case None => 1
    case Some(last) =>
      var daysSinceLastActivity := WholeDaysBetween(last, now);
      if daysSinceLastActivity == 0 then streak
      else if daysSinceLastActivity == 1 then streak + 1
      else 1
  }

  /** The user row `updateStreak` saves. */
  function StreakUpdated(u: User, now: Instant): (v: User)
    ensures v == u.(currentStreak := v.currentStreak, lastActivityDate := Some(now), updatedAt := now)
    ensures v.currentStreak == NextStreak(u.lastActivityDate, u.currentStreak, now)
  {
    u.(currentStreak := NextStreak(u.lastActivityDate, u.currentStreak, now), lastActivityDate := Some(now), updatedAt := now)
  }

  /** `updateStreak(userId)` at time `now`. */
  method UpdateStreak(repo: UserRepository, userId: Uuid, now: Instant) returns (r: Result<User>)
    requires repo.Valid()
    modifies repo
    ensures repo.Valid()
    ensures userId !in old(repo.users) ==> r == Failure(NoSuchElement("User not found")) && repo.users == old(repo.users)
    ensures userId in old(repo.users) ==>
      && r == Success(StreakUpdated(old(repo.users)[userId], now))
      && repo.users == old(repo.users)[userId := r.value]
  {
    var found := repo.FindById(userId);
    if found.None? {
      return Failure(NoSuchElement("User not found"));
    }
    var user := found.value;
    var today := now;
    var newStreak := 1;
    if user.lastActivityDate.Some? {
      var daysSinceLastActivity := WholeDaysBetween(user.lastActivityDate.value, today);
      if daysSinceLastActivity == 0 {
        newStreak := user.currentStreak;
      } else if daysSinceLastActivity == 1 {
        newStreak := user.currentStreak + 1;
      }
    }
    var saved := user.(currentStreak := newStreak, lastActivityDate := Some(today), updatedAt := today);
    repo.Save(saved);
    return Success(saved);
  }

  /** `topUsers.count { it.totalPoints > points }`. */
  function CountWithMorePoints(users: seq<User>, points: int): (n: nat)
    ensures n <= |users|
  {
    if users == [] then 0
    else (if users[0].totalPoints > points then 1 else 0) + CountWithMorePoints(users[1..], points)
  }

  /** `entries.indexOfFirst { it.userId == id }`, or None for -1. */
  function IndexOfUserId(entries: seq<LeaderboardEntry>, id: Uuid): (r: Option<nat>)
    ensures r.Some? ==> r.value < |entries| && entries[r.value].userId == id
    ensures r.Some? ==> forall j :: 0 <= j < r.value ==> entries[j].userId != id
    ensures r.None? ==> forall j :: 0 <= j < |entries| ==> entries[j].userId != id
  {
    if entries == [] then None
    else if entries[0].userId == id then Some(0)
    else match IndexOfUserId(entries[1..], id)
      case None => None
      case Some(k) => Some(k + 1)
  }

  /** The leaderboard for the top users (the `findTopByTotalPoints` query's
      answer), ranked 1, 2, ... in order; for a known current user also their
      rank and the neighbours `findUserAbove`/`findUserBelow` returned. */
  method GetLeaderboard(
    currentUserId: Option<Uuid>, users: map<Uuid, User>,
    topUsers: seq<User>, userAbove: Option<User>, userBelow: Option<User>)
    returns (r: LeaderboardResponse)
    ensures |r.entries| == |topUsers|
    ensures forall i :: 0 <= i < |topUsers| ==> r.entries[i] == EntryFor(topUsers[i], i + 1)
    ensures (currentUserId.None? || currentUserId.value !in users) ==>
      r.userRank.None? && r.usersAbove.None? && r.usersBelow.None?
    ensures currentUserId.Some? && currentUserId.value in users ==>
      && r.userRank.Some? && r.userRank.value >= 1
      && ((exists p :: 0 <= p < |topUsers| && topUsers[p].id == currentUserId.value) ==>
            && r.userRank.value <= |topUsers|
            && topUsers[r.userRank.value - 1].id == currentUserId.value
            && forall j :: 0 <= j < r.userRank.value - 1 ==> topUsers[j].id != currentUserId.value)
      && ((forall p :: 0 <= p < |topUsers| ==> topUsers[p].id != currentUserId.value) ==>
            r.userRank.value == CountWithMorePoints(topUsers, users[currentUserId.value].totalPoints) + 1)
      && r.usersAbove == (if userAbove.Some? then Some(EntryFor(userAbove.value, r.userRank.value - 1)) else None)
      && r.usersBelow == (if userBelow.Some? then Some(EntryFor(userBelow.value, r.userRank.value + 1)) else None)
  {
    var entries := seq(|topUsers|, i requires 0 <= i < |topUsers| => EntryFor(topUsers[i], i + 1));
    var userRank: Option<int> := None;
    var above: Option<LeaderboardEntry> := None;
    var below: Option<LeaderboardEntry> := None;
    if currentUserId.Some? {
      if currentUserId.value in users {
        var currentUser := users[currentUserId.value];
        var index := IndexOfUserId(entries, currentUserId.value);
        if index.Some? {
          userRank := Some(index.value + 1);
        }
        if userRank.None? {
          userRank := Some(CountWithMorePoints(topUsers, currentUser.totalPoints) + 1);
        }
        if userAbove.Some? {
          above := Some(EntryFor(userAbove.value, userRank.value - 1));
        }
        if userBelow.Some? {
          below := Some(EntryFor(userBelow.value, userRank.value + 1));
        }
      }
    }
    return LeaderboardResponse(entries, userRank, above, below);
  }

  /** Users ordered by points, highest first (`ORDER BY totalPoints DESC`). */
  predicate SortedByPointsDescending(users: seq<User>) {
    forall i, j :: 0 <= i < j < |users| ==> users[i].totalPoints >= users[j].totalPoints
  }

  /** In a list sorted by points, the approximate rank used for users outside
      the top list never exceeds the position-based rank of a listed user
      with the same points: only users listed before them can have more. */
  lemma {:induction false} CountRankAtMostPositionRank(users: seq<User>, p: nat)
    requires SortedByPointsDescending(users)
    requires p < |users|
    ensures CountWithMorePoints(users, users[p].totalPoints) <= p
    decreases p
  {
    if p == 0 {
      NoneAbove(users, users[0].totalPoints);
    } else {
      assert SortedByPointsDescending(users[1..]);
      assert users[1..][p - 1] == users[p];
      CountRankAtMostPositionRank(users[1..], p - 1);
    }
  }

  /** Nobody in a list has more points than its first element. */
  lemma {:induction false} NoneAbove(users: seq<User>, points: int)
    requires SortedByPointsDescending(users)
    requires users != [] ==> users[0].totalPoints <= points
    ensures CountWithMorePoints(users, points) == 0
    decreases |users|
  {
    if users != [] {
      assert SortedByPointsDescending(users[1..]);
      if |users| > 1 {
        assert users[1..][0] == users[1];
      }
      NoneAbove(users[1..], points);
    }
  }
}
