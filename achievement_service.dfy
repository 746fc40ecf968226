/** The achievement evaluator (AchievementService.kt): seven fixed rules,
    each awarded at most once per user, and the achievement lists with their
    earned flags. */
module AchievementService {
  import opened Wrappers
  import opened Entities
  import opened Dtos
  import opened Repositories

  /** The rules' codes, in the order the service evaluates them. */
  const RuleCodes: seq<string> := [FirstTest, PerfectScore, Streak3, Streak7, Streak30, Tests10, Tests50]

  const FirstTest: string := "FIRST_TEST"
  const PerfectScore: string := "PERFECT_SCORE"
  const Streak3: string := "STREAK_3"
  const Streak7: string := "STREAK_7"
  const Streak30: string := "STREAK_30"
  const Tests10: string := "TESTS_10"
  const Tests50: string := "TESTS_50"

  /** What the rules look at: the number of completed tests, the percentage
      of the test just submitted and the user's streak. */
  datatype Facts = Facts(testsCompleted: int, lastTestPercentage: int, currentStreak: int)

  /** The condition of rule `k`. */
  predicate RuleHolds(k: nat, f: Facts)
    requires k < |RuleCodes|
  {
    if k == 0 then f.testsCompleted >= 1
    else if k == 1 then f.lastTestPercentage == 100
    else if k == 2 then f.currentStreak >= 3
    else if k == 3 then f.currentStreak >= 7
    else if k == 4 then f.currentStreak >= 30
    else if k == 5 then f.testsCompleted >= 10
    else f.testsCompleted >= 50
  }

  /** `achievementRepository.findByCode(code)`: the catalogue's achievement
      with that code, if any. */
  function FindByCode(catalogue: seq<Achievement>, code: string): (r: Option<Achievement>)
    ensures r.Some? ==> r.value in catalogue && r.value.code == code
    ensures r.None? <==> forall i :: 0 <= i < |catalogue| ==> catalogue[i].code != code
  {
    if catalogue == [] then None
    else if catalogue[0].code == code then Some(catalogue[0])
    else FindByCode(catalogue[1..], code)
  }

  /** The codes of the achievements the user has already earned. */
  function EarnedCodes(u: User): set<string> {
    set a | a in u.achievements :: a.code
  }

  /** What one rule adds when it is `eligible`: the catalogue's entry for
      its code, or nothing when the catalogue has none. */
  function Contribution(catalogue: seq<Achievement>, code: string, eligible: bool): seq<Achievement> {
    if eligible then
      match FindByCode(catalogue, code)
      case Some(a) => [a]
      case None => []
    else []
  }

  /** What rule `k` adds: it is eligible when its code is not yet earned and
      its condition holds. */
  function RuleAward(catalogue: seq<Achievement>, earned: set<string>, f: Facts, k: nat): seq<Achievement>
    requires k < |RuleCodes|
  {
    Contribution(catalogue, RuleCodes[k], RuleCodes[k] !in earned && RuleHolds(k, f))
  }

  /** The achievements the first `n` rules award, in rule order. */
  function AwardedBy(catalogue: seq<Achievement>, earned: set<string>, f: Facts, n: nat): seq<Achievement>
    requires n <= |RuleCodes|
  {
    if n == 0 then [] else AwardedBy(catalogue, earned, f, n - 1) + RuleAward(catalogue, earned, f, n - 1)
  }

  /** The achievements one call awards to `u`. */
  function Awarded(catalogue: seq<Achievement>, u: User, testsCompleted: int, lastTestPercentage: int): seq<Achievement> {
    AwardedBy(catalogue, EarnedCodes(u), Facts(testsCompleted, lastTestPercentage, u.currentStreak), |RuleCodes|)
  }

  function SumRewards(awarded: seq<Achievement>): int {
    if awarded == [] then 0 else awarded[0].pointsReward + SumRewards(awarded[1..])
  }

  /** The user row after the award: the new achievements joined to the
      earned set and, when their rewards add up to something positive, the
      bonus added to the points. The stored level is left alone. */
  function AwardedUser(u: User, awarded: seq<Achievement>): (v: User)
    ensures v == u.(achievements := v.achievements, totalPoints := v.totalPoints)
    ensures v.achievements == u.achievements + (set a | a in awarded)
    ensures awarded == [] || SumRewards(awarded) <= 0 ==> v.totalPoints == u.totalPoints
    ensures SumRewards(awarded) > 0 ==> v.totalPoints == u.totalPoints + SumRewards(awarded)
  {
    if awarded == [] then u
    else
      var withAchievements := u.(achievements := u.achievements + set a | a in awarded);
      var bonusPoints := SumRewards(awarded);
      if bonusPoints > 0 then withAchievements.(totalPoints := withAchievements.totalPoints + bonusPoints)
      else withAchievements
  }

  /** Every awarded achievement comes from some rule `k` among the first
      `n`: its code is that rule's, not earned before, the rule's condition
      holds, and it is the catalogue's entry for the code. */
  lemma {:induction false} AwardedAreSound(catalogue: seq<Achievement>, earned: set<string>, f: Facts, n: nat)
    requires n <= |RuleCodes|
    ensures forall a | a in AwardedBy(catalogue, earned, f, n) ::
      exists k :: 0 <= k < n && a.code == RuleCodes[k] && a.code !in earned && RuleHolds(k, f)
                  && FindByCode(catalogue, a.code) == Some(a)
  {
    if n > 0 {
      AwardedAreSound(catalogue, earned, f, n - 1);
    }
  }

  /** Every rule among the first `n` whose code is unearned, whose
      condition holds and whose code is in the catalogue contributes its
      catalogue entry. */
  lemma {:induction false} AwardedAreComplete(catalogue: seq<Achievement>, earned: set<string>, f: Facts, n: nat)
    requires n <= |RuleCodes|
    ensures forall k :: 0 <= k < n && RuleCodes[k] !in earned && RuleHolds(k, f) && FindByCode(catalogue, RuleCodes[k]).Some? ==>
      FindByCode(catalogue, RuleCodes[k]).value in AwardedBy(catalogue, earned, f, n)
  {
    if n > 0 {
      AwardedAreComplete(catalogue, earned, f, n - 1);
      assert RuleAward(catalogue, earned, f, n - 1) <= AwardedBy(catalogue, earned, f, n)[|AwardedBy(catalogue, earned, f, n - 1)|..];
    }
  }

  /** The first `n` rules award only codes among their own, each at most
      once, in rule order. */
  lemma {:induction false} AwardedFollowRuleOrder(catalogue: seq<Achievement>, earned: set<string>, f: Facts, n: nat)
    requires n <= |RuleCodes|
    ensures |AwardedBy(catalogue, earned, f, n)| <= n
    ensures forall i :: 0 <= i < |AwardedBy(catalogue, earned, f, n)| ==>
      exists k :: 0 <= k < n && AwardedBy(catalogue, earned, f, n)[i].code == RuleCodes[k]
    ensures forall i, j :: 0 <= i < j < |AwardedBy(catalogue, earned, f, n)| ==>
      exists k, l :: 0 <= k < l < n && AwardedBy(catalogue, earned, f, n)[i].code == RuleCodes[k]
                                    && AwardedBy(catalogue, earned, f, n)[j].code == RuleCodes[l]
  {
    if n > 0 {
      AwardedFollowRuleOrder(catalogue, earned, f, n - 1);
      var prev := AwardedBy(catalogue, earned, f, n - 1);
      var all := AwardedBy(catalogue, earned, f, n);
      assert all[..|prev|] == prev;
      forall i | 0 <= i < |all|
        ensures exists k :: 0 <= k < n && all[i].code == RuleCodes[k]
      {
        if i < |prev| {
          assert all[i] == prev[i];
        }
      }
      forall i, j | 0 <= i < j < |all|
        ensures exists k, l :: 0 <= k < l < n && all[i].code == RuleCodes[k] && all[j].code == RuleCodes[l]
      {
        if j < |prev| {
          assert all[i] == prev[i] && all[j] == prev[j];
        } else {
          assert all[i] == prev[i];
          var k :| 0 <= k < n - 1 && prev[i].code == RuleCodes[k];
          assert all[j].code == RuleCodes[n - 1];
        }
      }
    }
  }

  /** The seven codes are distinct, so rule order means no duplicates. */
  lemma RuleCodesDistinct()
    ensures forall k, l :: 0 <= k < l < |RuleCodes| ==> RuleCodes[k] != RuleCodes[l]
  {
  }

  /** Awarding is idempotent: once the awarded achievements are in the
      user's set, a second call with the same figures awards nothing. */
  lemma AwardIsIdempotent(catalogue: seq<Achievement>, u: User, testsCompleted: int, lastTestPercentage: int)
    ensures Awarded(catalogue, AwardedUser(u, Awarded(catalogue, u, testsCompleted, lastTestPercentage)), testsCompleted, lastTestPercentage) == []
  {
    var f := Facts(testsCompleted, lastTestPercentage, u.currentStreak);
    var awarded := Awarded(catalogue, u, testsCompleted, lastTestPercentage);
    var v := AwardedUser(u, awarded);
    AwardedAreComplete(catalogue, EarnedCodes(u), f, |RuleCodes|);
    assert forall a | a in awarded :: a.code in EarnedCodes(v) by {
      forall a | a in awarded ensures a.code in EarnedCodes(v) {
        assert a in v.achievements;
      }
    }
    forall k | 0 <= k < |RuleCodes|
      ensures RuleAward(catalogue, EarnedCodes(v), f, k) == []
    {
      var found := FindByCode(catalogue, RuleCodes[k]);
      if found.Some? && RuleCodes[k] !in EarnedCodes(u) && RuleHolds(k, f) {
        assert found.value in awarded;
        assert RuleCodes[k] in EarnedCodes(v);
      } else if found.Some? && RuleCodes[k] in EarnedCodes(u) {
        var a :| a in u.achievements && a.code == RuleCodes[k];
        assert a in v.achievements;
      }
    }
    NothingAwarded(catalogue, EarnedCodes(v), f, |RuleCodes|);
  }

  /** When no rule contributes, nothing is awarded. */
  lemma {:induction false} NothingAwarded(catalogue: seq<Achievement>, earned: set<string>, f: Facts, n: nat)
    requires n <= |RuleCodes|
    requires forall k :: 0 <= k < n ==> RuleAward(catalogue, earned, f, k) == []
    ensures AwardedBy(catalogue, earned, f, n) == []
  {
    if n > 0 {
      NothingAwarded(catalogue, earned, f, n - 1);
    }
  }

  /** Rule `k`, whose code is `code` and whose condition is `holds`,
      appends its contribution to what the rules before it awarded. */
  lemma AwardStep(catalogue: seq<Achievement>, earned: set<string>, f: Facts, k: nat, code: string, holds: bool)
    requires k < |RuleCodes| && code == RuleCodes[k] && (holds <==> RuleHolds(k, f))
    ensures AwardedBy(catalogue, earned, f, k + 1) == AwardedBy(catalogue, earned, f, k) + Contribution(catalogue, code, code !in earned && holds)
  {
  }

  /** One rule of the chain: when it is `eligible` (code unearned, condition
      met), `findByCode(code)?.let { newAchievements.add(it) }`. */
  method ApplyRule(catalogue: seq<Achievement>, newAchievements: seq<Achievement>, code: string, eligible: bool)
    returns (r: seq<Achievement>)
    ensures r == newAchievements + Contribution(catalogue, code, eligible)
  {
    r := newAchievements;
    if eligible {
      var found := FindByCode(catalogue, code);
      if found.Some? {
        r := r + [found.value];
      }
    }
  }

  /** The rule chain of `checkAndAwardAchievements`: each rule whose code is
      not yet earned and whose condition holds appends its catalogue entry,
      if the catalogue has one. */
  method EvaluateRules(catalogue: seq<Achievement>, earnedAchievements: set<string>, f: Facts)
    returns (newAchievements: seq<Achievement>)
    ensures newAchievements == AwardedBy(catalogue, earnedAchievements, f, |RuleCodes|)
  {
    newAchievements := [];
    AwardStep(catalogue, earnedAchievements, f, 0, FirstTest, f.testsCompleted >= 1);
    newAchievements := ApplyRule(catalogue, newAchievements, FirstTest, FirstTest !in earnedAchievements && f.testsCompleted >= 1);
    assert newAchievements == AwardedBy(catalogue, earnedAchievements, f, 1);
    AwardStep(catalogue, earnedAchievements, f, 1, PerfectScore, f.lastTestPercentage == 100);
    newAchievements := ApplyRule(catalogue, newAchievements, PerfectScore, PerfectScore !in earnedAchievements && f.lastTestPercentage == 100);
    assert newAchievements == AwardedBy(catalogue, earnedAchievements, f, 2);
    AwardStep(catalogue, earnedAchievements, f, 2, Streak3, f.currentStreak >= 3);
    newAchievements := ApplyRule(catalogue, newAchievements, Streak3, Streak3 !in earnedAchievements && f.currentStreak >= 3);
    assert newAchievements == AwardedBy(catalogue, earnedAchievements, f, 3);
    AwardStep(catalogue, earnedAchievements, f, 3, Streak7, f.currentStreak >= 7);
    newAchievements := ApplyRule(catalogue, newAchievements, Streak7, Streak7 !in earnedAchievements && f.currentStreak >= 7);
    assert newAchievements == AwardedBy(catalogue, earnedAchievements, f, 4);
    AwardStep(catalogue, earnedAchievements, f, 4, Streak30, f.currentStreak >= 30);
    newAchievements := ApplyRule(catalogue, newAchievements, Streak30, Streak30 !in earnedAchievements && f.currentStreak >= 30);
    assert newAchievements == AwardedBy(catalogue, earnedAchievements, f, 5);
    AwardStep(catalogue, earnedAchievements, f, 5, Tests10, f.testsCompleted >= 10);
    newAchievements := ApplyRule(catalogue, newAchievements, Tests10, Tests10 !in earnedAchievements && f.testsCompleted >= 10);
    assert newAchievements == AwardedBy(catalogue, earnedAchievements, f, 6);
    AwardStep(catalogue, earnedAchievements, f, 6, Tests50, f.testsCompleted >= 50);
    newAchievements := ApplyRule(catalogue, newAchievements, Tests50, Tests50 !in earnedAchievements && f.testsCompleted >= 50);
    assert newAchievements == AwardedBy(catalogue, earnedAchievements, f, 7);
  }

  /** `checkAndAwardAchievements(userId, lastTestPercentage, lastTestStars)`:
      runs the seven rules against the user's earned codes, joins the new
      achievements to the user and credits their bonus points. The number of
      perfect scores the source also queries is never read, and neither is
      `lastTestStars`. */
  method CheckAndAwardAchievements(
    users: UserRepository, progress: ProgressRepository, catalogue: seq<Achievement>,
    userId: Uuid, lastTestPercentage: int, lastTestStars: int)
    returns (r: Result<seq<AchievementResponse>>)
    requires users.Valid()
    modifies users
    ensures users.Valid()
    ensures userId !in old(users.users) ==> r == Failure(NoSuchElement("User not found")) && users.users == old(users.users)
    ensures userId in old(users.users) ==>
      var u := old(users.users)[userId];
      var awarded := Awarded(catalogue, u, progress.CountByUserId(userId), lastTestPercentage);
      && r.Success? && |r.value| == |awarded|
      && (forall i :: 0 <= i < |awarded| ==> r.value[i] == AchievementToResponse(awarded[i], true))
      && users.users == old(users.users)[userId := AwardedUser(u, awarded)]
  {
    var found := users.FindById(userId);
    if found.None? {
      return Failure(NoSuchElement("User not found"));
    }
    var user := found.value;
    ghost var before := users.users;
    ghost var u := user;
    var testsCompleted := progress.CountByUserId(userId);
    var newAchievements := EvaluateRules(catalogue, EarnedCodes(user), Facts(testsCompleted, lastTestPercentage, user.currentStreak));
    assert newAchievements == Awarded(catalogue, u, testsCompleted, lastTestPercentage);

    if newAchievements != [] {
      user := user.(achievements := user.achievements + set a | a in newAchievements);
      users.Save(user);
      var bonusPoints := SumRewards(newAchievements);
      if bonusPoints > 0 {
        users.Save(user.(totalPoints := user.totalPoints + bonusPoints));
      }
      assert users.users == before[userId := AwardedUser(u, newAchievements)];
    } else {
      assert before[userId := AwardedUser(u, newAchievements)] == before;
    }
    return Success(seq(|newAchievements|, i requires 0 <= i < |newAchievements| => AchievementToResponse(newAchievements[i], true)));
  }

  /** `getAllAchievements(userId)`: every visible achievement, marked earned
      iff the caller is known and holds an achievement with the same id.
      `earned` is the caller's `findByUserId` answer, None for an anonymous caller. */
  function GetAllAchievements(visible: seq<Achievement>, earned: Option<seq<Achievement>>): (r: seq<AchievementResponse>)
    ensures |r| == |visible|
    ensures forall i :: 0 <= i < |visible| ==>
      && r[i].id == visible[i].id && r[i].code == visible[i].code && r[i].pointsReward == visible[i].pointsReward
      && (r[i].earned <==> earned.Some? && exists e :: e in earned.value && e.id == visible[i].id)
    ensures earned.None? ==> forall i :: 0 <= i < |r| ==> !r[i].earned
  {
    var earnedIds: set<Uuid> := if earned.Some? then set e | e in earned.value :: e.id else {};
    seq(|visible|, i requires 0 <= i < |visible| => AchievementToResponse(visible[i], visible[i].id in earnedIds))
  }

  /** `getUserAchievements(userId)`: the user's achievements, all earned. */
  function GetUserAchievements(earned: seq<Achievement>): (r: seq<AchievementResponse>)
    ensures |r| == |earned|
    ensures forall i :: 0 <= i < |r| ==> r[i].earned && r[i].id == earned[i].id && r[i].code == earned[i].code
  {
    seq(|earned|, i requires 0 <= i < |earned| => AchievementToResponse(earned[i], true))
  }
}
