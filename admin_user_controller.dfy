/** The user list of AdminUserController.kt: all users filtered by a query
    and a role taken as given (blank means no filter, nothing is trimmed),
    each mapped to a summary with the user's statistics. The statistics
    come from `UserService.getUserStats`, a parameter here. */
module AdminUserController {
  import opened Wrappers
  import opened Entities
  import opened Dtos
  import Text
  import Seqs
  import AdminService

  /** `query.isNullOrBlank() || email or displayName contains query`, ignoring case. */
  predicate QueryPasses(u: User, query: Option<string>) {
    query.None? || Text.IsBlank(query.value)
    || Text.ContainsIgnoreCase(u.email, query.value) || Text.ContainsIgnoreCase(u.displayName, query.value)
  }

  /** `role.isNullOrBlank() || user.role.equals(role, ignoreCase = true)`. */
  predicate RolePasses(u: User, role: Option<string>) {
    role.None? || Text.IsBlank(role.value) || Text.EqualsIgnoreCase(u.role, role.value)
  }

  /** The users the controller lists: exactly those passing both filters,
      in their order. */
  function Filtered(users: seq<User>, query: Option<string>, role: Option<string>): (r: seq<User>)
    ensures Seqs.IsSubsequence(r, users)
    ensures forall u :: u in r <==> u in users && QueryPasses(u, query) && RolePasses(u, role)
  {
    Seqs.Filter(u => QueryPasses(u, query) && RolePasses(u, role), users)
  }

  /** The summary of one user: the fields of its public response and its
      statistics. */
  function Summary(u: User, stats: UserStats): (s: AdminUserSummaryResponse)
    ensures var r := UserToResponse(u);
      s.id == r.id && s.email == r.email && s.displayName == r.displayName && s.avatarUrl == r.avatarUrl
      && s.role == r.role && s.level == r.level && s.totalPoints == r.totalPoints
      && s.currentStreak == r.currentStreak && s.createdAt == r.createdAt && s.stats == stats
  {
    AdminUserSummaryResponse(u.id, u.email, u.displayName, u.avatarUrl, u.role, u.level,
      u.totalPoints, u.currentStreak, u.createdAt, stats)
  }

  /** `getUsers(q, role)`: one summary per listed user, in order. */
  function GetUsers(users: seq<User>, query: Option<string>, role: Option<string>, stats: User -> UserStats)
    : (r: seq<AdminUserSummaryResponse>)
    ensures |r| == |Filtered(users, query, role)| <= |users|
    ensures forall i :: 0 <= i < |r| ==>
      var u := Filtered(users, query, role)[i];
      r[i] == Summary(u, stats(u))
  {
    Seqs.MapSeq(u => Summary(u, stats(u)), Filtered(users, query, role))
  }

  /** For a query without surrounding whitespace, the controller's query
      predicate accepts a user exactly when the admin service's does. */
  lemma SameQueryVerdict(u: User, query: Option<string>)
    requires query.Some? ==> Text.Trim(query.value) == query.value
    ensures QueryPasses(u, query) == AdminService.MatchesQuery(u, AdminService.NormalizedQuery(query))
  {
  }

  /** For a role without surrounding whitespace, the controller's role
      predicate accepts a user exactly when the admin service's does. */
  lemma SameRoleVerdict(u: User, role: Option<string>)
    requires role.Some? ==> Text.Trim(role.value) == role.value
    ensures RolePasses(u, role) == AdminService.MatchesRole(u, AdminService.NormalizedRole(role))
  {
    if role.Some? && !Text.IsBlank(role.value) {
      AdminService.RoleFilterIgnoresCase(u, role.value);
    }
  }

  /** For a query and a role without surrounding whitespace, the controller
      lists the same users as `AdminService.getUsers` given the same list;
      only the admin service trims the query and the role. */
  lemma AgreesWithAdminService(users: seq<User>, query: Option<string>, role: Option<string>)
    requires query.Some? ==> Text.Trim(query.value) == query.value
    requires role.Some? ==> Text.Trim(role.value) == role.value
    ensures Filtered(users, query, role) == AdminService.Matching(users, query, role)
  {
    var q := AdminService.NormalizedQuery(query);
    var n := AdminService.NormalizedRole(role);
    Seqs.FilterFilter(u => AdminService.MatchesRole(u, n), u => AdminService.MatchesQuery(u, q),
      u => AdminService.MatchesRole(u, n) && AdminService.MatchesQuery(u, q), users);
    forall u | u in users
      ensures (QueryPasses(u, query) && RolePasses(u, role)) == (AdminService.MatchesRole(u, n) && AdminService.MatchesQuery(u, q))
    {
      SameQueryVerdict(u, query);
      SameRoleVerdict(u, role);
    }
    Seqs.FilterAgreeing(u => QueryPasses(u, query) && RolePasses(u, role),
      u => AdminService.MatchesRole(u, n) && AdminService.MatchesQuery(u, q), users);
  }
}
