/** The admin user search of AdminService.kt: the query and the role are
    normalised, then the users (newest first, as the repository returns
    them) are filtered by role and by query and mapped to responses. */
module AdminService {
  import opened Wrappers
  import opened Entities
  import opened Dtos
  import Text
  import Seqs

  /** `query?.trim()?.takeIf { it.isNotEmpty() }`. */
  function NormalizedQuery(query: Option<string>): (q: Option<string>)
    ensures q.None? <==> query.None? || Text.IsBlank(query.value)
    ensures q.Some? ==> q.value == Text.Trim(query.value) && q.value != []
  {
    match query
    case None => None
    case Some(s) => var t := Text.Trim(s); if t == [] then None else Some(t)
  }

  /** `role?.trim()?.uppercase()?.takeIf { it.isNotEmpty() }`. */
  function NormalizedRole(role: Option<string>): (n: Option<string>)
    ensures n.None? <==> role.None? || Text.IsBlank(role.value)
    ensures n.Some? ==> n.value == Text.Upper(Text.Trim(role.value)) && n.value != []
  {
    match role
    case None => None
    case Some(s) => var t := Text.Upper(Text.Trim(s)); if t == [] then None else Some(t)
  }

  /** The role filter: no role, or the user's role equal to it ignoring case. */
  predicate MatchesRole(u: User, role: Option<string>) {
    role.None? || Text.EqualsIgnoreCase(u.role, role.value)
  }

  /** The query filter: no query, or the display name or the e-mail
      containing it ignoring case. */
  predicate MatchesQuery(u: User, query: Option<string>) {
    query.None? || Text.ContainsIgnoreCase(u.displayName, query.value) || Text.ContainsIgnoreCase(u.email, query.value)
  }

  /** The users `getUsers` keeps: the role filter, then the query filter. */
  function Matching(users: seq<User>, query: Option<string>, role: Option<string>): seq<User> {
    var q := NormalizedQuery(query);
    var n := NormalizedRole(role);
    Seqs.Filter(u => MatchesQuery(u, q), Seqs.Filter(u => MatchesRole(u, n), users))
  }

  /** `getUsers(query, role)` over the users in the repository's order. */
  function GetUsers(users: seq<User>, query: Option<string>, role: Option<string>): (r: seq<UserResponse>)
    ensures |r| == |Matching(users, query, role)| <= |users|
    ensures forall i :: 0 <= i < |r| ==> r[i] == UserToResponse(Matching(users, query, role)[i])
  {
    Seqs.MapSeq(UserToResponse, Matching(users, query, role))
  }

  /** The kept users are exactly the users that pass both normalised
      filters, in the order they were listed. */
  lemma MatchingUsers(users: seq<User>, query: Option<string>, role: Option<string>)
    ensures Seqs.IsSubsequence(Matching(users, query, role), users)
    ensures forall u :: u in Matching(users, query, role) <==>
      u in users && MatchesRole(u, NormalizedRole(role)) && MatchesQuery(u, NormalizedQuery(query))
  {
    var q := NormalizedQuery(query);
    var n := NormalizedRole(role);
    Seqs.FilterFilter(u => MatchesRole(u, n), u => MatchesQuery(u, q), u => MatchesRole(u, n) && MatchesQuery(u, q), users);
  }

  /** With a blank query and a blank role, every user is listed. */
  lemma NoFiltersListEveryone(users: seq<User>, query: Option<string>, role: Option<string>)
    requires query.None? || Text.IsBlank(query.value)
    requires role.None? || Text.IsBlank(role.value)
    ensures Matching(users, query, role) == users
  {
    Seqs.FilterKeepsAll(u => MatchesRole(u, NormalizedRole(role)), users);
    Seqs.FilterKeepsAll(u => MatchesQuery(u, NormalizedQuery(query)), users);
  }

  /** Upper-casing one side does not change a case-insensitive comparison. */
  lemma EqualsIgnoreCaseUpper(a: string, b: string)
    ensures Text.EqualsIgnoreCase(a, Text.Upper(b)) <==> Text.EqualsIgnoreCase(a, b)
  {
    var ub := Text.Upper(b);
    if |a| == |b| {
      forall i | 0 <= i < |a|
        ensures Text.CharEqualsIgnoreCase(a[i], ub[i]) <==> Text.CharEqualsIgnoreCase(a[i], b[i])
      {
        assert ub[i] == Text.UpperChar(b[i]);
      }
    }
  }

  /** The role filter compares the user's role with the trimmed role
      ignoring case: upper-casing the requested role changes nothing. */
  lemma RoleFilterIgnoresCase(u: User, role: string)
    requires !Text.IsBlank(role)
    ensures MatchesRole(u, NormalizedRole(Some(role))) <==> Text.EqualsIgnoreCase(u.role, Text.Trim(role))
  {
    EqualsIgnoreCaseUpper(u.role, Text.Trim(role));
  }
}
