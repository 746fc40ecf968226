/** The Spring Data repositories whose rows the core services rewrite.
    Each holds its table as a map from key to record; `save` overwrites the
    record under its key. Queries the services only read are passed to them
    as sequences instead. */
module Repositories {
  import opened Wrappers
  import opened Entities

  /** The `users` table (with the `user_achievements` join table inside each user). */
  class UserRepository {
    var users: map<Uuid, User>

    /** Every user is stored under its own id. */
    ghost predicate Valid()
      reads this
    {
      forall id | id in users :: users[id].id == id
    }

    constructor (initial: map<Uuid, User>)
      requires forall id | id in initial :: initial[id].id == id
      ensures Valid() && users == initial
    {
      users := initial;
    }

    /** `findById(id)`, empty when there is no such user. */
    function FindById(id: Uuid): (r: Option<User>)
      reads this
      ensures r.Some? <==> id in users
      ensures r.Some? ==> r.value == users[id]
    {
      if id in users then Some(users[id]) else None
    }

    /** `save(user)`. */
    method Save(u: User)
      requires Valid()
      modifies this
      ensures Valid()
      ensures users == old(users)[u.id := u]
    {
      users := users[u.id := u];
    }
  }

  /** The `progress` table, keyed by its unique (user_id, test_id) constraint. */
  class ProgressRepository {
    var records: map<(Uuid, Uuid), Progress>

    /** Every record is stored under its own (user, test) pair. */
    ghost predicate Valid()
      reads this
    {
      forall k | k in records :: records[k].userId == k.0 && records[k].testId == k.1
    }

    constructor (initial: map<(Uuid, Uuid), Progress>)
      requires forall k | k in initial :: initial[k].userId == k.0 && initial[k].testId == k.1
      ensures Valid() && records == initial
    {
      records := initial;
    }

    /** `findByUserIdAndTestId(userId, testId)`. */
    function FindByUserIdAndTestId(userId: Uuid, testId: Uuid): (r: Option<Progress>)
      reads this
      ensures r.Some? <==> (userId, testId) in records
      ensures r.Some? ==> r.value == records[(userId, testId)]
    {
      if (userId, testId) in records then Some(records[(userId, testId)]) else None
    }

    /** `countByUserId(userId)`: the number of tests the user has completed. */
    function CountByUserId(userId: Uuid): (n: nat)
      reads this
    {
      |set k | k in records && k.0 == userId|
    }

    /** `save(progress)`. */
    method Save(p: Progress)
      requires Valid()
      modifies this
      ensures Valid()
      ensures records == old(records)[(p.userId, p.testId) := p]
    {
      records := records[(p.userId, p.testId) := p];
    }
  }

  /** The `tests` table together with its `questions` and `answers` rows.
      `nextId` stands in for `UUID.randomUUID()`: every row created takes
      the next number, rendered as a string, as its id. */
  class TestRepository {
    var tests: map<Uuid, Test>
    var nextId: nat

    /** Every test is stored under its own id, and no id the counter has
        yet to mint is taken. */
    ghost predicate Valid()
      reads this
    {
      && (forall id | id in tests :: tests[id].id == id)
      && (forall n: nat :: n >= nextId ==> MintId(n) !in tests)
    }

    constructor (initial: map<Uuid, Test>, firstFreshId: nat)
      requires forall id | id in initial :: initial[id].id == id
      requires forall n: nat :: n >= firstFreshId ==> MintId(n) !in initial
      ensures Valid() && tests == initial && nextId == firstFreshId
    {
      tests := initial;
      nextId := firstFreshId;
    }

    /** `findById(id)` / `findByIdWithQuestions(id)`. */
    function FindById(id: Uuid): (r: Option<Test>)
      reads this
      ensures r.Some? <==> id in tests
      ensures r.Some? ==> r.value == tests[id]
    {
      if id in tests then Some(tests[id]) else None
    }
  }

  /** The decimal digits of `n`. */
  function Digits(n: nat): (s: string)
    ensures |s| >= 1
    ensures forall i :: 0 <= i < |s| ==> '0' <= s[i] <= '9'
  {
    var d := ['0' + (n % 10) as char];
    if n < 10 then d else Digits(n / 10) + d
  }

  /** The number a string of decimal digits denotes. */
  function DigitsValue(s: string): int {
    if s == [] then 0 else DigitsValue(s[..|s| - 1]) * 10 + (s[|s| - 1] as int - '0' as int)
  }

  /** `Digits` loses nothing: the number can be read back. */
  lemma {:induction false} DigitsRoundTrip(n: nat)
    ensures DigitsValue(Digits(n)) == n
    decreases n
  {
    var d := ['0' + (n % 10) as char];
    if n >= 10 {
      DigitsRoundTrip(n / 10);
      assert Digits(n)[..|Digits(n)| - 1] == Digits(n / 10);
    } else {
      assert Digits(n)[..|Digits(n)| - 1] == [];
    }
  }

  /** The id minted from counter value `n`. */
  function MintId(n: nat): Uuid {
    "id-" + Digits(n)
  }

  /** Different counter values mint different ids. */
  lemma MintIdInjective(n: nat, m: nat)
    requires MintId(n) == MintId(m)
    ensures n == m
  {
    assert Digits(n) == MintId(n)[3..];
    assert Digits(m) == MintId(m)[3..];
    DigitsRoundTrip(n);
    DigitsRoundTrip(m);
  }
}
