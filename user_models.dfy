/** The custom user model and the subscription (Follow) model with their
    database constraints. */
module UserModels {
  import opened Wrappers
  import UserValidators

  type UserId = nat

  /** `USER_ROLE` choices of the `role` field. */
  datatype Role = UserRole | AdminRole

  /** The stored value of each choice. */
  function RoleValue(role: Role): string {
    match role
    case UserRole => "user"
    case AdminRole => "admin"
  }

  /** A value is accepted for `role` exactly when it is one of the choices. */
  function RoleFromValue(value: string): (r: Option<Role>)
    ensures r.Some? <==> value == "user" || value == "admin"
    ensures r.Some? ==> RoleValue(r.value) == value
  {
    if value == "user" then Some(UserRole)
    else if value == "admin" then Some(AdminRole)
    else None
  }

  /** The default of `role`. */
  const DEFAULT_ROLE: Role := UserRole

  lemma RoleRoundTrip(role: Role)
    ensures RoleFromValue(RoleValue(role)) == Some(role)
    ensures RoleValue(DEFAULT_ROLE) == "user"
  {
  }

  datatype User = User(id: UserId, username: string, email: string, firstName: string,
                       lastName: string, role: Role)

  /** `__str__` of a user. */
  function UserStr(u: User): string {
    u.username
  }

  /** The user table: usernames unique and valid, e-mail addresses unique
      (which also makes every (username, email) pair unique). */
  predicate UsersValid(users: map<UserId, User>) {
    && (forall u :: u in users ==> users[u].id == u && UserValidators.IsValidUsername(users[u].username))
    && (forall a, b :: a in users && b in users && a != b ==>
          users[a].username != users[b].username && users[a].email != users[b].email)
  }

  /** In a valid user table a user's string, its e-mail address, and its
      (username, email) pair each identify it. */
  lemma UserIdentifiedByStrOrEmail(users: map<UserId, User>, a: UserId, b: UserId)
    requires UsersValid(users) && a in users && b in users
    ensures UserStr(users[a]) == UserStr(users[b]) ==> a == b
    ensures users[a].email == users[b].email ==> a == b
    ensures UserValidators.IsValidUsername(UserStr(users[a]))
  {
  }

  /** A subscription of `user` to `author`. */
  datatype Follow = Follow(user: UserId, author: UserId)

  /** The subscription table: both ends exist, nobody follows themselves and
      each (user, author) pair occurs at most once. */
  predicate FollowsValid(follows: seq<Follow>, userIds: set<UserId>) {
    && (forall f :: f in follows ==> f.user in userIds && f.author in userIds && f.user != f.author)
    && (forall f :: f in follows ==> multiset(follows)[f] == 1)
  }

  /** In a valid subscription table no pair repeats and nobody follows
      themselves. */
  lemma FollowConstraints(follows: seq<Follow>, userIds: set<UserId>, i: nat, j: nat)
    requires FollowsValid(follows, userIds) && i < |follows| && j < |follows|
    ensures follows[i].user != follows[i].author
    ensures follows[i] == follows[j] ==> i == j
  {
    if i != j {
      RepeatedCount(follows, i, j);
    }
  }

  /** Two equal entries at distinct positions count twice. */
  lemma RepeatedCount<T>(s: seq<T>, i: nat, j: nat)
    requires i < |s| && j < |s| && i != j
    ensures s[i] == s[j] ==> multiset(s)[s[i]] >= 2
  {
    if s[i] == s[j] {
      var lo, hi := if i < j then i else j, if i < j then j else i;
      assert s == s[..lo] + [s[lo]] + s[lo + 1..hi] + [s[hi]] + s[hi + 1..];
    }
  }
}
