/**
 * Accounts and subscriptions: the `User` model (unique username and e-mail,
 * a role that is either admin or user and defaults to user) and the
 * `UserFollowing` model (at most one edge per subscriber and author).
 *
 * `RoleRoundTrip`, `NewUser` and `UserList` are stated for their own sake:
 * they record the role choices, the role default and the `username` ordering,
 * and no other member builds on them.
 */
module Users {
  import opened Common

  type UserId = nat

  datatype Role = AdminRole | UserRole

  /** The value stored in the `role` column. */
  function RoleName(r: Role): string
  {
    match r
    case AdminRole => "admin"
    case UserRole => "user"
  }

  /** A `role` column value read back against ROLE_CHOICES. */
  function ParseRole(s: string): (r: Option<Role>)
    ensures r.Some? <==> s == "admin" || s == "user"
  {
    if s == "admin" then Some(AdminRole) else if s == "user" then Some(UserRole) else None
  }

  /** Every role is stored as one of the two choices and reads back as itself. */
  lemma RoleRoundTrip(r: Role)
    ensures RoleName(r) == "admin" || RoleName(r) == "user"
    ensures ParseRole(RoleName(r)) == Some(r)
  {
  }

  const UsernameMaxLength: nat := 150
  const EmailMaxLength: nat := 254
  const PersonNameMaxLength: nat := 150

  datatype User = User(id: UserId, username: string, email: string, role: Role,
                       firstName: string, lastName: string)

  function UserIdOf(u: User): UserId { u.id }
  function Username(u: User): string { u.username }
  function Email(u: User): string { u.email }

  predicate UserRowValid(u: User)
  {
    && |u.username| <= UsernameMaxLength
    && |u.email| <= EmailMaxLength
    && |u.firstName| <= PersonNameMaxLength
    && |u.lastName| <= PersonNameMaxLength
  }

  /** The invariants the `User` table keeps: field lengths, unique id, username and e-mail. */
  ghost predicate UsersValid(users: seq<User>)
  {
    && (forall u :: u in users ==> UserRowValid(u))
    && UniqueBy(users, UserIdOf)
    && UniqueBy(users, Username)
    && UniqueBy(users, Email)
  }

  function UserIds(users: seq<User>): set<UserId>
  {
    set u | u in users :: u.id
  }

  /** A freshly registered user: the role column takes its default. */
  function NewUser(id: UserId, username: string, email: string, firstName: string, lastName: string): (u: User)
    ensures RoleName(u.role) == "user"
    ensures u.id == id && u.username == username && u.email == email
    ensures u.firstName == firstName && u.lastName == lastName
  {
    User(id, username, email, UserRole, firstName, lastName)
  }

  /** Users as the default manager lists them: `ordering = ('username',)`. */
  function UserList(users: seq<User>): (r: seq<User>)
    ensures SortedBy(r, Username)
    ensures multiset(r) == multiset(users)
  {
    SortBy(users, Username)
  }

  // ---------------------------------------------------------------------
  // UserFollowing

  datatype Follow = Follow(id: nat, user: UserId, author: UserId)

  function FollowIdOf(f: Follow): int { f.id }
  function FollowKey(f: Follow): (UserId, UserId) { (f.user, f.author) }

  /** The invariants of the `UserFollowing` table over the existing users. */
  ghost predicate FollowsValid(follows: seq<Follow>, userIds: set<UserId>)
  {
    && UniqueBy(follows, FollowKey)
    && AscendingBy(follows, FollowIdOf)
    && (forall f :: f in follows ==> f.user in userIds && f.author in userIds)
  }

  /** `user` follows `author`. */
  predicate Follows(follows: seq<Follow>, user: UserId, author: UserId)
  {
    exists f :: f in follows && f.user == user && f.author == author
  }

  function SubscriberIs(user: UserId): Follow -> bool
  {
    (f: Follow) => f.user == user
  }

  function TouchesNone(uids: set<UserId>): Follow -> bool
  {
    (f: Follow) => f.user !in uids && f.author !in uids
  }

  /** The subscriptions of `user`, as listed with `ordering = ('-id',)`. */
  function Subscriptions(follows: seq<Follow>, user: UserId): seq<Follow>
  {
    Reverse(Filter(SubscriberIs(user), follows))
  }

  /** Subscriptions are exactly the user's edges, newest first. */
  lemma SubscriptionsNewestFirst(follows: seq<Follow>, userIds: set<UserId>, user: UserId)
    requires FollowsValid(follows, userIds)
    ensures DescendingBy(Subscriptions(follows, user), FollowIdOf)
    ensures forall f :: f in Subscriptions(follows, user) <==> f in follows && f.user == user
  {
    var mine := Filter(SubscriberIs(user), follows);
    FilterKeepsAscending(SubscriberIs(user), follows, FollowIdOf);
    ReverseOfAscendingIsDescending(mine, FollowIdOf);
    forall f ensures f in Subscriptions(follows, user) <==> f in mine {
      assert f in multiset(Reverse(mine)) <==> f in multiset(mine);
    }
  }

  /** Cascade of deleting users on the follow table: edges with a deleted user on either side go. */
  function DropFollowsOf(follows: seq<Follow>, uids: set<UserId>): seq<Follow>
  {
    Filter(TouchesNone(uids), follows)
  }

  lemma DropFollowsOfValid(follows: seq<Follow>, userIds: set<UserId>, uids: set<UserId>)
    requires FollowsValid(follows, userIds)
    ensures FollowsValid(DropFollowsOf(follows, uids), userIds - uids)
    ensures forall f :: f in DropFollowsOf(follows, uids) <==> f in follows && f.user !in uids && f.author !in uids
  {
    FilterKeepsUnique(TouchesNone(uids), follows, FollowKey);
    FilterKeepsAscending(TouchesNone(uids), follows, FollowIdOf);
  }

  function UserKept(uids: set<UserId>): User -> bool
  {
    (u: User) => u.id !in uids
  }

  /** Removing users keeps the table's invariants, and their ids leave the id set. */
  lemma DropUsersValid(users: seq<User>, uids: set<UserId>)
    requires UsersValid(users)
    ensures UsersValid(Filter(UserKept(uids), users))
    ensures UserIds(Filter(UserKept(uids), users)) == UserIds(users) - uids
  {
    var kept := Filter(UserKept(uids), users);
    FilterKeepsUnique(UserKept(uids), users, UserIdOf);
    FilterKeepsUnique(UserKept(uids), users, Username);
    FilterKeepsUnique(UserKept(uids), users, Email);
    forall id | id in UserIds(users) - uids ensures id in UserIds(kept) {
      var u :| u in users && u.id == id;
      assert u in kept;
    }
  }
}
