/**
 * The two tables of the blogging backend and the constraints their column
 * declarations impose: primary keys, NOT NULL, UNIQUE, the foreign key from
 * a post to its owner, and the declared string lengths.
 */
module Models {
  import opened Wrappers

  /** The role enumeration, backed by its two string values. */
  datatype Role = Admin | User

  /** The string form stored for a role. */
  function RoleName(r: Role): string
  {
    match r
    case Admin => "admin"
    case User => "user"
  }

  /** Reads a role from its string form; every other string is rejected. */
  function ParseRole(s: string): (r: Option<Role>)
    ensures r.None? <==> forall role: Role :: RoleName(role) != s
    ensures r.Some? ==> RoleName(r.value) == s
  {
    if s == "admin" then
      assert RoleName(Admin) == s;
      Some(Admin)
    else if s == "user" then
      assert RoleName(User) == s;
      Some(User)
    else
      None
  }

  /** Role to string to role gives back the role. */
  lemma RoleRoundTrip(r: Role)
    ensures ParseRole(RoleName(r)) == Some(r)
  {
  }

  /** Distinct roles have distinct string forms. */
  lemma RoleNameInjective(a: Role, b: Role)
    ensures RoleName(a) == RoleName(b) ==> a == b
  {
    RoleRoundTrip(a);
    RoleRoundTrip(b);
  }

  /** A row of the users table. `email` and `role` are optional here because
      the handlers can insert rows without them; the schema predicates below
      say when they are present. */
  datatype UserRow = UserRow(
    id: int,
    username: string,
    passwordHash: Option<string>,
    email: Option<string>,
    role: Option<Role>)

  /** A row of the posts table. */
  datatype PostRow = PostRow(id: int, title: string, content: string, userId: int)

  /** Declared column widths. */
  const UsernameMax: nat := 50
  const PasswordHashMax: nat := 100
  const EmailMax: nat := 100
  const TitleMax: nat := 50
  const ContentMax: nat := 255

  /** Primary key: every user row is stored under its own id. */
  predicate UsersKeyedById(users: map<int, UserRow>)
  {
    forall k :: k in users ==> users[k].id == k
  }

  /** Primary key: every post row is stored under its own id. */
  predicate PostsKeyedById(posts: map<int, PostRow>)
  {
    forall k :: k in posts ==> posts[k].id == k
  }

  /** NOT NULL on the user's email and role. */
  predicate UserRequiredPresent(u: UserRow)
  {
    u.email.Some? && u.role.Some?
  }

  /** UNIQUE on email: no two user rows share a (non-null) email. */
  predicate EmailsUnique(users: map<int, UserRow>)
  {
    forall j, k :: j in users && k in users && users[j].email.Some? && users[j].email == users[k].email ==> j == k
  }

  /** The foreign key from a post to users.id. */
  predicate OwnersExist(users: map<int, UserRow>, posts: map<int, PostRow>)
  {
    forall k :: k in posts ==> posts[k].userId in users
  }

  /** Every key, NOT NULL, UNIQUE and foreign-key constraint of both tables. */
  predicate Integrity(users: map<int, UserRow>, posts: map<int, PostRow>)
  {
    && UsersKeyedById(users)
    && PostsKeyedById(posts)
    && (forall k :: k in users ==> UserRequiredPresent(users[k]))
    && EmailsUnique(users)
    && OwnersExist(users, posts)
  }

  /** The declared string lengths of a user row. */
  predicate UserWithinBounds(u: UserRow)
  {
    && |u.username| <= UsernameMax
    && (u.passwordHash.Some? ==> |u.passwordHash.value| <= PasswordHashMax)
    && (u.email.Some? ==> |u.email.value| <= EmailMax)
  }

  /** The declared string lengths of a post row. */
  predicate PostWithinBounds(p: PostRow)
  {
    |p.title| <= TitleMax && |p.content| <= ContentMax
  }

  predicate WithinBounds(users: map<int, UserRow>, posts: map<int, PostRow>)
  {
    && (forall k :: k in users ==> UserWithinBounds(users[k]))
    && (forall k :: k in posts ==> PostWithinBounds(posts[k]))
  }

  /** Everything the two table declarations demand of the stored rows. */
  predicate SchemaValid(users: map<int, UserRow>, posts: map<int, PostRow>)
  {
    Integrity(users, posts) && WithinBounds(users, posts)
  }

  /** Ids are unique within the users table: two stored rows with the same id
      are stored under the same key. */
  lemma UserIdsUnique(users: map<int, UserRow>, j: int, k: int)
    requires UsersKeyedById(users)
    requires j in users && k in users
    ensures users[j].id == users[k].id ==> j == k
  {
  }

  /** Ids are unique within the posts table. */
  lemma PostIdsUnique(posts: map<int, PostRow>, j: int, k: int)
    requires PostsKeyedById(posts)
    requires j in posts && k in posts
    ensures posts[j].id == posts[k].id ==> j == k
  {
  }
}
