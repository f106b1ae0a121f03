/**
 * The post and user handlers of the HTTP application, run against an
 * in-memory model of the committed database state.
 *
 * Each handler opens a session, reads rows, prepares changes and makes them
 * durable only at its commit. A handler that fails before its commit has
 * its session closed without committing, so the committed state is left as
 * it was. In the methods below, the committed state is the fields of
 * `Store`; changes are prepared in local variables and written to the
 * fields in one assignment, which is the commit.
 */
module Api {
  import opened Wrappers
  import opened Models

  /** Request body for creating a post. */
  datatype PostBase = PostBase(title: string, content: string, userId: int)

  /** Request body for creating or renaming a user. */
  datatype UserBase = UserBase(username: string)

  /** Request body for a partial post update: an absent field is not changed. */
  datatype PostUpdate = PostUpdate(title: Option<string>, content: Option<string>, userId: Option<int>)

  /** The HTTP errors the handlers raise. */
  datatype HttpError = NotFound | BadRequest {
    /** The HTTP status code the error is answered with. */
    function StatusCode(): int
    {
      match this
      case NotFound => 404
      case BadRequest => 400
    }
  }

  /** What a handler answers: a value with a success status, or an error. */
  datatype Response<T> = Ok(value: T) | Err(error: HttpError)

  /** The row a successful post creation inserts under `id`. */
  function NewPostRow(id: int, post: PostBase): (p: PostRow)
  {
    PostRow(id, post.title, post.content, post.userId)
  }

  /** The row user creation inserts under `id`: only the username is set. */
  function NewUserRow(id: int, user: UserBase): (u: UserRow)
  {
    UserRow(id, user.username, None, None, None)
  }

  /** The row after the field assignments of a partial update. */
  function ApplyUpdate(p: PostRow, u: PostUpdate): (q: PostRow)
  {
    PostRow(p.id, u.title.GetOr(p.title), u.content.GetOr(p.content), u.userId.GetOr(p.userId))
  }

  /** A partial update changes exactly the fields it supplies, and never the id. */
  lemma ApplyUpdateFields(p: PostRow, u: PostUpdate)
    ensures ApplyUpdate(p, u).id == p.id
    ensures ApplyUpdate(p, u).title == if u.title.None? then p.title else u.title.value
    ensures ApplyUpdate(p, u).content == if u.content.None? then p.content else u.content.value
    ensures ApplyUpdate(p, u).userId == if u.userId.None? then p.userId else u.userId.value
  {
  }

  /** Applying the same update twice gives the same row as applying it once. */
  lemma ApplyUpdateIdempotent(p: PostRow, u: PostUpdate)
    ensures ApplyUpdate(ApplyUpdate(p, u), u) == ApplyUpdate(p, u)
  {
  }

  /** The user row that creation inserts never satisfies the NOT NULL
      constraints on email and role. */
  lemma NewUserRowLacksRequiredFields(id: int, user: UserBase)
    ensures !UserRequiredPresent(NewUserRow(id, user))
  {
  }

  /** A non-empty set of keys has a member to pick. */
  lemma NonEmptyHasMember(s: set<int>)
    requires s != {}
    ensures exists k :: k in s
  {
    if forall k :: k !in s {
      // then s would be the empty set
      assert false;
    }
  }

  /**
   * The rows of a table, one per key, in no promised order: what a query
   * without ORDER BY fetches. `keys[i]` is the key `rows[i]` is stored
   * under.
   */
  method TableRows<T>(table: map<int, T>) returns (keys: seq<int>, rows: seq<T>)
    ensures |keys| == |rows|
    ensures forall i :: 0 <= i < |keys| ==> keys[i] in table && rows[i] == table[keys[i]]
    ensures forall k :: k in table ==> k in keys
    ensures forall i, j :: 0 <= i < j < |keys| ==> keys[i] != keys[j]
  {
    keys, rows := [], [];
    var pending := table.Keys;
    while pending != {}
      invariant pending <= table.Keys
      invariant |keys| == |rows|
      invariant forall i :: 0 <= i < |keys| ==> keys[i] in table && keys[i] !in pending && rows[i] == table[keys[i]]
      invariant forall k :: k in table && k !in pending ==> k in keys
      invariant forall i, j :: 0 <= i < j < |keys| ==> keys[i] != keys[j]
      decreases pending
    {
      NonEmptyHasMember(pending);
      var k :| k in pending;
      keys, rows := keys + [k], rows + [table[k]];
      pending := pending - {k};
    }
  }

  /** The committed state of the database the handlers run against. */
  class Store {
    var users: map<int, UserRow>
    var posts: map<int, PostRow>
    /** The id the database will assign to the next inserted user. */
    var nextUserId: int
    /** The id the database will assign to the next inserted post. */
    var nextPostId: int

    /** What every handler maintains: rows are stored under their primary
        keys, the key generators are above every key in use, and every
        post's owner exists. The owner clause holds because post creation
        and the owner change in a post update both check that the user
        exists (main.py:52-54, 115-118) and no handler deletes a user; it
        does not rely on the engine enforcing the foreign key. */
    ghost predicate Valid()
      reads this
    {
      && UsersKeyedById(users)
      && PostsKeyedById(posts)
      && OwnersExist(users, posts)
      && (forall k :: k in users ==> k < nextUserId)
      && (forall k :: k in posts ==> k < nextPostId)
    }

    /** A freshly created, empty database. */
    constructor ()
      ensures Valid() && SchemaValid(users, posts)
      ensures users == map[] && posts == map[]
    {
      users, posts := map[], map[];
      nextUserId, nextPostId := 1, 1;
    }

    /** DELETE /posts/{post_id}. */
    method DeletePost(postId: int) returns (r: Response<()>)
      requires Valid()
      modifies this
      ensures Valid()
      ensures r.Ok? <==> postId in old(posts)
      ensures r.Err? ==> r.error == NotFound && r.error.StatusCode() == 404 && posts == old(posts)
      ensures r.Ok? ==> posts.Keys == old(posts).Keys - {postId}
      ensures forall k :: k in posts ==> k in old(posts) && posts[k] == old(posts)[k]
      ensures users == old(users) && nextUserId == old(nextUserId) && nextPostId == old(nextPostId)
      ensures old(SchemaValid(users, posts)) ==> SchemaValid(users, posts)
    {
      if postId !in posts {
        return Err(NotFound);
      }
      posts := posts - {postId};
      return Ok(());
    }

    /** POST /posts/. */
    method CreatePost(post: PostBase) returns (r: Response<PostRow>)
      requires Valid()
      modifies this
      ensures Valid()
      ensures r.Ok? <==> post.userId in old(users)
      ensures r.Err? ==> r.error == BadRequest && r.error.StatusCode() == 400 && posts == old(posts) && nextPostId == old(nextPostId)
      ensures r.Ok? ==>
        && r.value.id !in old(posts)
        && (forall k :: k in old(posts) ==> old(posts)[k].id != r.value.id)
        && r.value.title == post.title && r.value.content == post.content && r.value.userId == post.userId
        && posts == old(posts)[r.value.id := r.value]
        && nextPostId > r.value.id
      ensures users == old(users) && nextUserId == old(nextUserId)
      ensures old(Integrity(users, posts)) ==> Integrity(users, posts)
      ensures old(SchemaValid(users, posts)) && PostWithinBounds(NewPostRow(0, post)) ==> SchemaValid(users, posts)
    {
      if post.userId !in users {
        return Err(BadRequest);
      }
      var row := NewPostRow(nextPostId, post);
      posts, nextPostId := posts[row.id := row], nextPostId + 1;
      return Ok(row);
    }

    /** GET /posts/{post_id}. */
    method ReadPost(postId: int) returns (r: Response<PostRow>)
      ensures r.Ok? <==> postId in posts
      ensures r.Ok? ==> r.value == posts[postId]
      ensures r.Err? ==> r.error == NotFound && r.error.StatusCode() == 404
    {
      if postId !in posts {
        return Err(NotFound);
      }
      return Ok(posts[postId]);
    }

    /** POST /users/: inserts a row carrying only the username, with no
        email and no role, and answers nothing. */
    method CreateUser(user: UserBase)
      requires Valid()
      modifies this
      ensures Valid()
      ensures old(nextUserId) !in old(users)
      ensures forall k :: k in old(users) ==> old(users)[k].id != old(nextUserId)
      ensures users == old(users)[old(nextUserId) := NewUserRow(old(nextUserId), user)]
      ensures nextUserId > old(nextUserId)
      ensures posts == old(posts) && nextPostId == old(nextPostId)
      ensures !Integrity(users, posts)
    {
      var id := nextUserId;
      users, nextUserId := users[id := NewUserRow(id, user)], nextUserId + 1;
      NewUserRowLacksRequiredFields(id, user);
      assert id in users && !UserRequiredPresent(users[id]);
    }

    /** GET /users/{user_id}. */
    method ReadUser(userId: int) returns (r: Response<UserRow>)
      ensures r.Ok? <==> userId in users
      ensures r.Ok? ==> r.value == users[userId]
      ensures r.Err? ==> r.error == NotFound && r.error.StatusCode() == 404
    {
      if userId !in users {
        return Err(NotFound);
      }
      return Ok(users[userId]);
    }

    /** PUT /users/{user_id}: renames the user. */
    method UpdateUser(userId: int, updated: UserBase) returns (r: Response<UserRow>)
      requires Valid()
      modifies this
      ensures Valid()
      ensures r.Ok? <==> userId in old(users)
      ensures r.Err? ==> r.error == NotFound && r.error.StatusCode() == 404 && users == old(users)
      ensures r.Ok? ==>
        && r.value == old(users)[userId].(username := updated.username)
        && users == old(users)[userId := r.value]
      ensures posts == old(posts) && nextUserId == old(nextUserId) && nextPostId == old(nextPostId)
      ensures old(Integrity(users, posts)) ==> Integrity(users, posts)
      ensures old(SchemaValid(users, posts)) && |updated.username| <= UsernameMax ==> SchemaValid(users, posts)
    {
      if userId !in users {
        return Err(NotFound);
      }
      var row := users[userId];
      row := row.(username := updated.username);
      users := users[userId := row];
      assert forall k :: k in users ==> users[k].email == old(users)[k].email;
      return Ok(row);
    }

    /** PUT /posts/{post_id}: a partial update. The title and content are
        assigned before the owner is checked; when the owner does not exist
        the handler fails before its commit and none of the assignments is
        kept. */
    method UpdatePost(postId: int, updated: PostUpdate) returns (r: Response<PostRow>)
      requires Valid()
      modifies this
      ensures Valid()
      ensures r.Err? && r.error == NotFound <==> postId !in old(posts)
      ensures r.Err? && r.error == BadRequest <==>
        postId in old(posts) && updated.userId.Some? && updated.userId.value !in old(users)
      ensures r.Err? ==> posts == old(posts) && r.error.StatusCode() == (if postId in old(posts) then 400 else 404)
      ensures r.Ok? ==>
        && r.value == ApplyUpdate(old(posts)[postId], updated)
        && posts == old(posts)[postId := r.value]
        && r.value.id == postId
        && ApplyUpdate(r.value, updated) == r.value
      ensures users == old(users) && nextUserId == old(nextUserId) && nextPostId == old(nextPostId)
      ensures old(Integrity(users, posts)) ==> Integrity(users, posts)
      ensures old(SchemaValid(users, posts)) && r.Ok? && PostWithinBounds(r.value) ==> SchemaValid(users, posts)
    {
      if postId !in posts {
        return Err(NotFound);
      }
      var row := posts[postId];
      if updated.title.Some? {
        row := row.(title := updated.title.value);
      }
      if updated.content.Some? {
        row := row.(content := updated.content.value);
      }
      if updated.userId.Some? {
        if updated.userId.value !in users {
          return Err(BadRequest);
        }
        row := row.(userId := updated.userId.value);
      }
      posts := posts[postId := row];
      ApplyUpdateIdempotent(old(posts)[postId], updated);
      return Ok(row);
    }

    /** GET /posts/: every post, each exactly once, in no promised order. */
    method GetAllPosts() returns (rows: seq<PostRow>)
      requires Valid()
      ensures forall i :: 0 <= i < |rows| ==> rows[i].id in posts && posts[rows[i].id] == rows[i]
      ensures forall k :: k in posts ==> posts[k] in rows
      ensures forall i, j :: 0 <= i < j < |rows| ==> rows[i].id != rows[j].id
    {
      var keys;
      keys, rows := TableRows(posts);
      forall k | k in posts ensures posts[k] in rows {
        var i :| 0 <= i < |keys| && keys[i] == k;
        assert rows[i] == posts[k];
      }
    }

    /** GET /users/: every user, each exactly once, in no promised order. */
    method GetAllUsers() returns (rows: seq<UserRow>)
      requires Valid()
      ensures forall i :: 0 <= i < |rows| ==> rows[i].id in users && users[rows[i].id] == rows[i]
      ensures forall k :: k in users ==> users[k] in rows
      ensures forall i, j :: 0 <= i < j < |rows| ==> rows[i].id != rows[j].id
    {
      var keys;
      keys, rows := TableRows(users);
      forall k | k in users ensures users[k] in rows {
        var i :| 0 <= i < |keys| && keys[i] == k;
        assert rows[i] == users[k];
      }
    }
  }

  /** Sending the same partial update twice leaves the store as sending it
      once: the second request succeeds too and answers the same row. */
  method UpdatePostIdempotent(store: Store, postId: int, updated: PostUpdate)
    returns (first: Response<PostRow>, second: Response<PostRow>)
    requires store.Valid()
    modifies store
    ensures store.Valid()
    ensures first.Ok? ==> second == first && store.posts == old(store.posts)[postId := first.value]
    ensures first.Err? ==> second == first && store.posts == old(store.posts)
    ensures store.users == old(store.users)
  {
    first := store.UpdatePost(postId, updated);
    second := store.UpdatePost(postId, updated);
  }
}
