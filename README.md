# Blog backend CRUD layer, modelled in Dafny

This project models the post and user handlers of a small FastAPI blogging
backend (`main.py`) and the two tables they run over (`models.py`).

- `wrappers.dfy` (module `Wrappers`): `Option`, for nullable columns and
  omitted request fields.
- `models.dfy` (module `Models`): the role enumeration `Role` with its string
  forms `"admin"` and `"user"`, the row types `UserRow` and `PostRow`, the
  declared column widths, and the schema predicates. `Integrity` covers primary
  keys, NOT NULL on email and role, UNIQUE email and the post-to-user foreign
  key. `WithinBounds` covers the declared string lengths. `SchemaValid` is both.
- `api.dfy` (module `Api`): the request bodies `PostBase`, `UserBase` and
  `PostUpdate`, the errors `NotFound` (404) and `BadRequest` (400), and the
  class `Store`. `Store` holds the committed database state: a `users` map and
  a `posts` map keyed by id, plus one id generator per table. It has one method
  per handler.

Each handler runs in its own database session. It makes its changes durable
only at `db.commit()`. The session dependency closes the session without
committing (main.py:30-35), so a handler that raises before its commit leaves
the database as it found it. The methods prepare the new row in a local
variable and write it to the store's fields in one assignment, which stands
for the commit. So in `UpdatePost`, the title and content assigned before the
owner check are dropped when that check answers 400.

`Store.Valid()` is what every handler maintains: rows are stored under their
own ids, each id generator is above every id in use, and every post's owner
exists. The owner clause holds because `create_post` and `update_post` check
that the user exists before storing the owner (main.py:52-54, 115-118) and no
handler deletes a user; it does not depend on the database engine enforcing
the foreign key, which some engines do not do by default. `Valid()` leaves out
the NOT NULL and UNIQUE constraints; the full schema (`Models.Integrity`,
`Models.SchemaValid`) is a separate matter. `create_user`
inserts a row holding only a username (main.py:78), while the email and role
columns are declared NOT NULL (models.py:20-21). The model follows the handler:
the new row's email and role are `None`, and `Store.CreateUser` states that the
store afterwards does NOT satisfy `Integrity`. Every other handler preserves
`Integrity`. They preserve `SchemaValid` when the strings they store fit the
declared widths. `main.py` never checks those widths.

## Model

| member | source | states |
|---|---|---|
| `Models.ParseRole` | models.py:7-10 | a string is a role exactly when it is the string form of one; the role it reads has that string form, so string to role to string gives the input back |
| `Models.RoleRoundTrip` | models.py:7-10 | role to string to role gives back the role |
| `Models.RoleNameInjective` | models.py:7-10 | the two roles have distinct string forms |
| `Models.UserIdsUnique` | models.py:17 | in a table keyed by its primary key, two user rows with the same id are the same entry |
| `Models.PostIdsUnique` | models.py:30 | in a table keyed by its primary key, two post rows with the same id are the same entry |
| `Api.ApplyUpdateFields` | main.py:109-119 | a partial update keeps every field given as absent, replaces every supplied field, and never changes the id |
| `Api.ApplyUpdateIdempotent` | main.py:109-119 | applying the same partial update twice gives the same row as applying it once |
| `Api.NewUserRowLacksRequiredFields` | main.py:78 | the row user creation inserts never has the email and role that the schema requires |
| `Api.TableRows` | main.py:128 | a whole-table query yields every row exactly once, each with the key it is stored under, in no promised order |
| `Api.Store.constructor` | main.py:10 | a freshly created database is empty, valid and satisfies the schema |
| `Api.Store.DeletePost` | main.py:41-47 | an absent id answers 404 and changes nothing; otherwise exactly that post is removed, every other post and every user keeps its value, and the schema is preserved |
| `Api.Store.CreatePost` | main.py:50-64 | an owner that does not exist answers 400 and adds no post; otherwise exactly one post is added, with an id no existing post has and the given title, content and owner, and the answered row is the stored one; users are unchanged and integrity is preserved |
| `Api.Store.ReadPost` | main.py:68-73 | answers the post stored under the id, or 404 exactly when there is none; the store is not modified |
| `Api.Store.CreateUser` | main.py:76-80 | adds exactly one user under a fresh id carrying only the given username; posts are unchanged; the resulting store violates the NOT NULL email and role constraints |
| `Api.Store.ReadUser` | main.py:83-88 | answers the user stored under the id, or 404 exactly when there is none; the store is not modified |
| `Api.Store.UpdateUser` | main.py:91-101 | an absent id answers 404 and changes nothing; otherwise only that user's username changes and the answered row is the stored one; posts and other users are unchanged and integrity is preserved |
| `Api.Store.UpdatePost` | main.py:103-123 | an absent id answers 404; a supplied owner that does not exist answers 400 and leaves the post entirely unchanged, including title and content assigned earlier; otherwise the stored post is the partial update of the old one, keeps its id, and is a fixed point of the same update; users unchanged, integrity preserved |
| `Api.UpdatePostIdempotent` | main.py:103-123 | sending the same update request twice answers the same both times and leaves the same store as sending it once |
| `Api.Store.GetAllPosts` | main.py:126-129 | answers every stored post exactly once, each equal to the stored row, in no promised order; the store is not modified |
| `Api.Store.GetAllUsers` | main.py:131-134 | answers every stored user exactly once, each equal to the stored row, in no promised order; the store is not modified |

## Left out

- Authentication and authorization (password hashing, session tokens, role and ownership checks): `main.py` as modelled has none of them. `create_admin.py` imports `hash_password` and `generate_email` from `main`, but `main.py` does not define them, so they are not part of this model.
- Enforcement of the declared string widths: it depends on the database engine, and `main.py` checks no length. The widths appear only in `Models.WithinBounds` and in the conditional `SchemaValid` clauses.
- Concurrency: each request is modelled as one atomic step on the committed state. With concurrent workers, the re-read after commit (main.py:100, 122) can return a row another request committed in between, so the answer may differ from the update applied to the old row.
- Order of list results: the queries have no ORDER BY, so the model promises none.
- Id allocation: the database's key generator is modelled as a counter kept above every id in use. The engine's actual strategy and the 32-bit width of the integer columns are not modelled; ids are unbounded integers.
- Database errors on commit: an insert that the real database would reject (such as the user row without the NOT NULL email) is modelled as succeeding, following the handler as written.
- Engine and session creation, environment lookup and table creation (`database.py`, `init_db.py`), logging setup (`test_logging.py`), secret generation (`generate_key.py`), the admin bootstrap script (`create_admin.py`) and the browser code under `frontend/`: I/O, configuration, randomness and UI.
- JSON serialisation of responses and the success status codes 200 and 201: the model answers the row itself or `Ok(())`.
