# Tiny blogging site: accounts, posts and the admin panel

This project models the request handlers of a small Flask blogging site (`tiny_app.py`). Visitors
register and sign in. Signed-in users write and delete their own text posts. An administrator
account, created at startup, can block or unblock users and reset their passwords.

The database is an in-memory object, `TinyApp.App`. It holds the `user` table and the `post`
table as sequences of rows in table order. Each handler is a method on it:

| handler | method |
|---|---|
| startup seeding | `SeedAdmin` |
| `POST /register` | `Register` |
| `POST /login` | `Login` |
| `POST /dashboard` | `CreatePost` |
| `GET /dashboard` | `ListOwnPosts` |
| `POST /delete_posts` | `DeletePosts` |
| `POST /admin` | `AdminAction` |
| `POST /reset_password` | `ResetPassword` |

Each method says exactly which rows it changes and keeps the database invariant `Valid()`.
That invariant (`Tables.WellFormed`) says:

- keys are positive and increase in table order;
- emails are unique, and so are usernames;
- no administrator is blocked;
- every post has a title, content and an existing author.

Inputs are modelled as follows:

- The signed-in user is an explicit `caller` id, which must name an existing row. The site's
  `login_required` guarantees this before a handler runs.
- Submitted form fields are `Option<string>`. Python's `not field` test is `Forms.Filled`.
- The random salt bcrypt draws is a `salt` parameter.
- Outcomes are datatypes (`RegisterResult`, `LoginResult`, …), not flash messages or redirects.

Passwords (`Password`) are stored as `Hashed` values: a salt and a digest, never the plaintext.
`Verify` recomputes the digest with the stored salt. Hashing the same password under two salts
gives two stored values. The model relies on only one fact: a hash verifies against the
password it was made from.

New rows get SQLite's key for an `INTEGER PRIMARY KEY` column: one more than the largest key in
the table, or 1 in an empty table (`Tables.NextId`).

Where the code and the written description of the site differ, the model follows the code:

- Login checks the password before the block flag. A blocked account with a wrong password
  therefore gets the same generic failure as an unknown email.
- Resetting a password installs a fresh salted hash of `"111111"`. The result verifies against
  `"111111"`, but it is not one fixed hash value.
- `POST /admin` does not check that the caller is an administrator. Any signed-in user can block,
  unblock or reset another user; `Scenarios.OrdinaryUserBlocks` shows this.
  `POST /reset_password` does check.
- Username uniqueness is not checked by the handler. The storage's unique constraint rejects the
  insert, which the model reports as `UsernameTaken`, leaving the table unchanged.
- Startup seeding looks only for the username `admin`. If another account already uses
  `admin@gmail.com`, the unique constraint on email rejects the insert (`SeedEmailTaken`).

## Model

| member | source | states |
|---|---|---|
| `Password.Hash` | tiny_app.py:24-25 | the stored value made from a password verifies against that password |
| `Tables.FindFirst` | tiny_app.py:72 | the first row in table order that matches the filter; none exactly when no row matches |
| `Tables.NextId` | tiny_app.py:17 | a new key is larger than every existing key and one more than the largest, or 1 in an empty table |
| `Tables.OwnedBy` | tiny_app.py:107 | holds exactly the posts whose `user_id` is the given user |
| `Tables.OwnedByIncreasing` | tiny_app.py:107 | a user's listing keeps the table's key order |
| `Tables.RemoveSelected` | tiny_app.py:118 | keeps exactly the posts that are not both listed by id and owned by the caller |
| `Tables.RemoveSelectedIncreasing` | tiny_app.py:118 | the posts left after a deletion keep the table's key order |
| `Tables.OwnedByAppend` | tiny_app.py:101-103 | a new post extends only its author's listing, by exactly that post |
| `Tables.RemoveSelectedKeepsOthers` | tiny_app.py:118 | a deletion never changes any other user's listing |
| `Tables.RemoveSelectedOwnListing` | tiny_app.py:118 | the deleting user's listing afterwards is their old listing minus the selected posts |
| `Tables.SameRowsSameListing` | tiny_app.py:107 | two key-ordered listings holding the same rows are equal, so a listing is fixed by its rows |
| `TinyApp.Lookup` | tiny_app.py:137 | the submitted `user_id` text resolves to the row whose key it spells, or to nothing when no row has that key |
| `TinyApp.EmailIdentifiesUser` | tiny_app.py:19 | under the unique-email constraint an email names at most one account |
| `TinyApp.AppendUserKeepsWellFormed` | tiny_app.py:16-22 | inserting an account with a fresh key, email and username keeps the database invariant |
| `TinyApp.AppendPostKeepsWellFormed` | tiny_app.py:27-31 | inserting a post with a fresh key, a title, content and an existing author keeps the database invariant |
| `TinyApp.ReplaceKeepsWellFormed` | tiny_app.py:143-153 | changing one account's block flag or password keeps the database invariant |
| `TinyApp.App.constructor` | tiny_app.py:185 | a freshly created database has empty tables and is well formed |
| `TinyApp.App.SeedAdmin` | tiny_app.py:186-189 | adds the `admin` account (admin, not blocked) only if no user is named `admin`; afterwards one is |
| `TinyApp.App.Register` | tiny_app.py:47-65 | a missing field, a used email or a used username leaves the users unchanged; otherwise exactly one non-admin, unblocked account is appended, whose stored password verifies |
| `TinyApp.App.Login` | tiny_app.py:69-82 | signs in exactly when an account has that email, the password verifies and it is not blocked; routes to the admin panel exactly when it is an admin; unknown email and wrong password give the same answer; changes nothing |
| `TinyApp.App.CreatePost` | tiny_app.py:95-105 | an empty title or content adds nothing; otherwise exactly one post owned by the caller is appended, extending only the caller's listing |
| `TinyApp.App.ListOwnPosts` | tiny_app.py:107-108 | returns exactly the caller's posts, in table order |
| `TinyApp.App.DeletePosts` | tiny_app.py:113-121 | an empty list answers 400 and changes nothing; otherwise answers 200 and removes exactly the listed posts the caller owns; other users' posts remain |
| `TinyApp.App.AdminAction` | tiny_app.py:126-156 | a missing or unknown target changes nothing; block on an admin changes nothing; block, unblock and reset change only the target's flag or password, and a reset verifies against `"111111"`; any other action changes nothing; the caller is not checked |
| `TinyApp.App.ResetPassword` | tiny_app.py:164-180 | a non-admin caller or an unknown target changes nothing; otherwise only the target's password changes, and it verifies against `"111111"` |
| `Scenarios.AliceSignsIn` | tiny_app.py:69-79 | a freshly registered user signs in with her password and is sent to the dashboard |
| `Scenarios.AdminSignsIn` | tiny_app.py:186-189 | the seeded administrator signs in with the seeded password and is sent to the admin panel |
| `Scenarios.FirstPost` | tiny_app.py:95-108 | after her first post, alice's listing shows exactly that post and the administrator's none |
| `Scenarios.ForeignDelete` | tiny_app.py:113-121 | deleting another user's post answers 200 and removes nothing |
| `Scenarios.OwnDelete` | tiny_app.py:113-121 | an empty selection answers 400; deleting one's own post answers 200 and empties the listing |
| `Scenarios.ResetRefused` | tiny_app.py:164-167 | a reset requested by an ordinary user is refused and the target's password still works |
| `Scenarios.ResetThenLogin` | tiny_app.py:169-180 | after the administrator's reset the user signs in with `"111111"` |
| `Scenarios.OrdinaryUserBlocks` | tiny_app.py:133-147 | an ordinary user can block another account, which then can no longer sign in |
| `Scenarios.AdminCannotBeBlocked` | tiny_app.py:143-144 | blocking the administrator is refused and the administrator still signs in |
| `Scenarios.SeedTwice` | tiny_app.py:186-189 | seeding a second time changes nothing |

## Left out

- Flask routing, templates, flash texts and redirects: each outcome is a constructor of a result datatype.
- Sessions (`login_user`, `logout_user`, `load_user`, `login_required`): the signed-in user is the `caller` parameter. `GET /logout` only ends the session, so it is not modelled.
- `GET /`, the favicon route, the debug print, `app.run` and the configuration: these do not touch the tables.
- `GET /admin` only renders the full user table, so it is not modelled.
- bcrypt's algorithm: the digest in `Password` is a stand-in. Salts are supplied by the caller instead of being drawn at random.
- SQLAlchemy and SQLite themselves: commits, rollbacks, transaction isolation and concurrent requests (last write wins) are not modelled. Each handler is one atomic step.
- `String(150)`-style column lengths are not modelled, because SQLite does not enforce them.
- Keys are unbounded integers: SQLite's 64-bit key limit is not modelled.
- `static/script.js`, the browser code, is not part of this model.
- TinyApp.App.Login: if the email belongs to an account but no password field was sent, the hashing library raises an error. The model instead answers `InvalidCredentials`, and the store is unchanged either way.
- TinyApp.Lookup: the database would also coerce some other spellings of a key (a sign, surrounding blanks, a trailing `.0`) to an integer. The model treats any text that is not plain decimal digits as naming no user.
- TinyApp.App.DeletePosts: `post_ids` is taken as a list of integer keys. The string ids the browser sends are coerced to integers by the database. JSON values other than a list are not modelled.
- TinyApp.App.SeedAdmin: when the insert is rejected, the real process stops with an exception at startup. The model returns `SeedEmailTaken` with the tables unchanged.
- TinyApp.App.Register: when the unique constraint on `username` rejects the insert, the real request fails with a server error. The model returns `UsernameTaken` with the tables unchanged.
