/**
 * The request handlers of the blogging site as operations on an in-memory database.
 *
 * `App` holds the two tables. Each handler is a method; the user a session resolves to is passed
 * in as `caller` (the id of an existing row), randomness for password hashing as `salt`, and the
 * submitted form fields as `Option<string>` values. Every method keeps `Valid()` and says exactly
 * which rows it changes.
 */
module TinyApp {
  import opened Forms
  import opened Password
  import opened Tables

  /** The password both reset operations install. */
  const DEFAULT_PASSWORD := "111111"

  /** The account created at startup. */
  const ADMIN_USERNAME := "admin"
  const ADMIN_EMAIL := "admin@gmail.com"
  const ADMIN_PASSWORD := "admin123"

  datatype SeedResult = Seeded(id: int) | AlreadySeeded | SeedEmailTaken

  datatype RegisterResult = MissingField | EmailTaken | UsernameTaken | Registered(id: int)

  /** Where a successful login redirects. */
  datatype View = AdminPanel | Dashboard

  datatype LoginResult = InvalidCredentials | AccountLocked | LoggedIn(userId: int, view: View)

  datatype PostResult = EmptyField | Posted(id: int)

  datatype AdminResult = MissingUserId | TargetNotFound | CannotBlockAdmin | Blocked | Unblocked | Reset | UnknownAction

  datatype ResetResult = NotAdmin | NoSuchUser | PasswordReset

  /** `User.query.get(user_id)` on submitted text: the position of the row the text names, if any. */
  function Lookup(users: seq<User>, userId: Option<string>): (r: Option<nat>)
    ensures r.Some? ==> r.value < |users| && userId.Some? && IsNumeral(userId.value)
                        && users[r.value].id == NumeralValue(userId.value)
    ensures r.None? ==> !(userId.Some? && IsNumeral(userId.value) && Taken(users, ById(NumeralValue(userId.value))))
  {
    match ParseId(userId)
    case None => None
    case Some(id) => FindFirst(users, ById(id))
  }

  /** A submitted email and password that belong to the account `u`. */
  predicate Credentials(u: User, email: Option<string>, password: Option<string>)
  {
    email.Some? && password.Some? && u.email == email.value && Verify(u.password, password.value)
  }

  class App {
    var users: seq<User>
    var posts: seq<Post>

    ghost predicate Valid()
      reads this
    {
      WellFormed(users, posts)
    }

    /** `db.create_all()` on a fresh database. */
    constructor ()
      ensures Valid()
      ensures users == [] && posts == []
    {
      users := [];
      posts := [];
    }

    /** Startup: create the administrator account unless a user named `admin` exists. */
    method SeedAdmin(salt: Salt) returns (r: SeedResult)
      requires Valid()
      modifies this
      ensures Valid()
      ensures posts == old(posts)
      ensures r == AlreadySeeded <==> Taken(old(users), ByUsername(ADMIN_USERNAME))
      ensures r == SeedEmailTaken <==>
                !Taken(old(users), ByUsername(ADMIN_USERNAME)) && Taken(old(users), ByEmail(ADMIN_EMAIL))
      ensures r.Seeded? ==>
                && r.id == NextId(UserIds(old(users)))
                && users == old(users) + [User(r.id, ADMIN_USERNAME, ADMIN_EMAIL, Hash(salt, ADMIN_PASSWORD), true, false)]
      ensures !r.Seeded? ==> users == old(users)
      ensures r != SeedEmailTaken ==> Taken(users, ByUsername(ADMIN_USERNAME))
    {
      if FindFirst(users, ByUsername(ADMIN_USERNAME)).Some? {
        return AlreadySeeded;
      }
      if FindFirst(users, ByEmail(ADMIN_EMAIL)).Some? {
        // the unique constraint on `email` rejects the insert
        return SeedEmailTaken;
      }
      var id := NextId(UserIds(users));
      var admin := User(id, ADMIN_USERNAME, ADMIN_EMAIL, Hash(salt, ADMIN_PASSWORD), true, false);
      AppendUserKeepsWellFormed(users, posts, admin);
      users := users + [admin];
      assert users[|users| - 1] == admin && Matches(admin, ByUsername(ADMIN_USERNAME));
      r := Seeded(id);
    }

    /** `POST /register`. */
    method Register(username: Option<string>, email: Option<string>, password: Option<string>, salt: Salt)
      returns (r: RegisterResult)
      requires Valid()
      modifies this
      ensures Valid()
      ensures posts == old(posts)
      ensures r == MissingField <==> !(Filled(username) && Filled(email) && Filled(password))
      ensures r == EmailTaken <==>
                Filled(username) && Filled(email) && Filled(password) && Taken(old(users), ByEmail(email.value))
      ensures r == UsernameTaken <==>
                && Filled(username) && Filled(email) && Filled(password)
                && !Taken(old(users), ByEmail(email.value)) && Taken(old(users), ByUsername(username.value))
      ensures r.Registered? ==>
                && r.id == NextId(UserIds(old(users)))
                && users == old(users) + [User(r.id, username.value, email.value, Hash(salt, password.value), false, false)]
                && Verify(users[|users| - 1].password, password.value)
      ensures !r.Registered? ==> users == old(users)
    {
      if !Filled(username) || !Filled(email) || !Filled(password) {
        return MissingField;
      }
      if FindFirst(users, ByEmail(email.value)).Some? {
        return EmailTaken;
      }
      if FindFirst(users, ByUsername(username.value)).Some? {
        // not checked by the handler: the unique constraint on `username` rejects the insert
        return UsernameTaken;
      }
      var id := NextId(UserIds(users));
      var user := User(id, username.value, email.value, Hash(salt, password.value), false, false);
      AppendUserKeepsWellFormed(users, posts, user);
      users := users + [user];
      r := Registered(id);
    }

    /**
     * `POST /login`. Reads the tables and changes nothing. The password is checked before the
     * block flag, so a blocked account with a wrong password gets the generic failure.
     */
    method Login(email: Option<string>, password: Option<string>) returns (r: LoginResult)
      requires Valid()
      ensures r == InvalidCredentials <==> forall u :: u in users ==> !Credentials(u, email, password)
      ensures r == AccountLocked <==> exists u :: u in users && Credentials(u, email, password) && u.isBlocked
      ensures r.LoggedIn? <==> exists u :: u in users && Credentials(u, email, password) && !u.isBlocked
      ensures r.LoggedIn? ==>
                exists u :: u in users && u.id == r.userId && Credentials(u, email, password)
                            && (r.view == AdminPanel <==> u.isAdmin)
    {
      var found := if email.Some? then FindFirst(users, ByEmail(email.value)) else None;
      if found.Some? && password.Some? && Verify(users[found.value].password, password.value) {
        var user := users[found.value];
        assert forall u :: u in users && Credentials(u, email, password) ==> u == user by {
          EmailIdentifiesUser(users, found.value);
        }
        if user.isBlocked {
          return AccountLocked;
        }
        return LoggedIn(user.id, if user.isAdmin then AdminPanel else Dashboard);
      }
      r := InvalidCredentials;
      assert forall u :: u in users ==> !Credentials(u, email, password) by {
        if email.Some? && password.Some? && found.Some? {
          EmailIdentifiesUser(users, found.value);
        }
      }
    }

    /** `POST /dashboard`: add a post written by the caller, unless the title or content is empty. */
    method CreatePost(caller: int, title: Option<string>, content: Option<string>) returns (r: PostResult)
      requires Valid() && Taken(users, ById(caller))
      modifies this
      ensures Valid()
      ensures users == old(users)
      ensures r == EmptyField <==> !(Filled(title) && Filled(content))
      ensures r.Posted? ==>
                && r.id == NextId(PostIds(old(posts)))
                && posts == old(posts) + [Post(r.id, title.value, content.value, caller)]
      ensures r == EmptyField ==> posts == old(posts)
      ensures r.Posted? ==> OwnedBy(posts, caller) == OwnedBy(old(posts), caller) + [posts[|posts| - 1]]
      ensures forall other :: other != caller ==> OwnedBy(posts, other) == OwnedBy(old(posts), other)
    {
      if !Filled(title) || !Filled(content) {
        return EmptyField;
      }
      var id := NextId(PostIds(posts));
      var post := Post(id, title.value, content.value, caller);
      AppendPostKeepsWellFormed(users, posts, post);
      forall uid {
        OwnedByAppend(posts, post, uid);
      }
      posts := posts + [post];
      r := Posted(id);
    }

    /** `GET /dashboard`: the caller's posts, in table order. */
    method ListOwnPosts(caller: int) returns (r: seq<Post>)
      requires Valid() && Taken(users, ById(caller))
      ensures forall p :: p in r <==> p in posts && p.userId == caller
      ensures IncreasingPostIds(r)
      ensures r == OwnedBy(posts, caller)
    {
      r := OwnedBy(posts, caller);
      OwnedByIncreasing(posts, caller);
    }

    /**
     * `POST /delete_posts`: remove the listed posts that the caller wrote. Answers 400 and changes
     * nothing for an empty list; otherwise answers 200, whether or not anything matched.
     */
    method DeletePosts(caller: int, postIds: seq<int>) returns (status: int)
      requires Valid() && Taken(users, ById(caller))
      modifies this
      ensures Valid()
      ensures users == old(users)
      ensures postIds == [] ==> status == 400 && posts == old(posts)
      ensures postIds != [] ==> status == 200 && posts == RemoveSelected(old(posts), postIds, caller)
      ensures forall p :: p in posts <==> p in old(posts) && !(postIds != [] && p.id in postIds && p.userId == caller)
      ensures postIds != [] ==> OwnedBy(posts, caller) == RemoveSelected(OwnedBy(old(posts), caller), postIds, caller)
      ensures forall other :: other != caller ==> OwnedBy(posts, other) == OwnedBy(old(posts), other)
    {
      if postIds == [] {
        return 400;
      }
      RemoveSelectedOwnListing(posts, postIds, caller);
      RemoveSelectedIncreasing(posts, postIds, caller);
      forall other | other != caller {
        RemoveSelectedKeepsOthers(posts, postIds, caller, other);
      }
      posts := RemoveSelected(posts, postIds, caller);
      status := 200;
    }

    /**
     * `POST /admin`: block, unblock or reset the password of the user `userId` names. The handler
     * does not look at who the caller is, so any signed-in user may act; blocking an administrator is
     * refused. Only the target row can change.
     */
    method AdminAction(caller: int, userId: Option<string>, action: Option<string>, salt: Salt)
      returns (r: AdminResult)
      requires Valid() && Taken(users, ById(caller))
      modifies this
      ensures Valid()
      ensures posts == old(posts)
      ensures r == MissingUserId <==> !Filled(userId)
      ensures r == TargetNotFound <==> Filled(userId) && Lookup(old(users), userId).None?
      ensures r in {MissingUserId, TargetNotFound, CannotBlockAdmin, UnknownAction} ==> users == old(users)
      ensures Filled(userId) && Lookup(old(users), userId).Some? ==>
                var t := Lookup(old(users), userId).value;
                var target := old(users)[t];
                && (action == Some("block") && target.isAdmin ==> r == CannotBlockAdmin)
                && (action == Some("block") && !target.isAdmin ==>
                      r == Blocked && users == old(users)[t := target.(isBlocked := true)])
                && (action == Some("unblock") ==>
                      r == Unblocked && users == old(users)[t := target.(isBlocked := false)])
                && (action == Some("reset") ==>
                      && r == Reset
                      && users == old(users)[t := target.(password := Hash(salt, DEFAULT_PASSWORD))]
                      && Verify(users[t].password, DEFAULT_PASSWORD))
                && (action !in {Some("block"), Some("unblock"), Some("reset")} ==> r == UnknownAction)
    {
      if !Filled(userId) {
        return MissingUserId;
      }
      var found := Lookup(users, userId);
      if found.None? {
        return TargetNotFound;
      }
      var t := found.value;
      var target := users[t];
      if target.isAdmin && action == Some("block") {
        r := CannotBlockAdmin;
      } else if action == Some("block") {
        ReplaceKeepsWellFormed(users, posts, t, target.(isBlocked := true));
        users := users[t := target.(isBlocked := true)];
        r := Blocked;
      } else if action == Some("unblock") {
        ReplaceKeepsWellFormed(users, posts, t, target.(isBlocked := false));
        users := users[t := target.(isBlocked := false)];
        r := Unblocked;
      } else if action == Some("reset") {
        ReplaceKeepsWellFormed(users, posts, t, target.(password := Hash(salt, DEFAULT_PASSWORD)));
        users := users[t := target.(password := Hash(salt, DEFAULT_PASSWORD))];
        r := Reset;
      } else {
        r := UnknownAction;
      }
    }

    /** `POST /reset_password`: an administrator resets the password of the user `userId` names. */
    method ResetPassword(caller: int, userId: Option<string>, salt: Salt) returns (r: ResetResult)
      requires Valid() && Taken(users, ById(caller))
      modifies this
      ensures Valid()
      ensures posts == old(posts)
      ensures r == NotAdmin <==> !Row(old(users), caller).isAdmin
      ensures r == NoSuchUser <==> Row(old(users), caller).isAdmin && Lookup(old(users), userId).None?
      ensures r != PasswordReset ==> users == old(users)
      ensures r == PasswordReset ==>
                var t := Lookup(old(users), userId).value;
                && users == old(users)[t := old(users)[t].(password := Hash(salt, DEFAULT_PASSWORD))]
                && Verify(users[t].password, DEFAULT_PASSWORD)
    {
      var me := FindFirst(users, ById(caller));
      if !users[me.value].isAdmin {
        return NotAdmin;
      }
      var found := Lookup(users, userId);
      if found.None? {
        return NoSuchUser;
      }
      var t := found.value;
      var target := users[t].(password := Hash(salt, DEFAULT_PASSWORD));
      ReplaceKeepsWellFormed(users, posts, t, target);
      users := users[t := target];
      r := PasswordReset;
    }
  }

  /** Within well-formed users an email names at most one account. */
  lemma EmailIdentifiesUser(users: seq<User>, i: nat)
    requires UsersWellFormed(users) && i < |users|
    ensures forall u :: u in users && u.email == users[i].email ==> u == users[i]
  {
    forall u | u in users && u.email == users[i].email ensures u == users[i] {
      var j :| 0 <= j < |users| && users[j] == u;
    }
  }

  /** Appending a row with a fresh key, email and username keeps the user table well formed. */
  lemma AppendUserKeepsWellFormed(users: seq<User>, posts: seq<Post>, u: User)
    requires WellFormed(users, posts)
    requires u.id == NextId(UserIds(users))
    requires u.username != "" && u.email != ""
    requires !Taken(users, ByEmail(u.email)) && !Taken(users, ByUsername(u.username))
    requires u.isAdmin ==> !u.isBlocked
    ensures WellFormed(users + [u], posts)
  {
    var s := users + [u];
    forall p | p in posts ensures Taken(s, ById(p.userId)) {
      var v :| v in users && Matches(v, ById(p.userId));
      assert v in s;
    }
    forall i | 0 <= i < |users| ensures users[i].id < u.id && users[i].email != u.email && users[i].username != u.username {
      assert UserIds(users)[i] == users[i].id && UserIds(users)[i] in UserIds(users);
      assert users[i] in users;
    }
    assert u.id >= 1 by {
      if users != [] {
        var k :| 0 <= k < |users| && UserIds(users)[k] == u.id - 1;
        assert users[k] in users;
      }
    }
    assert forall i :: 0 <= i < |users| ==> s[i] == users[i];
    assert s[|users|] == u;
  }

  /** Appending a post with a fresh key, a title, content and an existing author keeps the database well formed. */
  lemma AppendPostKeepsWellFormed(users: seq<User>, posts: seq<Post>, post: Post)
    requires WellFormed(users, posts)
    requires post.id == NextId(PostIds(posts))
    requires post.title != "" && post.content != "" && Taken(users, ById(post.userId))
    ensures WellFormed(users, posts + [post])
  {
    var s := posts + [post];
    forall i | 0 <= i < |posts| ensures posts[i].id < post.id {
      assert PostIds(posts)[i] == posts[i].id && PostIds(posts)[i] in PostIds(posts);
    }
    assert post.id >= 1 by {
      if posts != [] {
        var k :| 0 <= k < |posts| && PostIds(posts)[k] == post.id - 1;
        assert posts[k] in posts;
      }
    }
    assert forall i :: 0 <= i < |posts| ==> s[i] == posts[i];
    assert s[|posts|] == post;
  }

  /** Replacing one user row by a row with the same key, email, username and admin flag keeps the database well formed. */
  lemma ReplaceKeepsWellFormed(users: seq<User>, posts: seq<Post>, t: nat, v: User)
    requires WellFormed(users, posts) && t < |users|
    requires v.id == users[t].id && v.email == users[t].email && v.username == users[t].username
    requires v.isAdmin == users[t].isAdmin
    requires v.isAdmin ==> !v.isBlocked
    ensures WellFormed(users[t := v], posts)
  {
    var s := users[t := v];
    forall p | p in posts ensures Taken(s, ById(p.userId)) {
      var u :| u in users && Matches(u, ById(p.userId));
      var k :| 0 <= k < |users| && users[k] == u;
      assert s[k] in s && Matches(s[k], ById(p.userId));
    }
    forall u | u in s ensures u.id >= 1 && u.username != "" && u.email != "" && (u.isAdmin ==> !u.isBlocked) {
      var k :| 0 <= k < |s| && s[k] == u;
      assert users[k] in users;
    }
  }
}
