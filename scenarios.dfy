/**
 * Walk-throughs over a fresh database that use only the handlers' contracts: what a sequence of
 * requests is guaranteed to produce, whatever salts the password hashing draws.
 */
module Scenarios {
  import opened Forms
  import opened Password
  import opened Tables
  import opened TinyApp

  /** The row `SeedAdmin` creates in an empty database. */
  function AdminRow(salt: Salt): User
  {
    User(1, ADMIN_USERNAME, ADMIN_EMAIL, Hash(salt, ADMIN_PASSWORD), true, false)
  }

  /** An ordinary account as `Register` creates it. */
  function MemberRow(id: int, name: string, email: string, pw: string, salt: Salt): User
  {
    User(id, name, email, Hash(salt, pw), false, false)
  }

  /** Startup on an empty database. */
  method AdminOnly(adminSalt: Salt) returns (app: App)
    ensures fresh(app) && app.Valid()
    ensures app.users == [AdminRow(adminSalt)]
    ensures app.posts == []
  {
    app := new App();
    assert UserIds(app.users) == [];
    var seeded := app.SeedAdmin(adminSalt);
  }

  /** Startup on an empty database, then `alice` registers. */
  method AdminAndAlice(adminSalt: Salt, aliceSalt: Salt) returns (app: App)
    ensures fresh(app) && app.Valid()
    ensures app.users == [AdminRow(adminSalt), MemberRow(2, "alice", "alice@x.com", "pw1", aliceSalt)]
    ensures app.posts == []
  {
    app := AdminOnly(adminSalt);
    var admin := app.users[0];
    assert !Matches(admin, ByEmail("alice@x.com")) && !Matches(admin, ByUsername("alice"));
    assert !Taken(app.users, ByEmail("alice@x.com")) && !Taken(app.users, ByUsername("alice"));
    assert UserIds(app.users) == [1];
    var registered := app.Register(Some("alice"), Some("alice@x.com"), Some("pw1"), aliceSalt);
  }

  /** Startup on an empty database, then `alice` and `bob` register. */
  method ThreeAccounts(adminSalt: Salt, aliceSalt: Salt, bobSalt: Salt) returns (app: App)
    ensures fresh(app) && app.Valid()
    ensures app.users == [AdminRow(adminSalt),
                          MemberRow(2, "alice", "alice@x.com", "pw1", aliceSalt),
                          MemberRow(3, "bob", "bob@x.com", "pw2", bobSalt)]
    ensures app.posts == []
  {
    app := AdminAndAlice(adminSalt, aliceSalt);
    var admin, alice := app.users[0], app.users[1];
    assert !Matches(admin, ByEmail("bob@x.com")) && !Matches(alice, ByEmail("bob@x.com"));
    assert !Matches(admin, ByUsername("bob")) && !Matches(alice, ByUsername("bob"));
    assert NextId(UserIds(app.users)) == 3 by {
      assert UserIds(app.users) == [1, 2];
    }
    var registered := app.Register(Some("bob"), Some("bob@x.com"), Some("pw2"), bobSalt);
  }

  /** `alice` signs in with her password and is sent to her dashboard. */
  method AliceSignsIn(adminSalt: Salt, aliceSalt: Salt, bobSalt: Salt) returns (login: LoginResult)
    ensures login == LoggedIn(2, Dashboard)
  {
    var app := ThreeAccounts(adminSalt, aliceSalt, bobSalt);
    assert Credentials(app.users[1], Some("alice@x.com"), Some("pw1"));
    login := app.Login(Some("alice@x.com"), Some("pw1"));
  }

  /** The administrator signs in with the seeded password and is sent to the admin panel. */
  method AdminSignsIn(adminSalt: Salt, aliceSalt: Salt, bobSalt: Salt) returns (login: LoginResult)
    ensures login == LoggedIn(1, AdminPanel)
  {
    var app := ThreeAccounts(adminSalt, aliceSalt, bobSalt);
    assert Credentials(app.users[0], Some(ADMIN_EMAIL), Some(ADMIN_PASSWORD));
    login := app.Login(Some(ADMIN_EMAIL), Some(ADMIN_PASSWORD));
  }

  /** `alice` writes a post titled "Hi" with content "World" on the three-account site. */
  method AlicePosted(adminSalt: Salt, aliceSalt: Salt, bobSalt: Salt) returns (app: App)
    ensures fresh(app) && app.Valid()
    ensures app.users == [AdminRow(adminSalt),
                          MemberRow(2, "alice", "alice@x.com", "pw1", aliceSalt),
                          MemberRow(3, "bob", "bob@x.com", "pw2", bobSalt)]
    ensures app.posts == [Post(1, "Hi", "World", 2)]
  {
    app := ThreeAccounts(adminSalt, aliceSalt, bobSalt);
    assert Matches(app.users[1], ById(2));
    assert PostIds(app.posts) == [];
    var posted := app.CreatePost(2, Some("Hi"), Some("World"));
  }

  /** After `alice`'s first post, her listing shows exactly that post and the administrator's none. */
  method FirstPost(adminSalt: Salt, aliceSalt: Salt, bobSalt: Salt)
    returns (alicePosts: seq<Post>, adminPosts: seq<Post>)
    ensures alicePosts == [Post(1, "Hi", "World", 2)]
    ensures adminPosts == []
  {
    var app := AlicePosted(adminSalt, aliceSalt, bobSalt);
    assert Matches(app.users[1], ById(2)) && Matches(app.users[0], ById(1));
    alicePosts := app.ListOwnPosts(2);
    adminPosts := app.ListOwnPosts(1);
  }

  /** `bob` asks to delete `alice`'s post: the answer is 200 and her post remains. */
  method ForeignDelete(adminSalt: Salt, aliceSalt: Salt, bobSalt: Salt)
    returns (status: int, remaining: seq<Post>)
    ensures status == 200
    ensures remaining == [Post(1, "Hi", "World", 2)]
  {
    var app := AlicePosted(adminSalt, aliceSalt, bobSalt);
    assert Matches(app.users[2], ById(3));
    status := app.DeletePosts(3, [1]);
    remaining := app.posts;
  }

  /** `alice`'s empty selection is refused with 400; her selection of her own post removes it. */
  method OwnDelete(adminSalt: Salt, aliceSalt: Salt, bobSalt: Salt)
    returns (emptyDelete: int, ownDelete: int, aliceAfter: seq<Post>)
    ensures emptyDelete == 400 && ownDelete == 200
    ensures aliceAfter == []
  {
    var app := AlicePosted(adminSalt, aliceSalt, bobSalt);
    assert Matches(app.users[1], ById(2));
    emptyDelete := app.DeletePosts(2, []);
    ownDelete := app.DeletePosts(2, [1]);
    aliceAfter := app.ListOwnPosts(2);
  }

  /** `bob`, not an administrator, asks `/reset_password` to reset `alice`'s password and is refused. */
  method ResetRefused(adminSalt: Salt, aliceSalt: Salt, bobSalt: Salt, resetSalt: Salt)
    returns (refused: ResetResult, aliceLogin: LoginResult)
    ensures refused == NotAdmin
    ensures aliceLogin == LoggedIn(2, Dashboard)
  {
    var app := ThreeAccounts(adminSalt, aliceSalt, bobSalt);
    assert Matches(app.users[2], ById(3));
    refused := app.ResetPassword(3, Some("2"), resetSalt);
    assert Credentials(app.users[1], Some("alice@x.com"), Some("pw1"));
    aliceLogin := app.Login(Some("alice@x.com"), Some("pw1"));
  }

  /** The administrator resets `alice`'s password; she then signs in with the default password. */
  method ResetThenLogin(adminSalt: Salt, aliceSalt: Salt, bobSalt: Salt, resetSalt: Salt)
    returns (reset: ResetResult, aliceLogin: LoginResult)
    ensures reset == PasswordReset
    ensures aliceLogin == LoggedIn(2, Dashboard)
  {
    var app := ThreeAccounts(adminSalt, aliceSalt, bobSalt);
    assert Matches(app.users[0], ById(1)) && Matches(app.users[1], ById(2));
    assert NumeralValue("2") == 2;
    assert Lookup(app.users, Some("2")) == Some(1);
    reset := app.ResetPassword(1, Some("2"), resetSalt);
    assert Credentials(app.users[1], Some("alice@x.com"), Some(DEFAULT_PASSWORD));
    aliceLogin := app.Login(Some("alice@x.com"), Some(DEFAULT_PASSWORD));
  }

  /**
   * `/admin` does not check who is asking: `alice`, an ordinary user, blocks `bob`, who can then no
   * longer sign in even with his password.
   */
  method OrdinaryUserBlocks(adminSalt: Salt, aliceSalt: Salt, bobSalt: Salt)
    returns (blockBob: AdminResult, bobLogin: LoginResult)
    ensures blockBob == Blocked
    ensures bobLogin == AccountLocked
  {
    var app := ThreeAccounts(adminSalt, aliceSalt, bobSalt);
    assert !app.users[1].isAdmin && Matches(app.users[1], ById(2)) && Matches(app.users[2], ById(3));
    assert NumeralValue("3") == 3;
    assert Lookup(app.users, Some("3")) == Some(2);
    blockBob := app.AdminAction(2, Some("3"), Some("block"), 0);
    assert Credentials(app.users[2], Some("bob@x.com"), Some("pw2")) && app.users[2].isBlocked;
    bobLogin := app.Login(Some("bob@x.com"), Some("pw2"));
  }

  /** Blocking the administrator is refused, and the administrator still signs in. */
  method AdminCannotBeBlocked(adminSalt: Salt, aliceSalt: Salt, bobSalt: Salt)
    returns (blockAdmin: AdminResult, adminLogin: LoginResult)
    ensures blockAdmin == CannotBlockAdmin
    ensures adminLogin == LoggedIn(1, AdminPanel)
  {
    var app := ThreeAccounts(adminSalt, aliceSalt, bobSalt);
    assert Matches(app.users[0], ById(1)) && Matches(app.users[1], ById(2));
    assert NumeralValue("1") == 1;
    assert Lookup(app.users, Some("1")) == Some(0);
    blockAdmin := app.AdminAction(2, Some("1"), Some("block"), 0);
    assert Credentials(app.users[0], Some(ADMIN_EMAIL), Some(ADMIN_PASSWORD));
    adminLogin := app.Login(Some(ADMIN_EMAIL), Some(ADMIN_PASSWORD));
  }

  /** Seeding twice creates the administrator once: the second run finds it and changes nothing. */
  method SeedTwice(firstSalt: Salt, secondSalt: Salt) returns (first: SeedResult, second: SeedResult, count: nat)
    ensures first == Seeded(1)
    ensures second == AlreadySeeded
    ensures count == 1
  {
    var app := new App();
    first := app.SeedAdmin(firstSalt);
    second := app.SeedAdmin(secondSalt);
    count := |app.users|;
  }
}
