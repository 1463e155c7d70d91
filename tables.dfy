/**
 * The two tables of the application's database, `user` and `post`, as sequences of rows in
 * table order, with the queries the handlers run on them and the invariants every handler keeps.
 */
module Tables {
  import opened Forms
  import opened Password

  /** A row of the `user` table. */
  datatype User = User(id: int, username: string, email: string, password: Hashed, isAdmin: bool, isBlocked: bool)

  /** A row of the `post` table; `userId` is the `id` of the author's `User` row. */
  datatype Post = Post(id: int, title: string, content: string, userId: int)

  /** The column a `User` query filters on, and the value it looks for. */
  datatype Key = ById(id: int) | ByEmail(email: string) | ByUsername(username: string)

  predicate Matches(u: User, k: Key)
  {
    match k
    case ById(id) => u.id == id
    case ByEmail(e) => u.email == e
    case ByUsername(n) => u.username == n
  }

  /** Some row of `users` matches `k`. */
  ghost predicate Taken(users: seq<User>, k: Key)
  {
    exists u :: u in users && Matches(u, k)
  }

  /** `User.query.filter_by(...).first()`: the position of the first matching row in table order. */
  function FindFirst(users: seq<User>, k: Key): (r: Option<nat>)
    ensures r.Some? ==> r.value < |users| && Matches(users[r.value], k)
    ensures r.Some? ==> forall j :: 0 <= j < r.value ==> !Matches(users[j], k)
    ensures r.None? <==> !Taken(users, k)
  {
    if users == [] then None
    else if Matches(users[0], k) then Some(0)
    else
      assert forall u :: u in users ==> u == users[0] || u in users[1..];
      match FindFirst(users[1..], k)
      case None => None
      case Some(i) => Some(i + 1)
  }

  /** The row whose primary key is `id`. */
  function Row(users: seq<User>, id: int): (u: User)
    requires Taken(users, ById(id))
    ensures u in users && u.id == id
  {
    users[FindFirst(users, ById(id)).value]
  }

  function UserIds(users: seq<User>): (ids: seq<int>)
    ensures |ids| == |users|
    ensures forall i :: 0 <= i < |users| ==> ids[i] == users[i].id
  {
    seq(|users|, i requires 0 <= i < |users| => users[i].id)
  }

  function PostIds(posts: seq<Post>): (ids: seq<int>)
    ensures |ids| == |posts|
    ensures forall i :: 0 <= i < |posts| ==> ids[i] == posts[i].id
  {
    seq(|posts|, i requires 0 <= i < |posts| => posts[i].id)
  }

  /** The largest of a non-empty list of keys. */
  function MaxOf(ids: seq<int>): (m: int)
    requires ids != []
    ensures m in ids
    ensures forall x :: x in ids ==> x <= m
  {
    if |ids| == 1 then ids[0]
    else
      var rest := MaxOf(ids[1..]);
      assert forall x :: x in ids ==> x == ids[0] || x in ids[1..];
      if ids[0] >= rest then ids[0] else rest
  }

  /**
   * The key the database gives a new row: one more than the largest key in the table, or 1 in an
   * empty table (SQLite's rule for an INTEGER PRIMARY KEY column).
   */
  function NextId(ids: seq<int>): (r: int)
    ensures forall x :: x in ids ==> x < r
    ensures ids == [] ==> r == 1
    ensures ids != [] ==> r - 1 in ids
  {
    if ids == [] then 1 else MaxOf(ids) + 1
  }

  ghost predicate IncreasingUserIds(users: seq<User>)
  {
    forall i, j :: 0 <= i < j < |users| ==> users[i].id < users[j].id
  }

  ghost predicate IncreasingPostIds(posts: seq<Post>)
  {
    forall i, j :: 0 <= i < j < |posts| ==> posts[i].id < posts[j].id
  }

  /** The `unique=True` constraint on `User.email`. */
  ghost predicate UniqueEmails(users: seq<User>)
  {
    forall i, j :: 0 <= i < |users| && 0 <= j < |users| && users[i].email == users[j].email ==> i == j
  }

  /** The `unique=True` constraint on `User.username`. */
  ghost predicate UniqueUsernames(users: seq<User>)
  {
    forall i, j :: 0 <= i < |users| && 0 <= j < |users| && users[i].username == users[j].username ==> i == j
  }

  /** No administrator account is blocked: the admin panel refuses to block one. */
  ghost predicate AdminsUnblocked(users: seq<User>)
  {
    forall u :: u in users && u.isAdmin ==> !u.isBlocked
  }

  ghost predicate UsersWellFormed(users: seq<User>)
  {
    && IncreasingUserIds(users)
    && (forall u :: u in users ==> u.id >= 1 && u.username != "" && u.email != "")
    && UniqueEmails(users)
    && UniqueUsernames(users)
    && AdminsUnblocked(users)
  }

  /** Post keys are positive and increase in table order; every post has a title, content and an existing author. */
  ghost predicate PostsWellFormed(posts: seq<Post>, users: seq<User>)
  {
    && IncreasingPostIds(posts)
    && (forall p :: p in posts ==> p.id >= 1 && p.title != "" && p.content != "" && Taken(users, ById(p.userId)))
  }

  /** The invariant of the whole database. */
  ghost predicate WellFormed(users: seq<User>, posts: seq<Post>)
  {
    UsersWellFormed(users) && PostsWellFormed(posts, users)
  }

  /** `Post.query.filter_by(user_id=uid).all()`: the posts written by `uid`, in table order. */
  function OwnedBy(posts: seq<Post>, uid: int): (r: seq<Post>)
    ensures forall p :: p in r <==> p in posts && p.userId == uid
  {
    if posts == [] then []
    else
      assert forall p :: p in posts ==> p == posts[0] || p in posts[1..];
      if posts[0].userId == uid then [posts[0]] + OwnedBy(posts[1..], uid)
      else OwnedBy(posts[1..], uid)
  }

  /** The rows a `delete_posts` request removes: listed by id and written by the caller. */
  predicate Selected(p: Post, ids: seq<int>, uid: int)
  {
    p.id in ids && p.userId == uid
  }

  /** `Post.query.filter(Post.id.in_(ids), Post.user_id == uid).delete()`: the table that remains. */
  function RemoveSelected(posts: seq<Post>, ids: seq<int>, uid: int): (r: seq<Post>)
    ensures forall p :: p in r <==> p in posts && !Selected(p, ids, uid)
  {
    if posts == [] then []
    else
      assert forall p :: p in posts ==> p == posts[0] || p in posts[1..];
      if Selected(posts[0], ids, uid) then RemoveSelected(posts[1..], ids, uid)
      else [posts[0]] + RemoveSelected(posts[1..], ids, uid)
  }

  /** In a table in key order, the first row's key is below that of every later row. */
  lemma FirstKeySmallest(posts: seq<Post>)
    requires IncreasingPostIds(posts) && posts != []
    ensures forall q :: q in posts[1..] ==> posts[0].id < q.id
  {
    forall q | q in posts[1..] ensures posts[0].id < q.id {
      var k :| 0 <= k < |posts[1..]| && posts[1..][k] == q;
      assert posts[k + 1] == q;
    }
  }

  /** A listing keeps the table's key order. */
  lemma {:induction false} OwnedByIncreasing(posts: seq<Post>, uid: int)
    requires IncreasingPostIds(posts)
    ensures IncreasingPostIds(OwnedBy(posts, uid))
  {
    if posts != [] {
      FirstKeySmallest(posts);
      OwnedByIncreasing(posts[1..], uid);
    }
  }

  /** A deletion keeps the table's key order. */
  lemma {:induction false} RemoveSelectedIncreasing(posts: seq<Post>, ids: seq<int>, uid: int)
    requires IncreasingPostIds(posts)
    ensures IncreasingPostIds(RemoveSelected(posts, ids, uid))
  {
    if posts != [] {
      FirstKeySmallest(posts);
      RemoveSelectedIncreasing(posts[1..], ids, uid);
    }
  }

  /** Adding a post extends its author's listing by that post and leaves every other listing alone. */
  lemma {:induction false} OwnedByAppend(posts: seq<Post>, p: Post, uid: int)
    ensures OwnedBy(posts + [p], uid) == OwnedBy(posts, uid) + (if p.userId == uid then [p] else [])
  {
    if posts == [] {
      assert [p][1..] == [];
    } else {
      assert (posts + [p])[0] == posts[0];
      assert (posts + [p])[1..] == posts[1..] + [p];
      OwnedByAppend(posts[1..], p, uid);
    }
  }

  /** Deleting a selection never changes the listing of any user other than the one deleting. */
  lemma {:induction false} RemoveSelectedKeepsOthers(posts: seq<Post>, ids: seq<int>, uid: int, other: int)
    requires other != uid
    ensures OwnedBy(RemoveSelected(posts, ids, uid), other) == OwnedBy(posts, other)
  {
    if posts != [] {
      RemoveSelectedKeepsOthers(posts[1..], ids, uid, other);
    }
  }

  /** The deleting user's listing afterwards is their listing before, without the selected rows. */
  lemma {:induction false} RemoveSelectedOwnListing(posts: seq<Post>, ids: seq<int>, uid: int)
    ensures OwnedBy(RemoveSelected(posts, ids, uid), uid) == RemoveSelected(OwnedBy(posts, uid), ids, uid)
  {
    if posts != [] {
      RemoveSelectedOwnListing(posts[1..], ids, uid);
    }
  }

  /**
   * Two lists of posts in increasing key order that hold the same rows are the same list: a listing
   * is fixed by which rows it holds.
   */
  lemma {:induction false} SameRowsSameListing(a: seq<Post>, b: seq<Post>)
    requires IncreasingPostIds(a) && IncreasingPostIds(b)
    requires forall p :: p in a <==> p in b
    ensures a == b
  {
    if a != [] {
      assert a[0] in b;
    }
    if b != [] {
      assert b[0] in a;
    }
    if a != [] && b != [] {
      var a0, aTail, b0, bTail := a[0], a[1..], b[0], b[1..];
      assert a == [a0] + aTail && b == [b0] + bTail;
      FirstKeySmallest(a);
      FirstKeySmallest(b);
      assert b0 == a0 || b0 in aTail;
      assert a0 == b0 || a0 in bTail;
      assert a0.id == b0.id;
      forall p | p in aTail ensures p in bTail {
        assert p in a && p.id != b0.id;
      }
      forall p | p in bTail ensures p in aTail {
        assert p in b && p.id != a0.id;
      }
      SameRowsSameListing(aTail, bTail);
    }
  }
}
