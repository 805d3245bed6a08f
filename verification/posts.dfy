/** The posts route: the feed with like and comment counts (GET), and post
    creation with the author's post counter (POST). */
module Posts {
  import opened Wrappers
  import opened Documents
  import opened Http
  import Seqs

  /** The projected author: only these four user fields leave the server. */
  datatype AuthorCard = AuthorCard(id: Id, name: string, username: string, image: Option<string>)

  /** One feed entry. */
  datatype FeedEntry = FeedEntry(
    id: Id,
    content: Option<string>,
    image: Option<string>,
    createdAt: Time,
    likesCount: nat,
    commentsCount: nat,
    isLiked: bool,
    user: AuthorCard)

  // ---------------------------------------------------------------------------
  // GET

  function LikeOf(pid: Id): Like -> bool {
    (l: Like) => l.postId == pid
  }

  function CommentOf(pid: Id): Comment -> bool {
    (c: Comment) => c.postId == pid
  }

  function LikeBy(pid: Id, uid: Id): Like -> bool {
    (l: Like) => l.postId == pid && l.userId == uid
  }

  /** The number of likes on post `pid`. */
  function LikesCount(likes: seq<Like>, pid: Id): (n: nat)
    ensures n == |set i: nat | i < |likes| && likes[i].postId == pid|
  {
    assert Seqs.IndexSet(likes, LikeOf(pid)) == set i: nat | i < |likes| && likes[i].postId == pid;
    Seqs.Count(likes, LikeOf(pid))
  }

  /** The number of comments on post `pid`. */
  function CommentsCount(comments: seq<Comment>, pid: Id): (n: nat)
    ensures n == |set i: nat | i < |comments| && comments[i].postId == pid|
  {
    assert Seqs.IndexSet(comments, CommentOf(pid)) == set i: nat | i < |comments| && comments[i].postId == pid;
    Seqs.Count(comments, CommentOf(pid))
  }

  /** The caller is among the users who liked post `pid`. */
  function IsLiked(likes: seq<Like>, pid: Id, uid: Id): (b: bool)
    ensures b <==> exists i :: 0 <= i < |likes| && likes[i].postId == pid && likes[i].userId == uid
  {
    Seqs.FindIndex(likes, LikeBy(pid, uid)).Some?
  }

  /** The feed entry for one post, or None when its author has no user record
      (the unwind drops the post). */
  function Entry(st: Store, uid: Id, p: Post): (r: Option<FeedEntry>)
    ensures r.Some? <==> exists i :: 0 <= i < |st.users| && st.users[i].id == p.userId
    ensures r.Some? ==>
      && r.value.id == p.id && r.value.content == p.content && r.value.image == p.image
      && r.value.createdAt == p.createdAt
      && r.value.likesCount == |set i: nat | i < |st.likes| && st.likes[i].postId == p.id|
      && r.value.commentsCount == |set i: nat | i < |st.comments| && st.comments[i].postId == p.id|
      && (r.value.isLiked <==> exists i :: 0 <= i < |st.likes| && st.likes[i].postId == p.id && st.likes[i].userId == uid)
      && var u := FindUser(st.users, p.userId).value;
         r.value.user == AuthorCard(u.id, u.name, u.username, u.image)
  {
    match FindUser(st.users, p.userId)
    case None => None
    case Some(u) =>
      Some(FeedEntry(p.id, p.content, p.image, p.createdAt,
                     LikesCount(st.likes, p.id), CommentsCount(st.comments, p.id),
                     IsLiked(st.likes, p.id, uid),
                     AuthorCard(u.id, u.name, u.username, u.image)))
  }

  function EntryFn(st: Store, uid: Id): Post -> Option<FeedEntry> {
    (p: Post) => Entry(st, uid, p)
  }

  function EntryCreatedAt(e: FeedEntry): int {
    e.createdAt
  }

  /** The lookup and unwind stages: one entry per post whose author exists,
      in store order. */
  function Joined(st: Store, uid: Id): (es: seq<FeedEntry>)
    ensures |es| == |set j: nat | j < |st.posts| && Entry(st, uid, st.posts[j]).Some?|
    ensures forall i :: 0 <= i < |es| ==> exists j :: 0 <= j < |st.posts| && Entry(st, uid, st.posts[j]) == Some(es[i])
    ensures forall j :: 0 <= j < |st.posts| && Entry(st, uid, st.posts[j]).Some? ==> Entry(st, uid, st.posts[j]).value in es
  {
    var f := EntryFn(st, uid);
    assert Seqs.IndexSet(st.posts, Seqs.Defined(f)) == set j: nat | j < |st.posts| && Entry(st, uid, st.posts[j]).Some? by {
      forall j: nat | j < |st.posts| ensures Seqs.Defined(f)(st.posts[j]) == Entry(st, uid, st.posts[j]).Some? { }
    }
    Seqs.FilterMap(st.posts, f)
  }

  /** The feed: the joined entries, newest first. */
  function FeedEntries(st: Store, uid: Id): (es: seq<FeedEntry>)
    ensures multiset(es) == multiset(Joined(st, uid))
    ensures |es| == |set j: nat | j < |st.posts| && Entry(st, uid, st.posts[j]).Some?|
    ensures forall i :: 0 <= i < |es| ==> es[i] in Joined(st, uid)
    ensures forall x :: x in Joined(st, uid) ==> x in es
    ensures Seqs.SortedDesc(es, EntryCreatedAt)
  {
    var kept := Joined(st, uid);
    var es := Seqs.SortDesc(kept, EntryCreatedAt);
    Seqs.SameMembers(kept, es);
    es
  }

  /** GET: the feed. Read-only. */
  function Feed(session: Option<Session>, st: Store): (r: Response<seq<FeedEntry>>)
    ensures !HasUserId(session) <==> r == Failure(UNAUTHORIZED, "Unauthorized")
    ensures r.Success? ==> r.status == OK && r.body == FeedEntries(st, session.value.userId)
  {
    if !HasUserId(session) then Failure(UNAUTHORIZED, "Unauthorized")
    else Success(OK, FeedEntries(st, session.value.userId))
  }

  // ---------------------------------------------------------------------------
  // POST

  /** The caller's record with one more post counted (`$inc: {postsCount: 1}`
      on the first record with that id; no record, no change). */
  function CountPost(users: seq<User>, uid: Id): (us: seq<User>)
    ensures |us| == |users|
    ensures forall i :: 0 <= i < |users| ==>
      if users[i].id == uid && forall j :: 0 <= j < i ==> users[j].id != uid
      then us[i] == users[i].(postsCount := users[i].postsCount + 1)
      else us[i] == users[i]
  {
    match UserIndex(users, uid)
    case None => users
    case Some(k) => users[k := users[k].(postsCount := users[k].postsCount + 1)]
  }

  /** One field of a `$project` stage: `1` includes it (a sub-document of
      inclusions counts as one), and `0` or `false` excludes it. */
  datatype Projected = Include | Exclude

  /** The stage the route uses to re-read a created post. The zero counts and
      the `false` flag were evidently meant as output values, but the store
      reads `0` and `false` as exclusions. */
  const CREATED_POST_PROJECTION: seq<(string, Projected)> := [
    ("_id", Include), ("content", Include), ("image", Include), ("createdAt", Include),
    ("likesCount", Exclude), ("commentsCount", Exclude), ("isLiked", Exclude),
    ("user", Include)]

  /** The store's rule for a projection: it either includes fields or excludes
      them; the only exclusion allowed next to an inclusion is `_id`. */
  predicate ProjectionAccepted(p: seq<(string, Projected)>) {
    (forall i :: 0 <= i < |p| ==> p[i].1 == Exclude)
    || (forall i :: 0 <= i < |p| && p[i].1 == Exclude ==> p[i].0 == "_id")
  }

  /** The re-read's projection is refused. */
  lemma CreatedPostProjectionRefused()
    ensures !ProjectionAccepted(CREATED_POST_PROJECTION)
  {
    assert CREATED_POST_PROJECTION[0].1 == Include;
    assert CREATED_POST_PROJECTION[4] == ("likesCount", Exclude);
  }

  /** POST as the route is written: both writes happen, then the re-read's
      aggregation is refused unless its projection is accepted, and the
      `catch` answers 500. */
  function CreatePostAsWritten(session: Option<Session>, content: Option<string>, image: Option<string>,
                               st: Store, now: Time): (r: Handled<Post>)
    ensures !HasUserId(session) ==> r == Handled(Failure(UNAUTHORIZED, "Unauthorized"), st)
    ensures HasUserId(session) && !Truthy(content) && !Truthy(image) ==>
      r == Handled(Failure(BAD_REQUEST, "Content or image is required"), st)
    ensures HasUserId(session) && (Truthy(content) || Truthy(image)) ==>
      && r.response == Failure(SERVER_ERROR, "Failed to create post")
      && |r.store.posts| == |st.posts| + 1
      && r.store.posts[..|st.posts|] == st.posts
      && r.store.posts[|st.posts|].userId == session.value.userId
      && r.store.posts[|st.posts|].id !in PostIds(st.posts)
      && r.store.users == CountPost(st.users, session.value.userId)
  {
    if !HasUserId(session) then Handled(Failure(UNAUTHORIZED, "Unauthorized"), st)
    else if !Truthy(content) && !Truthy(image) then
      Handled(Failure(BAD_REQUEST, "Content or image is required"), st)
    else
      var uid := session.value.userId;
      var p := Post(FreshId(PostIds(st.posts)), uid, content, image, now, now);
      var st' := st.(posts := st.posts + [p], users := CountPost(st.users, uid));
      CreatedPostProjectionRefused();
      assert st'.posts[..|st.posts|] == st.posts;
      if ProjectionAccepted(CREATED_POST_PROJECTION) then Handled(Success(CREATED, p), st')
      else Handled(Failure(SERVER_ERROR, "Failed to create post"), st')
  }

  /** The discrepancy: a signed-in request with content writes exactly what the
      intended route writes, yet is answered 500 where the intended route
      answers 201 with the post. */
  lemma CreatePostWritesThenFails(uid: Id, st: Store, now: Time)
    requires uid != ""
    ensures var session := Some(Session(uid));
      var written := CreatePostAsWritten(session, Some("hi"), None, st, now);
      var intended := CreatePost(session, Some("hi"), None, st, now);
      && written.response == Failure(SERVER_ERROR, "Failed to create post")
      && intended.response.Success? && intended.response.status == CREATED
      && written.store == intended.store
  {
    var session := Some(Session(uid));
    assert HasUserId(session) && Truthy(Some("hi"));
    CreatedPostProjectionRefused();
  }

  /** POST: create a post from `content` and/or `image`, as the route is
      evidently meant to behave: 201 once both writes are done. The reply's
      body (an aggregation re-reading the post) is represented by the stored
      post. */
  function CreatePost(session: Option<Session>, content: Option<string>, image: Option<string>,
                      st: Store, now: Time): (r: Handled<Post>)
    ensures !HasUserId(session) ==> r == Handled(Failure(UNAUTHORIZED, "Unauthorized"), st)
    ensures HasUserId(session) && !Truthy(content) && !Truthy(image) ==>
      r == Handled(Failure(BAD_REQUEST, "Content or image is required"), st)
    ensures HasUserId(session) && (Truthy(content) || Truthy(image)) ==> r.response.Success?
    ensures r.response.Failure? ==> r.store == st
    ensures r.response.Success? ==>
      var p := r.response.body;
      && r.response.status == CREATED
      && p.id !in PostIds(st.posts)
      && p == Post(p.id, session.value.userId, content, image, now, now)
      && r.store == st.(posts := st.posts + [p], users := CountPost(st.users, session.value.userId))
  {
    if !HasUserId(session) then Handled(Failure(UNAUTHORIZED, "Unauthorized"), st)
    else if !Truthy(content) && !Truthy(image) then
      Handled(Failure(BAD_REQUEST, "Content or image is required"), st)
    else
      var uid := session.value.userId;
      var p := Post(FreshId(PostIds(st.posts)), uid, content, image, now, now);
      Handled(Success(CREATED, p), st.(posts := st.posts + [p], users := CountPost(st.users, uid)))
  }

  /** A created post shows up in its author's next feed with no likes or
      comments, provided the author has a user record and no like or comment
      already names the new id. */
  lemma CreatedPostInFeed(session: Option<Session>, content: Option<string>, image: Option<string>, st: Store, now: Time)
    requires HasUserId(session) && (Truthy(content) || Truthy(image))
    requires FindUser(st.users, session.value.userId).Some?
    requires forall i :: 0 <= i < |st.likes| ==> st.likes[i].postId in PostIds(st.posts)
    requires forall i :: 0 <= i < |st.comments| ==> st.comments[i].postId in PostIds(st.posts)
    ensures var r := CreatePost(session, content, image, st, now);
      exists e :: e in Feed(session, r.store).body && e.id == r.response.body.id
        && e.likesCount == 0 && e.commentsCount == 0 && !e.isLiked
  {
    var r := CreatePost(session, content, image, st, now);
    var uid := session.value.userId;
    var p := r.response.body;
    var st' := r.store;
    assert st'.posts == st.posts + [p] && st'.users == CountPost(st.users, uid);
    assert st'.likes == st.likes && st'.comments == st.comments;
    CountPostKeepsAuthor(st.users, uid);
    FreshPostHasNoReactions(st, p.id);
    var e := Entry(st', uid, p).value;
    assert e.likesCount == 0 && e.commentsCount == 0 && !e.isLiked;
    assert st'.posts[|st.posts|] == p;
    assert e in Joined(st', uid);
    assert e in FeedEntries(st', uid);
  }

  /** Counting a post keeps the author's record findable. */
  lemma CountPostKeepsAuthor(users: seq<User>, uid: Id)
    requires FindUser(users, uid).Some?
    ensures FindUser(CountPost(users, uid), uid).Some?
  {
    var i :| 0 <= i < |users| && users[i].id == uid;
    assert CountPost(users, uid)[i].id == uid;
  }

  /** No like or comment names an id that no post carries. */
  lemma FreshPostHasNoReactions(st: Store, pid: Id)
    requires pid !in PostIds(st.posts)
    requires forall i :: 0 <= i < |st.likes| ==> st.likes[i].postId in PostIds(st.posts)
    requires forall i :: 0 <= i < |st.comments| ==> st.comments[i].postId in PostIds(st.posts)
    ensures (set i: nat | i < |st.likes| && st.likes[i].postId == pid) == {}
    ensures (set i: nat | i < |st.comments| && st.comments[i].postId == pid) == {}
    ensures forall i :: 0 <= i < |st.likes| ==> st.likes[i].postId != pid
  {
  }
}
