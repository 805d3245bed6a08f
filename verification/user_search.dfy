/** The user-search route: up to ten other users whose username or name
    matches the query, each with the caller's follow status. */
module UserSearch {
  import opened Wrappers
  import opened Documents
  import opened Http
  import Seqs

  /** The `limit` on the find. */
  const SEARCH_LIMIT: nat := 10

  /** One search hit as the route shapes it. */
  datatype UserResult = UserResult(id: Id, username: string, name: string, profilePicture: string, isFollowing: bool)

  /** A case-insensitive regular-expression match of the query against a
      field, supplied by the caller of the model. */
  type Matcher = (string, string) -> bool

  /** A user the find selects: not the caller, and matching on username or name. */
  predicate Candidate(u: User, uid: Id, q: string, matches: Matcher) {
    u.id != uid && (matches(q, u.username) || matches(q, u.name))
  }

  function CandidateFn(uid: Id, q: string, matches: Matcher): User -> bool {
    (u: User) => Candidate(u, uid, q, matches)
  }

  /** The find with its limit: the first SEARCH_LIMIT candidates in store order. */
  function Found(users: seq<User>, uid: Id, q: string, matches: Matcher): (found: seq<User>)
    ensures |found| <= SEARCH_LIMIT
    ensures forall i :: 0 <= i < |found| ==> found[i] in users && Candidate(found[i], uid, q, matches)
    ensures found <= Seqs.Filter(users, CandidateFn(uid, q, matches))
    ensures var n := |set j: nat | j < |users| && Candidate(users[j], uid, q, matches)|;
      |found| == if n <= SEARCH_LIMIT then n else SEARCH_LIMIT
  {
    var p := CandidateFn(uid, q, matches);
    assert Seqs.IndexSet(users, p) == set j: nat | j < |users| && Candidate(users[j], uid, q, matches);
    Seqs.Take(Seqs.Filter(users, p), SEARCH_LIMIT)
  }

  /** The caller's `following` list holds `id`; a missing caller record or a
      missing list means not following. */
  function Follows(current: Option<User>, id: Id): (b: bool)
    ensures b <==> current.Some? && current.value.following.Some? && id in current.value.following.value
  {
    match current
    case None => false
    case Some(me) =>
      match me.following
      case None => false
      case Some(ids) => Seqs.FindIndex(ids, (f: Id) => f == id).Some?
  }

  /** The reply entry for one hit. */
  function Describe(current: Option<User>, u: User): (r: UserResult)
    ensures r.id == u.id && r.username == u.username && r.name == u.name
    ensures Truthy(u.profilePicture) ==> r.profilePicture == u.profilePicture.value
    ensures !Truthy(u.profilePicture) ==> r.profilePicture == PLACEHOLDER_PICTURE
    ensures r.isFollowing <==> current.Some? && current.value.following.Some? && u.id in current.value.following.value
  {
    UserResult(u.id, u.username, u.name, OrElse(u.profilePicture, PLACEHOLDER_PICTURE), Follows(current, u.id))
  }

  /** GET: search for `q`. Read-only. */
  function SearchUsers(session: Option<Session>, q: Option<string>, st: Store, matches: Matcher): (r: Response<seq<UserResult>>)
    ensures !SignedIn(session) ==> r == Failure(UNAUTHORIZED, "Unauthorized")
    ensures SignedIn(session) && !Truthy(q) ==> r == Failure(BAD_REQUEST, "Search query is required")
    ensures SignedIn(session) && Truthy(q) ==> r.Success? && r.status == OK
    ensures r.Success? ==>
      var uid := session.value.userId;
      var found := Found(st.users, uid, q.value, matches);
      && |r.body| == |found| <= SEARCH_LIMIT
      && forall i :: 0 <= i < |r.body| ==>
           && r.body[i] == Describe(FindUser(st.users, uid), found[i])
           && r.body[i].id != uid
           && (matches(q.value, r.body[i].username) || matches(q.value, r.body[i].name))
  {
    if !SignedIn(session) then Failure(UNAUTHORIZED, "Unauthorized")
    else if !Truthy(q) then Failure(BAD_REQUEST, "Search query is required")
    else
      var uid := session.value.userId;
      var current := FindUser(st.users, uid);
      var found := Found(st.users, uid, q.value, matches);
      Success(OK, seq(|found|, i requires 0 <= i < |found| => Describe(current, found[i])))
  }

  /** A user left out of a search that returned fewer than SEARCH_LIMIT hits
      is the caller or does not match. */
  lemma ShortResultIsComplete(session: Option<Session>, q: Option<string>, st: Store, matches: Matcher, u: User)
    requires SignedIn(session) && Truthy(q)
    requires u in st.users
    ensures var hits := SearchUsers(session, q, st, matches).body;
      |hits| < SEARCH_LIMIT && (forall i :: 0 <= i < |hits| ==> hits[i].id != u.id) ==>
        !Candidate(u, session.value.userId, q.value, matches)
  {
  }
}
