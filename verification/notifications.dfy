/** The notification inbox: the caller's notifications, newest first, limited
    to fifty, then joined with the acting user. */
module Notifications {
  import opened Wrappers
  import opened Documents
  import opened Http
  import Seqs

  /** The `$limit` stage. */
  const LIMIT: nat := 50

  /** The projected actor: only these four user fields leave the server. */
  datatype ActorCard = ActorCard(id: Id, name: string, username: string, image: Option<string>)

  /** The projected notification. */
  datatype NotificationView = NotificationView(
    id: Id,
    kind: string,
    read: bool,
    createdAt: Time,
    postId: Option<Id>,
    actor: ActorCard)

  function AddressedTo(uid: Id): Notification -> bool {
    (n: Notification) => n.userId == uid
  }

  function CreatedAt(n: Notification): int {
    n.createdAt
  }

  function ViewCreatedAt(v: NotificationView): int {
    v.createdAt
  }

  /** The notifications addressed to `uid`, newest first (match and sort). */
  function Addressed(notifications: seq<Notification>, uid: Id): (ns: seq<Notification>)
    ensures multiset(ns) == multiset(Seqs.Filter(notifications, AddressedTo(uid)))
    ensures |ns| == |set j: nat | j < |notifications| && notifications[j].userId == uid|
    ensures Seqs.SortedDesc(ns, CreatedAt)
  {
    var p := AddressedTo(uid);
    assert Seqs.IndexSet(notifications, p) == set j: nat | j < |notifications| && notifications[j].userId == uid;
    Seqs.SortDesc(Seqs.Filter(notifications, p), CreatedAt)
  }

  /** The match, sort and limit stages: the newest notifications addressed to
      `uid`, at most LIMIT of them. */
  function Newest(notifications: seq<Notification>, uid: Id): (ns: seq<Notification>)
    ensures |ns| <= LIMIT
    ensures forall i :: 0 <= i < |ns| ==> ns[i] in notifications && ns[i].userId == uid
    ensures multiset(ns) <= multiset(Seqs.Filter(notifications, AddressedTo(uid)))
    ensures Seqs.SortedDesc(ns, CreatedAt)
    ensures var addressed := |set j: nat | j < |notifications| && notifications[j].userId == uid|;
      |ns| == if addressed <= LIMIT then addressed else LIMIT
  {
    var sorted := Addressed(notifications, uid);
    var ns := Seqs.Take(sorted, LIMIT);
    forall i | 0 <= i < |ns| ensures ns[i] in notifications && ns[i].userId == uid {
      assert ns[i] == sorted[i];
      assert sorted[i] in multiset(sorted);
    }
    Seqs.TakeSubMultiset(sorted, LIMIT);
    ns
  }

  /** What the limit leaves out is never newer than what it keeps. */
  lemma NewestAreNewest(notifications: seq<Notification>, uid: Id, j: nat)
    requires j < |notifications| && notifications[j].userId == uid
    requires notifications[j] !in Newest(notifications, uid)
    ensures forall i :: 0 <= i < |Newest(notifications, uid)| ==>
      Newest(notifications, uid)[i].createdAt >= notifications[j].createdAt
  {
    var mine := Seqs.Filter(notifications, AddressedTo(uid));
    assert notifications[j] in mine;
    Seqs.TakeSortedKeepsLargest(mine, CreatedAt, LIMIT, notifications[j]);
  }

  /** The lookup and unwind stages for one notification: None when its actor
      has no user record (the notification is dropped). */
  function Join(users: seq<User>, n: Notification): (r: Option<NotificationView>)
    ensures r.Some? <==> exists i :: 0 <= i < |users| && users[i].id == n.actorId
    ensures r.Some? ==>
      && r.value.id == n.id && r.value.kind == n.kind && r.value.read == n.read
      && r.value.createdAt == n.createdAt && r.value.postId == n.postId
      && var u := FindUser(users, n.actorId).value;
         r.value.actor == ActorCard(u.id, u.name, u.username, u.image)
  {
    match FindUser(users, n.actorId)
    case None => None
    case Some(u) =>
      Some(NotificationView(n.id, n.kind, n.read, n.createdAt, n.postId,
                            ActorCard(u.id, u.name, u.username, u.image)))
  }

  function JoinFn(users: seq<User>): Notification -> Option<NotificationView> {
    (n: Notification) => Join(users, n)
  }

  /** The join applied to an already limited list: one entry per notification
      whose actor exists, in the same order. */
  function JoinAll(users: seq<User>, ns: seq<Notification>): (vs: seq<NotificationView>)
    requires Seqs.SortedDesc(ns, CreatedAt)
    ensures |vs| == |set i: nat | i < |ns| && Join(users, ns[i]).Some?|
    ensures forall i :: 0 <= i < |vs| ==> exists j :: 0 <= j < |ns| && Join(users, ns[j]) == Some(vs[i])
    ensures forall j :: 0 <= j < |ns| && Join(users, ns[j]).Some? ==> Join(users, ns[j]).value in vs
    ensures Seqs.SortedDesc(vs, ViewCreatedAt)
  {
    var f := JoinFn(users);
    assert Seqs.IndexSet(ns, Seqs.Defined(f)) == set i: nat | i < |ns| && Join(users, ns[i]).Some? by {
      forall i: nat | i < |ns| ensures Seqs.Defined(f)(ns[i]) == Join(users, ns[i]).Some? { }
    }
    Seqs.FilterMapSorted(ns, f, CreatedAt, ViewCreatedAt);
    Seqs.FilterMap(ns, f)
  }

  /** GET: the caller's inbox. Read-only. */
  function ListNotifications(session: Option<Session>, st: Store): (r: Response<seq<NotificationView>>)
    ensures !HasUserId(session) <==> r == Failure(UNAUTHORIZED, "Unauthorized")
    ensures r.Success? ==> r.status == OK && |r.body| <= LIMIT
    ensures r.Success? ==> r.body == JoinAll(st.users, Newest(st.notifications, session.value.userId))
  {
    if !HasUserId(session) then Failure(UNAUTHORIZED, "Unauthorized")
    else Success(OK, JoinAll(st.users, Newest(st.notifications, session.value.userId)))
  }

  /** The limit is applied before the join: when one of the newest LIMIT
      notifications has lost its actor, fewer than LIMIT entries come back,
      however many older notifications the caller has. */
  lemma LimitBeforeJoin(users: seq<User>, ns: seq<Notification>, k: nat)
    requires Seqs.SortedDesc(ns, CreatedAt) && |ns| <= LIMIT
    requires k < |ns| && Join(users, ns[k]).None?
    ensures |JoinAll(users, ns)| < LIMIT
  {
    Seqs.MissingIndex(set i: nat | i < |ns| && Join(users, ns[i]).Some?, |ns|, k);
  }
}
