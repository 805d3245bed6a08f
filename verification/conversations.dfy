/** The conversations route: listing the caller's conversations with their
    unread counts and last-message read flags (GET), and create-or-get of a
    one-to-one conversation (POST). */
module Conversations {
  import opened Wrappers
  import opened Documents
  import opened Http
  import Seqs

  /** The other participant's public profile, as the list shows it. */
  datatype UserCard = UserCard(
    id: Id,
    username: string,
    profilePicture: string,
    isOnline: bool,
    lastActive: Option<Time>)

  /** The conversation's last message, with whether the caller has seen it. */
  datatype LastMessageView = LastMessageView(content: string, sender: Id, timestamp: Time, read: bool)

  /** One entry of the conversation list. */
  datatype ConversationSummary = ConversationSummary(
    id: Id,
    user: UserCard,
    lastMessage: Option<LastMessageView>,
    unreadCount: nat)

  /** The reply to create-or-get. */
  datatype CreateReply = CreateReply(id: Id, existing: bool)

  // ---------------------------------------------------------------------------
  // Participant matching

  /** `uid` is among the conversation's participants (`"participants.userId": uid`). */
  predicate Involves(c: Conversation, uid: Id) {
    exists k :: 0 <= k < |c.participants| && c.participants[k].userId == uid
  }

  function InvolvesFn(uid: Id): Conversation -> bool {
    (c: Conversation) => Involves(c, uid)
  }

  /** Both users are participants (`participants: {$all: [{$elemMatch: a}, {$elemMatch: b}]}`). */
  predicate Between(c: Conversation, a: Id, b: Id) {
    Involves(c, a) && Involves(c, b)
  }

  function BetweenFn(a: Id, b: Id): Conversation -> bool {
    (c: Conversation) => Between(c, a, b)
  }

  /** The first participant that is not `uid`, if any. */
  function OtherParticipant(c: Conversation, uid: Id): (r: Option<Participant>)
    ensures r.Some? <==> exists k :: 0 <= k < |c.participants| && c.participants[k].userId != uid
    ensures r.Some? ==> r.value in c.participants && r.value.userId != uid
  {
    Seqs.Find(c.participants, (p: Participant) => p.userId != uid)
  }

  /** The caller's read mark: the `lastRead` of the caller's first participant
      entry, or the epoch when there is none. */
  function OwnLastRead(c: Conversation, uid: Id): (t: Time)
    ensures !Involves(c, uid) ==> t == EPOCH
    ensures forall k :: 0 <= k < |c.participants| && c.participants[k].userId == uid
                        && (forall j :: 0 <= j < k ==> c.participants[j].userId != uid) ==>
              t == c.participants[k].lastRead.GetOr(EPOCH)
  {
    match Seqs.Find(c.participants, (p: Participant) => p.userId == uid)
    case Some(p) => p.lastRead.GetOr(EPOCH)
    case None => EPOCH
  }

  // ---------------------------------------------------------------------------
  // GET

  /** A message of conversation `cid` sent by `other` after `lastRead`. */
  predicate IsUnread(m: Message, cid: Id, other: Id, lastRead: Time) {
    m.conversationId == cid && m.sender == other && m.timestamp > lastRead
  }

  function IsUnreadFn(cid: Id, other: Id, lastRead: Time): Message -> bool {
    (m: Message) => IsUnread(m, cid, other, lastRead)
  }

  /** The number of unread messages (`countDocuments`). */
  function UnreadCount(messages: seq<Message>, cid: Id, other: Id, lastRead: Time): (n: nat)
    ensures n == |set i: nat | i < |messages| && IsUnread(messages[i], cid, other, lastRead)|
    ensures n <= |messages|
  {
    var p := IsUnreadFn(cid, other, lastRead);
    assert Seqs.IndexSet(messages, p) ==
      set i: nat | i < |messages| && IsUnread(messages[i], cid, other, lastRead);
    Seqs.Count(messages, p)
  }

  function UpdatedAt(c: Conversation): int {
    c.updatedAt
  }

  /** The conversations the caller takes part in, newest update first. */
  function Listed(conversations: seq<Conversation>, uid: Id): (cs: seq<Conversation>)
    ensures forall i :: 0 <= i < |cs| ==> cs[i] in conversations && Involves(cs[i], uid)
    ensures forall j :: 0 <= j < |conversations| && Involves(conversations[j], uid) ==> conversations[j] in cs
    ensures |cs| == |set j: nat | j < |conversations| && Involves(conversations[j], uid)|
    ensures multiset(cs) == multiset(Seqs.Filter(conversations, InvolvesFn(uid)))
    ensures forall i, j :: 0 <= i < j < |cs| ==> cs[i].updatedAt >= cs[j].updatedAt
  {
    var p := InvolvesFn(uid);
    var mine := Seqs.Filter(conversations, p);
    assert Seqs.IndexSet(conversations, p) ==
      set j: nat | j < |conversations| && Involves(conversations[j], uid);
    var cs := Seqs.SortDesc(mine, UpdatedAt);
    Seqs.SameMembers(mine, cs);
    cs
  }

  /** A listed conversation the GET cannot render: it has no participant other
      than the caller, or that participant has no user record. */
  predicate Broken(st: Store, uid: Id, c: Conversation) {
    match OtherParticipant(c, uid)
    case None => true
    case Some(p) => FindUser(st.users, p.userId).None?
  }

  /** The list entry for one conversation, or None when it is broken. */
  function Summarize(st: Store, uid: Id, c: Conversation): (r: Option<ConversationSummary>)
    ensures r.None? <==> Broken(st, uid, c)
    ensures r.Some? ==> r.value.id == c.id
    ensures r.Some? ==> r.value.user.id != uid && Involves(c, r.value.user.id)
    ensures r.Some? ==>
      forall k :: 0 <= k < |c.participants| && c.participants[k].userId != uid
                  && (forall j :: 0 <= j < k ==> c.participants[j].userId == uid) ==>
        r.value.user.id == c.participants[k].userId
    ensures r.Some? ==> exists i :: 0 <= i < |st.users| && st.users[i].id == r.value.user.id
    ensures r.Some? ==>
      var u := FindUser(st.users, r.value.user.id).value;
      && r.value.user.username == u.username
      && (Truthy(u.profilePicture) ==> r.value.user.profilePicture == u.profilePicture.value)
      && (!Truthy(u.profilePicture) ==> r.value.user.profilePicture == PLACEHOLDER_PICTURE)
      && (r.value.user.isOnline <==> u.isOnline == Some(true))
      && r.value.user.lastActive == u.lastActive
    ensures r.Some? ==>
      r.value.unreadCount ==
        |set i: nat | i < |st.messages| && IsUnread(st.messages[i], c.id, r.value.user.id, OwnLastRead(c, uid))|
    ensures r.Some? ==> (r.value.lastMessage.Some? <==> c.lastMessage.Some?)
    ensures r.Some? && c.lastMessage.Some? ==>
      var lm := c.lastMessage.value;
      var v := r.value.lastMessage.value;
      && v.content == lm.content && v.sender == lm.sender && v.timestamp == lm.timestamp
      && (v.read <==> OwnLastRead(c, uid) >= lm.timestamp || lm.sender == uid)
  {
    match OtherParticipant(c, uid)
    case None => None
    case Some(other) =>
      match FindUser(st.users, other.userId)
      case None => None
      case Some(user) =>
        var lastRead := OwnLastRead(c, uid);
        Some(ConversationSummary(
          c.id,
          UserCard(user.id, user.username, OrElse(user.profilePicture, PLACEHOLDER_PICTURE),
                   user.isOnline.GetOr(false), user.lastActive),
          match c.lastMessage
          case None => None
          case Some(lm) =>
            Some(LastMessageView(lm.content, lm.sender, lm.timestamp,
                                 lastRead >= lm.timestamp || lm.sender == uid)),
          UnreadCount(st.messages, c.id, other.userId, lastRead)))
  }

  function SummarizeFn(st: Store, uid: Id): Conversation -> Option<ConversationSummary> {
    (c: Conversation) => Summarize(st, uid, c)
  }

  /** GET: the caller's conversation list. Read-only. */
  function ListConversations(session: Option<Session>, st: Store): (r: Response<seq<ConversationSummary>>)
    ensures !SignedIn(session) ==> r == Failure(UNAUTHORIZED, "Unauthorized")
    ensures SignedIn(session) ==>
      var cs := Listed(st.conversations, session.value.userId);
      && (r.Failure? <==> exists i :: 0 <= i < |cs| && Broken(st, session.value.userId, cs[i]))
      && (r.Failure? ==> r.status == SERVER_ERROR)
      && (r.Success? ==> r.status == OK && |r.body| == |cs|)
      && (r.Success? ==> forall i :: 0 <= i < |cs| ==> Summarize(st, session.value.userId, cs[i]) == Some(r.body[i]))
  {
    if !SignedIn(session) then Failure(UNAUTHORIZED, "Unauthorized")
    else
      var uid := session.value.userId;
      match Seqs.MapAll(Listed(st.conversations, uid), SummarizeFn(st, uid))
      case None => Failure(SERVER_ERROR, "Failed to fetch conversations")
      case Some(summaries) => Success(OK, summaries)
  }

  // ---------------------------------------------------------------------------
  // POST

  /** The first conversation containing both users, if any. */
  function FindBetween(conversations: seq<Conversation>, a: Id, b: Id): (r: Option<Conversation>)
    ensures r.Some? <==> exists i :: 0 <= i < |conversations| && Between(conversations[i], a, b)
    ensures r.Some? ==> r.value in conversations && Between(r.value, a, b)
  {
    Seqs.Find(conversations, BetweenFn(a, b))
  }

  /** The conversation create-or-get inserts for `caller` and `target`. */
  function NewConversation(id: Id, caller: Id, target: Id, now: Time): Conversation {
    Conversation(id, [Participant(caller, None), Participant(target, None)], None, now, now)
  }

  /** POST: create-or-get the one-to-one conversation with `userId`. */
  function CreateOrGet(session: Option<Session>, userId: Option<string>, st: Store, now: Time): (r: Handled<CreateReply>)
    ensures !SignedIn(session) ==> r == Handled(Failure(UNAUTHORIZED, "Unauthorized"), st)
    ensures SignedIn(session) && !Truthy(userId) ==> r == Handled(Failure(BAD_REQUEST, "Missing user ID"), st)
    ensures SignedIn(session) && Truthy(userId) && FindUser(st.users, userId.value).None? ==>
      r == Handled(Failure(NOT_FOUND, "User not found"), st)
    ensures r.response.Success? ==> r.response.status == OK
    ensures r.response.Success? && r.response.body.existing ==>
      && r.store == st
      && exists i :: 0 <= i < |st.conversations| && st.conversations[i].id == r.response.body.id
           && Between(st.conversations[i], session.value.userId, userId.value)
    ensures r.response.Success? && !r.response.body.existing ==>
      && (forall i :: 0 <= i < |st.conversations| ==> !Between(st.conversations[i], session.value.userId, userId.value))
      && r.response.body.id !in ConversationIds(st.conversations)
      && r.store == st.(conversations := st.conversations +
           [NewConversation(r.response.body.id, session.value.userId, userId.value, now)])
    ensures r.response.Failure? ==> r.store == st
    ensures SignedIn(session) && Truthy(userId) && FindUser(st.users, userId.value).Some? ==> r.response.Success?
  {
    if !SignedIn(session) then Handled(Failure(UNAUTHORIZED, "Unauthorized"), st)
    else if !Truthy(userId) then Handled(Failure(BAD_REQUEST, "Missing user ID"), st)
    else
      var caller := session.value.userId;
      var target := userId.value;
      match FindUser(st.users, target)
      case None => Handled(Failure(NOT_FOUND, "User not found"), st)
      case Some(_) =>
        match FindBetween(st.conversations, caller, target)
        case Some(c) => Handled(Success(OK, CreateReply(c.id, true)), st)
        case None =>
          var id := FreshId(ConversationIds(st.conversations));
          Handled(Success(OK, CreateReply(id, false)),
                  st.(conversations := st.conversations + [NewConversation(id, caller, target, now)]))
  }

  // ---------------------------------------------------------------------------
  // Laws of create-or-get

  /** The users taking part in a conversation. */
  ghost function Members(c: Conversation): set<Id> {
    set k | 0 <= k < |c.participants| :: c.participants[k].userId
  }

  /** No two conversations have the same members: at most one conversation
      per unordered pair of users. */
  ghost predicate OnePerPair(conversations: seq<Conversation>) {
    forall i, j :: 0 <= i < j < |conversations| ==> Members(conversations[i]) != Members(conversations[j])
  }

  lemma InvolvesMember(c: Conversation, uid: Id)
    ensures Involves(c, uid) <==> uid in Members(c)
  {
    if uid in Members(c) {
      var k :| 0 <= k < |c.participants| && c.participants[k].userId == uid;
    }
  }

  /** Create-or-get never creates a second conversation for a pair that
      already has one: sequentially, the one-per-pair invariant is kept. */
  lemma CreateOrGetKeepsOnePerPair(session: Option<Session>, userId: Option<string>, st: Store, now: Time)
    requires OnePerPair(st.conversations)
    ensures OnePerPair(CreateOrGet(session, userId, st, now).store.conversations)
  {
    var r := CreateOrGet(session, userId, st, now);
    if r.response.Success? && !r.response.body.existing {
      var caller, target := session.value.userId, userId.value;
      var c := NewConversation(r.response.body.id, caller, target, now);
      var cs := r.store.conversations;
      assert cs == st.conversations + [c];
      assert Members(c) == {caller, target} by {
        assert |c.participants| == 2;
        assert c.participants[0].userId == caller && c.participants[1].userId == target;
      }
      forall i | 0 <= i < |st.conversations|
        ensures Members(st.conversations[i]) != Members(c)
      {
        assert !Between(st.conversations[i], caller, target);
        InvolvesMember(st.conversations[i], caller);
        InvolvesMember(st.conversations[i], target);
      }
      forall i, j | 0 <= i < j < |cs| ensures Members(cs[i]) != Members(cs[j]) {
        if j < |st.conversations| {
          assert cs[i] == st.conversations[i] && cs[j] == st.conversations[j];
        } else {
          assert cs[i] == st.conversations[i] && cs[j] == c;
        }
      }
    }
  }

  /** Create-or-get keeps conversation ids distinct. */
  lemma CreateOrGetKeepsUniqueIds(session: Option<Session>, userId: Option<string>, st: Store, now: Time)
    requires UniqueIds(st)
    ensures UniqueIds(CreateOrGet(session, userId, st, now).store)
  {
    var r := CreateOrGet(session, userId, st, now);
    if r.response.Success? && !r.response.body.existing {
      var c := NewConversation(r.response.body.id, session.value.userId, userId.value, now);
      assert ConversationIds(st.conversations + [c]) == ConversationIds(st.conversations) + [c.id];
      DistinctSnoc(ConversationIds(st.conversations), c.id);
    }
  }

  /** Repeating a create-or-get that created a conversation returns that same
      conversation, now flagged as existing, and inserts nothing. */
  lemma CreateOrGetRepeat(session: Option<Session>, userId: Option<string>, st: Store, now: Time, later: Time)
    requires CreateOrGet(session, userId, st, now).response.Success?
    requires !CreateOrGet(session, userId, st, now).response.body.existing
    ensures var r := CreateOrGet(session, userId, st, now);
      CreateOrGet(session, userId, r.store, later) ==
        Handled(Success(OK, CreateReply(r.response.body.id, true)), r.store)
  {
    var r := CreateOrGet(session, userId, st, now);
    var caller, target := session.value.userId, userId.value;
    var c := NewConversation(r.response.body.id, caller, target, now);
    assert Involves(c, caller) by { assert c.participants[0].userId == caller; }
    assert Involves(c, target) by { assert c.participants[1].userId == target; }
    Seqs.FindIndexSnoc(st.conversations, c, BetweenFn(caller, target));
  }

  /** The caller and the target can be swapped: both requests see the same
      conversation (or the same absence of one) and get the same reply. */
  lemma CreateOrGetOrderIndependent(a: Id, b: Id, st: Store, now: Time)
    requires a != "" && b != ""
    requires FindUser(st.users, a).Some? && FindUser(st.users, b).Some?
    ensures CreateOrGet(Some(Session(a)), Some(b), st, now).response ==
            CreateOrGet(Some(Session(b)), Some(a), st, now).response
  {
    Seqs.FindIndexSamePredicate(st.conversations, BetweenFn(a, b), BetweenFn(b, a));
  }

  /** Once `a` has opened a conversation with `b`, `b` asking for one with `a`
      gets the same conversation, flagged as existing. */
  lemma CreateOrGetAnswered(a: Id, b: Id, st: Store, now: Time, later: Time)
    requires a != "" && b != ""
    requires FindUser(st.users, a).Some?
    requires CreateOrGet(Some(Session(a)), Some(b), st, now).response.Success?
    ensures var r := CreateOrGet(Some(Session(a)), Some(b), st, now);
      CreateOrGet(Some(Session(b)), Some(a), r.store, later) ==
        Handled(Success(OK, CreateReply(r.response.body.id, true)), r.store)
  {
    var r := CreateOrGet(Some(Session(a)), Some(b), st, now);
    if r.response.body.existing {
      CreateOrGetOrderIndependent(a, b, st, later);
    } else {
      CreateOrGetRepeat(Some(Session(a)), Some(b), st, now, later);
      CreateOrGetOrderIndependent(a, b, r.store, later);
    }
  }
}
