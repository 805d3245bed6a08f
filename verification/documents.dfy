/** The document store as an immutable value: one sequence per collection,
    in natural (insertion) order, with the documents' shapes taken from the
    application's models and from the fields its route handlers read and write. */
module Documents {
  import opened Wrappers
  import Seqs

  /** Document ids and user ids, in their string form. */
  type Id = string

  /** A clock reading, in milliseconds since the epoch. */
  type Time = int

  /** The epoch, `new Date(0)`. */
  const EPOCH: Time := 0

  /** A conversation member and the time up to which they have read it. */
  datatype Participant = Participant(userId: Id, lastRead: Option<Time>)

  /** The denormalised summary of a conversation's latest message. */
  datatype LastMessage = LastMessage(content: string, sender: Id, timestamp: Time)

  datatype Conversation = Conversation(
    id: Id,
    participants: seq<Participant>,
    lastMessage: Option<LastMessage>,
    createdAt: Time,
    updatedAt: Time)

  /** Delivery state of a message. */
  datatype MessageStatus = Sent | Delivered | Read

  datatype Message = Message(
    id: Id,
    conversationId: Id,
    sender: Id,
    content: string,
    timestamp: Time,
    status: MessageStatus,
    mediaUrl: Option<string>)

  /** A JSON scalar as a client may send it; the presence flag is stored as
      whatever value the client supplied. */
  datatype JsonValue = JNull | JBool(b: bool) | JNumber(n: int) | JString(s: string)

  datatype NotificationPrefs = NotificationPrefs(likes: bool, comments: bool, follows: bool, messages: bool)

  datatype Privacy = Privacy(isPrivate: bool, showActivity: bool)

  /** A user record. `profilePicture`, `isOnline` and `following` may be absent
      on records the signup route did not create; `online` and `lastActive` are
      written by the presence route. */
  datatype User = User(
    id: Id,
    name: string,
    email: string,
    username: string,
    password: string,
    image: Option<string>,
    profilePicture: Option<string>,
    bio: string,
    website: string,
    location: string,
    postsCount: nat,
    followersCount: nat,
    followingCount: nat,
    posts: seq<Id>,
    followers: seq<Id>,
    following: Option<seq<Id>>,
    savedPosts: seq<Id>,
    notificationPrefs: NotificationPrefs,
    privacy: Privacy,
    online: Option<JsonValue>,
    isOnline: Option<bool>,
    lastActive: Option<Time>,
    createdAt: Time,
    updatedAt: Time)

  /** A post; `content` and `image` are stored exactly as the client sent them. */
  datatype Post = Post(
    id: Id,
    userId: Id,
    content: Option<string>,
    image: Option<string>,
    createdAt: Time,
    updatedAt: Time)

  datatype Like = Like(postId: Id, userId: Id)

  datatype Comment = Comment(postId: Id, userId: Id, content: string)

  /** A notification addressed to `userId` about an action of `actorId`. */
  datatype Notification = Notification(
    id: Id,
    userId: Id,
    actorId: Id,
    kind: string,
    postId: Option<Id>,
    read: bool,
    createdAt: Time)

  datatype Activity = Activity(id: Id, userId: Id, kind: string, message: string, createdAt: Time)

  datatype Store = Store(
    users: seq<User>,
    conversations: seq<Conversation>,
    messages: seq<Message>,
    posts: seq<Post>,
    likes: seq<Like>,
    comments: seq<Comment>,
    notifications: seq<Notification>,
    activities: seq<Activity>)

  // ---------------------------------------------------------------------------
  // Lookups by _id: the store's `findOne({_id})`, the first match in natural order.

  function FindUser(users: seq<User>, id: Id): (r: Option<User>)
    ensures r.Some? <==> exists i :: 0 <= i < |users| && users[i].id == id
    ensures r.Some? ==> r.value in users && r.value.id == id
  {
    Seqs.Find(users, (u: User) => u.id == id)
  }

  function UserIndex(users: seq<User>, id: Id): (r: Option<nat>)
    ensures r.Some? ==> r.value < |users| && users[r.value].id == id
    ensures r.Some? ==> forall j :: 0 <= j < r.value ==> users[j].id != id
    ensures r.None? <==> forall j :: 0 <= j < |users| ==> users[j].id != id
  {
    Seqs.FindIndex(users, (u: User) => u.id == id)
  }

  function ConversationIndex(conversations: seq<Conversation>, id: Id): (r: Option<nat>)
    ensures r.Some? ==> r.value < |conversations| && conversations[r.value].id == id
    ensures r.Some? ==> forall j :: 0 <= j < r.value ==> conversations[j].id != id
    ensures r.None? <==> forall j :: 0 <= j < |conversations| ==> conversations[j].id != id
  {
    Seqs.FindIndex(conversations, (c: Conversation) => c.id == id)
  }

  function MessageIndex(messages: seq<Message>, id: Id): (r: Option<nat>)
    ensures r.Some? ==> r.value < |messages| && messages[r.value].id == id
    ensures r.Some? ==> forall j :: 0 <= j < r.value ==> messages[j].id != id
    ensures r.None? <==> forall j :: 0 <= j < |messages| ==> messages[j].id != id
  {
    Seqs.FindIndex(messages, (m: Message) => m.id == id)
  }

  // ---------------------------------------------------------------------------
  // Id allocation. The store hands out an `_id` that no document of the
  // collection carries; the model picks one deterministically.

  /** The length of the longest id in `ids`. */
  function MaxLength(ids: seq<Id>): (n: nat)
    ensures forall i :: 0 <= i < |ids| ==> |ids[i]| <= n
    decreases |ids|
  {
    if |ids| == 0 then 0
    else
      var rest := MaxLength(ids[1..]);
      assert forall i :: 1 <= i < |ids| ==> ids[i] == ids[1..][i - 1];
      if |ids[0]| > rest then |ids[0]| else rest
  }

  /** An id longer than, hence different from, every id in `ids`. */
  function FreshId(ids: seq<Id>): (r: Id)
    ensures r !in ids
  {
    seq(MaxLength(ids) + 1, _ => '0')
  }

  function UserIds(users: seq<User>): (ids: seq<Id>)
    ensures |ids| == |users|
    ensures forall i :: 0 <= i < |users| ==> ids[i] == users[i].id
  {
    seq(|users|, i requires 0 <= i < |users| => users[i].id)
  }

  function ConversationIds(conversations: seq<Conversation>): (ids: seq<Id>)
    ensures |ids| == |conversations|
    ensures forall i :: 0 <= i < |conversations| ==> ids[i] == conversations[i].id
  {
    seq(|conversations|, i requires 0 <= i < |conversations| => conversations[i].id)
  }

  function MessageIds(messages: seq<Message>): (ids: seq<Id>)
    ensures |ids| == |messages|
    ensures forall i :: 0 <= i < |messages| ==> ids[i] == messages[i].id
  {
    seq(|messages|, i requires 0 <= i < |messages| => messages[i].id)
  }

  function PostIds(posts: seq<Post>): (ids: seq<Id>)
    ensures |ids| == |posts|
    ensures forall i :: 0 <= i < |posts| ==> ids[i] == posts[i].id
  {
    seq(|posts|, i requires 0 <= i < |posts| => posts[i].id)
  }

  function ActivityIds(activities: seq<Activity>): (ids: seq<Id>)
    ensures |ids| == |activities|
    ensures forall i :: 0 <= i < |activities| ==> ids[i] == activities[i].id
  {
    seq(|activities|, i requires 0 <= i < |activities| => activities[i].id)
  }

  /** No two elements of `ids` are equal. */
  predicate Distinct(ids: seq<Id>) {
    forall i, j :: 0 <= i < j < |ids| ==> ids[i] != ids[j]
  }

  /** Every collection's `_id`s are distinct (the store's built-in `_id`
      index). Uniqueness of usernames and emails is NOT part of it. */
  predicate UniqueIds(st: Store) {
    && Distinct(UserIds(st.users))
    && Distinct(ConversationIds(st.conversations))
    && Distinct(MessageIds(st.messages))
    && Distinct(PostIds(st.posts))
    && Distinct(ActivityIds(st.activities))
  }

  /** Appending an element whose id is fresh keeps the ids distinct. */
  lemma DistinctSnoc(ids: seq<Id>, id: Id)
    requires Distinct(ids)
    requires id !in ids
    ensures Distinct(ids + [id])
  {
    var s := ids + [id];
    forall i, j | 0 <= i < j < |s| ensures s[i] != s[j] {
      if j == |ids| {
        assert s[i] == ids[i];
      } else {
        assert s[i] == ids[i] && s[j] == ids[j];
      }
    }
  }
}
