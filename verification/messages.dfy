/** The message route: sending a message into a conversation the caller takes
    part in, and refreshing the conversation's last-message summary. */
module Messages {
  import opened Wrappers
  import opened Documents
  import opened Http
  import Seqs
  import Conversations

  /** A conversation with id `cid` that has `uid` among its participants. */
  predicate Accessible(c: Conversation, cid: Id, uid: Id) {
    c.id == cid && Conversations.Involves(c, uid)
  }

  function AccessibleFn(cid: Id, uid: Id): Conversation -> bool {
    (c: Conversation) => Accessible(c, cid, uid)
  }

  /** The message document the route inserts; `mediaUrl` is spread in only
      when it is truthy. */
  function NewMessage(id: Id, cid: Id, sender: Id, content: string, mediaUrl: Option<string>, now: Time): (m: Message)
    ensures m.id == id && m.conversationId == cid && m.content == content
    ensures m.status == Sent && m.timestamp == now && m.sender == sender
    ensures m.mediaUrl.Some? <==> Truthy(mediaUrl)
    ensures m.mediaUrl.Some? ==> m.mediaUrl == mediaUrl
  {
    Message(id, cid, sender, content, now, Sent, if Truthy(mediaUrl) then mediaUrl else None)
  }

  /** The conversation after a message from `sender` at `later`: only its
      last-message summary and update time change. */
  function WithLastMessage(c: Conversation, content: string, sender: Id, later: Time): (c': Conversation)
    ensures c'.id == c.id && c'.participants == c.participants && c'.createdAt == c.createdAt
    ensures c'.lastMessage == Some(LastMessage(content, sender, later)) && c'.updatedAt == later
  {
    c.(lastMessage := Some(LastMessage(content, sender, later)), updatedAt := later)
  }

  /** POST: send `content` (and an optional `mediaUrl`) into conversation
      `conversationId`. The message is stamped `now`; the conversation's
      summary is written afterwards with the later reading `later`. */
  function SendMessage(session: Option<Session>, conversationId: Option<string>, content: Option<string>,
                       mediaUrl: Option<string>, st: Store, now: Time, later: Time): (r: Handled<Message>)
    ensures !SignedIn(session) ==> r == Handled(Failure(UNAUTHORIZED, "Unauthorized"), st)
    ensures SignedIn(session) && (!Truthy(conversationId) || !Truthy(content)) ==>
      r == Handled(Failure(BAD_REQUEST, "Missing required fields"), st)
    ensures SignedIn(session) && Truthy(conversationId) && Truthy(content) ==>
      (r.response == Failure(NOT_FOUND, "Conversation not found") <==>
       forall i :: 0 <= i < |st.conversations| ==> !Accessible(st.conversations[i], conversationId.value, session.value.userId))
    ensures r.response.Failure? ==> r.store == st
    ensures r.response.Success? ==>
      var m := r.response.body;
      var uid := session.value.userId;
      var cid := conversationId.value;
      && r.response.status == OK
      && m.id !in MessageIds(st.messages)
      && m == NewMessage(m.id, cid, uid, content.value, mediaUrl, now)
      && r.store.messages == st.messages + [m]
      && exists k :: 0 <= k < |st.conversations| && st.conversations[k].id == cid
           && (forall j :: 0 <= j < k ==> st.conversations[j].id != cid)
           && r.store == st.(messages := st.messages + [m],
                             conversations := st.conversations[k := WithLastMessage(st.conversations[k], content.value, uid, later)])
  {
    if !SignedIn(session) then Handled(Failure(UNAUTHORIZED, "Unauthorized"), st)
    else if !Truthy(conversationId) || !Truthy(content) then
      Handled(Failure(BAD_REQUEST, "Missing required fields"), st)
    else
      var uid := session.value.userId;
      var cid := conversationId.value;
      match Seqs.FindIndex(st.conversations, AccessibleFn(cid, uid))
      case None => Handled(Failure(NOT_FOUND, "Conversation not found"), st)
      case Some(found) =>
        var m := NewMessage(FreshId(MessageIds(st.messages)), cid, uid, content.value, mediaUrl, now);
        // The summary update matches on the id alone: the first conversation with that id.
        match ConversationIndex(st.conversations, cid)
        case Some(k) =>
          Handled(Success(OK, m),
                  st.(messages := st.messages + [m],
                      conversations := st.conversations[k := WithLastMessage(st.conversations[k], content.value, uid, later)]))
  }

  // ---------------------------------------------------------------------------
  // Laws

  /** A send changes no conversation's participants or read marks, and keeps
      every conversation other than the summarised one as it was. */
  lemma SendKeepsParticipants(session: Option<Session>, conversationId: Option<string>, content: Option<string>,
                              mediaUrl: Option<string>, st: Store, now: Time, later: Time)
    ensures var st' := SendMessage(session, conversationId, content, mediaUrl, st, now, later).store;
      && |st'.conversations| == |st.conversations|
      && (forall i :: 0 <= i < |st.conversations| ==>
            st'.conversations[i].participants == st.conversations[i].participants
            && st'.conversations[i].id == st.conversations[i].id
            && st'.conversations[i].createdAt == st.conversations[i].createdAt)
      && (forall i :: 0 <= i < |st.conversations| && (!Truthy(conversationId) || st.conversations[i].id != conversationId.value) ==>
            st'.conversations[i] == st.conversations[i])
  {
  }

  /** A send keeps every collection's ids distinct. */
  lemma SendKeepsUniqueIds(session: Option<Session>, conversationId: Option<string>, content: Option<string>,
                           mediaUrl: Option<string>, st: Store, now: Time, later: Time)
    requires UniqueIds(st)
    ensures UniqueIds(SendMessage(session, conversationId, content, mediaUrl, st, now, later).store)
  {
    var r := SendMessage(session, conversationId, content, mediaUrl, st, now, later);
    if r.response.Success? {
      var m := r.response.body;
      assert MessageIds(st.messages + [m]) == MessageIds(st.messages) + [m.id];
      DistinctSnoc(MessageIds(st.messages), m.id);
      assert ConversationIds(r.store.conversations) == ConversationIds(st.conversations);
    }
  }
}
