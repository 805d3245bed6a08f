/** The conversation list page: the client-side username filter and how each
    row presents its last message and unread count. */
module MessagesPage {
  import opened Wrappers
  import opened Documents
  import opened Http
  import Seqs
  import Strings
  import opened Conversations

  /** The row's username contains the query, both lower-cased. */
  predicate MatchesQuery(c: ConversationSummary, q: string) {
    Strings.Contains(Strings.Lower(c.user.username), Strings.Lower(q))
  }

  function MatchesQueryFn(q: string): ConversationSummary -> bool {
    (c: ConversationSummary) => MatchesQuery(c, q)
  }

  /** `filteredConversations`: an empty query shows every conversation;
      otherwise exactly those whose username matches, in list order. */
  function FilterConversations(cs: seq<ConversationSummary>, q: string): (r: seq<ConversationSummary>)
    ensures q == "" ==> r == cs
    ensures q != "" ==> |r| == |set i: nat | i < |cs| && MatchesQuery(cs[i], q)|
    ensures q != "" ==> forall i :: 0 <= i < |r| ==> r[i] in cs && MatchesQuery(r[i], q)
    ensures q != "" ==> forall i :: 0 <= i < |cs| && MatchesQuery(cs[i], q) ==> cs[i] in r
  {
    if q == "" then cs
    else
      var p := MatchesQueryFn(q);
      assert Seqs.IndexSet(cs, p) == set i: nat | i < |cs| && MatchesQuery(cs[i], q);
      Seqs.Filter(cs, p)
  }

  /** The filter keeps list order: filtering a list split in two is filtering
      each part and putting them back together. */
  lemma FilterKeepsOrder(a: seq<ConversationSummary>, b: seq<ConversationSummary>, q: string)
    ensures FilterConversations(a + b, q) == FilterConversations(a, q) + FilterConversations(b, q)
  {
    if q != "" {
      Seqs.FilterAppend(a, b, MatchesQueryFn(q));
    }
  }

  /** The last message was sent by the signed-in user (`sender === session?.user.id`). */
  predicate FromMe(session: Option<Session>, c: ConversationSummary) {
    c.lastMessage.Some? && session.Some? && c.lastMessage.value.sender == session.value.userId
  }

  /** What one row shows. */
  datatype Row = Row(preview: Option<string>, highlighted: bool, badge: Option<nat>)

  function RenderRow(session: Option<Session>, c: ConversationSummary): (r: Row)
    ensures r.preview.Some? <==> c.lastMessage.Some?
    ensures c.lastMessage.Some? ==>
      r.preview.value == (if FromMe(session, c) then "You: " else "") + c.lastMessage.value.content
    ensures r.highlighted <==> c.unreadCount > 0
    ensures r.badge.Some? <==> c.unreadCount > 0
    ensures r.badge.Some? ==> r.badge.value == c.unreadCount
  {
    Row(match c.lastMessage
        case None => None
        case Some(lm) => Some((if FromMe(session, c) then "You: " else "") + lm.content),
        c.unreadCount > 0,
        if c.unreadCount > 0 then Some(c.unreadCount) else None)
  }

  /** A row whose last message the caller sent shows that message as read. */
  lemma OwnLastMessageIsRead(session: Option<Session>, st: Store, i: nat)
    ensures var r := ListConversations(session, st);
      r.Success? && i < |r.body| && FromMe(session, r.body[i]) ==> r.body[i].lastMessage.value.read
  {
    var r := ListConversations(session, st);
    if r.Success? && i < |r.body| && FromMe(session, r.body[i]) {
      var cs := Listed(st.conversations, session.value.userId);
      assert Summarize(st, session.value.userId, cs[i]) == Some(r.body[i]);
    }
  }

  /** Each listed row is the summary of the listed conversation at its position. */
  lemma ListedRow(session: Option<Session>, st: Store, i: nat)
    ensures var r := ListConversations(session, st);
      r.Success? && i < |r.body| ==>
        && i < |Listed(st.conversations, session.value.userId)|
        && Summarize(st, session.value.userId, Listed(st.conversations, session.value.userId)[i]) == Some(r.body[i])
  {
  }

  /** A row is highlighted exactly when the other participant has a message in
      that conversation newer than the caller's read mark (with ListedRow,
      this holds for every row of the list). */
  lemma HighlightMeansUnread(session: Option<Session>, st: Store, conv: Conversation, c: ConversationSummary)
    requires session.Some?
    ensures Summarize(st, session.value.userId, conv) == Some(c) ==>
      (RenderRow(session, c).highlighted <==>
       exists j :: 0 <= j < |st.messages| && IsUnread(st.messages[j], conv.id, c.user.id, OwnLastRead(conv, session.value.userId)))
  {
    var uid := session.value.userId;
    if Summarize(st, uid, conv) == Some(c) {
      var p := IsUnreadFn(conv.id, c.user.id, OwnLastRead(conv, uid));
      assert Seqs.IndexSet(st.messages, p) == set j: nat | j < |st.messages| && IsUnread(st.messages[j], conv.id, c.user.id, OwnLastRead(conv, uid));
      Seqs.IndexSetNonEmpty(st.messages, p);
    }
  }
}
