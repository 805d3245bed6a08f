/** The message-status route: a whitelisted, unconditional overwrite of one
    message's delivery status. */
module MessageStatusRoute {
  import opened Wrappers
  import opened Documents
  import opened Http

  /** The status names a client may set; "sent" is not among them. */
  function ParseStatus(name: string): (r: Option<MessageStatus>)
    ensures r.Some? <==> name == "delivered" || name == "read"
    ensures r.Some? ==> r.value != Sent
  {
    if name == "delivered" then Some(Delivered)
    else if name == "read" then Some(Read)
    else None
  }

  /** The name a status is stored and reported under. */
  function StatusName(s: MessageStatus): string {
    match s
    case Sent => "sent"
    case Delivered => "delivered"
    case Read => "read"
  }

  /** The whitelist and the stored names agree: parsing accepts exactly the
      names of the two settable statuses, and gives back that status. */
  lemma ParseStatusRoundTrip(s: MessageStatus, name: string)
    ensures s != Sent ==> ParseStatus(StatusName(s)) == Some(s)
    ensures ParseStatus(name) == Some(s) ==> StatusName(s) == name
    ensures ParseStatus(StatusName(Sent)).None?
  {
  }

  /** POST: set message `messageId`'s status to `status`. Any caller with a
      session may set the status of any message. */
  function UpdateStatus(session: Option<Session>, messageId: Option<string>, status: Option<string>, st: Store): (r: Handled<bool>)
    ensures !SignedIn(session) ==> r == Handled(Failure(UNAUTHORIZED, "Unauthorized"), st)
    ensures SignedIn(session) ==>
      (r.response == Failure(BAD_REQUEST, "Invalid request") <==>
       !Truthy(messageId) || !Truthy(status) || ParseStatus(status.value).None?)
    ensures r.response.Failure? ==> r.store == st
    ensures r.response.Success? ==> r.response == Success(OK, true)
    ensures r.response.Success? ==>
      && r.store.(messages := st.messages) == st
      && |r.store.messages| == |st.messages|
      && forall i :: 0 <= i < |st.messages| ==>
           if st.messages[i].id == messageId.value && forall j :: 0 <= j < i ==> st.messages[j].id != messageId.value
           then r.store.messages[i] == st.messages[i].(status := ParseStatus(status.value).value)
           else r.store.messages[i] == st.messages[i]
  {
    if !SignedIn(session) then Handled(Failure(UNAUTHORIZED, "Unauthorized"), st)
    else if !Truthy(messageId) || !Truthy(status) || ParseStatus(status.value).None? then
      Handled(Failure(BAD_REQUEST, "Invalid request"), st)
    else
      var s := ParseStatus(status.value).value;
      match MessageIndex(st.messages, messageId.value)
      case None => Handled(Success(OK, true), st)
      case Some(k) =>
        Handled(Success(OK, true), st.(messages := st.messages[k := st.messages[k].(status := s)]))
  }

  /** An unknown message id still succeeds, and nothing is written. */
  lemma UnknownMessageIsSilent(session: Option<Session>, messageId: string, status: string, st: Store)
    requires SignedIn(session) && messageId != "" && ParseStatus(status).Some?
    requires forall i :: 0 <= i < |st.messages| ==> st.messages[i].id != messageId
    ensures UpdateStatus(session, Some(messageId), Some(status), st) == Handled(Success(OK, true), st)
  {
  }

  /** There is no transition check: a message already read goes back to
      delivered when a stale "delivered" update arrives. */
  lemma ReadCanRegress(session: Option<Session>, st: Store, k: nat)
    requires SignedIn(session)
    requires k < |st.messages| && st.messages[k].id != "" && st.messages[k].status == Read
    requires forall j :: 0 <= j < k ==> st.messages[j].id != st.messages[k].id
    ensures UpdateStatus(session, Some(st.messages[k].id), Some("delivered"), st).store.messages[k].status == Delivered
  {
  }
}
