/** The presence route: the caller's user record gets the reported status and
    a fresh last-active time. */
module Presence {
  import opened Wrappers
  import opened Documents
  import opened Http

  /** The caller's record with `online` and `lastActive` set (`$set` on the
      first record with that id; no record, no change). */
  function MarkPresence(users: seq<User>, uid: Id, status: JsonValue, now: Time): (us: seq<User>)
    ensures |us| == |users|
    ensures forall i :: 0 <= i < |users| ==>
      if users[i].id == uid && forall j :: 0 <= j < i ==> users[j].id != uid
      then us[i] == users[i].(online := Some(status), lastActive := Some(now))
      else us[i] == users[i]
  {
    match UserIndex(users, uid)
    case None => users
    case Some(k) => users[k := users[k].(online := Some(status), lastActive := Some(now))]
  }

  /** POST: report presence. `status` is whatever JSON value the body held
      under that key (a missing key reads as null); it is stored unchecked. */
  function SetPresence(session: Option<Session>, status: JsonValue, st: Store, now: Time): (r: Handled<bool>)
    ensures !HasUserId(session) <==> r == Handled(Failure(UNAUTHORIZED, "Unauthorized"), st)
    ensures HasUserId(session) ==> r.response == Success(OK, true)
    ensures r.store.(users := st.users) == st
    ensures HasUserId(session) ==> r.store.users == MarkPresence(st.users, session.value.userId, status, now)
  {
    if !HasUserId(session) then Handled(Failure(UNAUTHORIZED, "Unauthorized"), st)
    else Handled(Success(OK, true), st.(users := MarkPresence(st.users, session.value.userId, status, now)))
  }

  /** Only the caller's record changes, and in it only `online` and
      `lastActive`; the route answers success even when no record matched. */
  lemma PresenceTouchesOnlyCaller(session: Option<Session>, status: JsonValue, st: Store, now: Time, i: nat)
    requires HasUserId(session) && i < |st.users|
    ensures var u := SetPresence(session, status, st, now).store.users[i];
      && u.(online := st.users[i].online, lastActive := st.users[i].lastActive) == st.users[i]
      && (st.users[i].id != session.value.userId ==> u == st.users[i])
      && (u != st.users[i] ==> u.online == Some(status) && u.lastActive == Some(now))
  {
  }

  /** The caller's own record, when it exists, reads back the reported status. */
  lemma PresenceReadBack(session: Option<Session>, status: JsonValue, st: Store, now: Time)
    requires HasUserId(session)
    requires exists i :: 0 <= i < |st.users| && st.users[i].id == session.value.userId
    ensures var u := FindUser(SetPresence(session, status, st, now).store.users, session.value.userId);
      u.Some? && u.value.online == Some(status) && u.value.lastActive == Some(now)
  {
  }
}
