/**
 * The notification-history records written after a send: one per entry of the
 * room's member list other than the author, whatever that member's
 * preference or tokens.
 */
module History {
  import opened Firestore

  /** The history record for one message. */
  function NewNotification(senderName: string, preview: string, roomId: Id, messageId: Id): (n: Notification)
    ensures n.title == senderName && n.body == preview && !n.isRead
    ensures n.data.Keys == {"roomId", "messageId"} && n.data["roomId"] == roomId && n.data["messageId"] == messageId
    ensures n.createdAt == ServerTimestamp
  {
    Notification(senderName, preview, map["roomId" := roomId, "messageId" := messageId], false, ServerTimestamp)
  }

  /** The history after walking `ms` and adding `rec` for each entry other than `author`. */
  function AppendHistory(notifications: map<Id, seq<Notification>>, ms: seq<Id>, author: Id, rec: Notification): (r: map<Id, seq<Notification>>)
    ensures notifications.Keys <= r.Keys
    ensures HistoryOf(r, author) == HistoryOf(notifications, author)
  {
    if ms == [] then notifications
    else
      var before := AppendHistory(notifications, ms[..|ms| - 1], author, rec);
      var m := ms[|ms| - 1];
      if m == author then before else before[m := HistoryOf(before, m) + [rec]]
  }

  /** The number of occurrences of `u` in `ms`. */
  function Count(ms: seq<Id>, u: Id): (n: nat)
    ensures n <= |ms|
    ensures n == 0 <==> u !in ms
  {
    if ms == [] then 0
    else Count(ms[..|ms| - 1], u) + (if ms[|ms| - 1] == u then 1 else 0)
  }

  /** `k` copies of `x`. */
  function Repeat(x: Notification, k: nat): (r: seq<Notification>)
    ensures |r| == k && forall i :: 0 <= i < k ==> r[i] == x
  {
    if k == 0 then [] else Repeat(x, k - 1) + [x]
  }

  /**
   * Each user's history gains one copy of the record per occurrence in the
   * member list, none for the author; users outside the list are untouched.
   */
  lemma {:induction false} HistoryAppended(notifications: map<Id, seq<Notification>>, ms: seq<Id>, author: Id, rec: Notification, u: Id)
    ensures HistoryOf(AppendHistory(notifications, ms, author, rec), u)
         == HistoryOf(notifications, u) + Repeat(rec, if u == author then 0 else Count(ms, u))
  {
    if ms == [] {
      assert HistoryOf(notifications, u) + [] == HistoryOf(notifications, u);
    } else {
      HistoryAppended(notifications, ms[..|ms| - 1], author, rec, u);
    }
  }

  /** The users with a history afterwards are those before plus every non-author member. */
  lemma {:induction false} HistoryOwners(notifications: map<Id, seq<Notification>>, ms: seq<Id>, author: Id, rec: Notification)
    ensures AppendHistory(notifications, ms, author, rec).Keys == notifications.Keys + (set m | m in ms && m != author)
  {
    if ms != [] {
      var init := ms[..|ms| - 1];
      HistoryOwners(notifications, init, author, rec);
      assert ms == init + [ms[|ms| - 1]];
    }
  }

  /** Every non-author member, opted out or without tokens, gets at least one new record. */
  lemma EveryRecipientRecorded(notifications: map<Id, seq<Notification>>, ms: seq<Id>, author: Id, rec: Notification, u: Id)
    requires u in ms && u != author
    ensures var after := HistoryOf(AppendHistory(notifications, ms, author, rec), u);
      |after| > |HistoryOf(notifications, u)| && after[|after| - 1] == rec
  {
    HistoryAppended(notifications, ms, author, rec, u);
  }
}
