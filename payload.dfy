/**
 * The one multicast message built per chat message: the sender's name as
 * title, a truncated preview as body, routing data, and fixed per-platform hints.
 */
module Payload {
  import opened Wrappers
  import opened Firestore

  /** Longest text shown unabridged in a preview. */
  const PreviewLimit: nat := 100
  const Ellipsis := "..."
  const DefaultSenderName := "Someone"
  const ClickAction := "FLUTTER_NOTIFICATION_CLICK"

  /** The notification preview of a message text (None when the message has no text). */
  function Preview(text: Option<string>): (r: string)
    ensures text.None? ==> r == ""
    ensures text.Some? && |text.value| <= PreviewLimit ==> r == text.value
    ensures text.Some? && |text.value| > PreviewLimit ==>
      |r| == PreviewLimit + |Ellipsis| && r[..PreviewLimit] == text.value[..PreviewLimit] && r[PreviewLimit..] == Ellipsis
    ensures |r| <= PreviewLimit + |Ellipsis|
  {
    match text
    case None => ""
    case Some(t) => if |t| > PreviewLimit then t[..PreviewLimit] + Ellipsis else t
  }

  /** The notification title: the author's profile name, or "Someone" when it is missing or empty. */
  function SenderName(names: map<Id, string>, authorId: Id): (r: string)
    ensures r != ""
    ensures authorId in names && names[authorId] != "" ==> r == names[authorId]
    ensures (authorId !in names || names[authorId] == "") ==> r == DefaultSenderName
  {
    if authorId in names && names[authorId] != "" then names[authorId] else DefaultSenderName
  }

  /** Android delivery hints (fixed). */
  datatype AndroidNotification = AndroidNotification(channelId: string, priority: string, defaultSound: bool)
  /** APNs delivery hints (fixed). */
  datatype Aps = Aps(badge: int, sound: string)

  const AndroidHints := AndroidNotification("chat_messages", "high", true)
  const ApnsHints := Aps(1, "default")

  /** A multicast message: one payload addressed to a list of device tokens. */
  datatype Multicast = Multicast(
    tokens: seq<string>,
    title: string,
    body: string,
    data: map<string, string>,
    android: AndroidNotification,
    apns: Aps)

  /** The payload sent for a message in `roomId` with id `messageId`. */
  function BuildPayload(tokens: seq<string>, senderName: string, preview: string,
                        roomId: Id, messageId: Id, authorId: Id): (p: Multicast)
    ensures p.tokens == tokens && p.title == senderName && p.body == preview
    ensures p.data.Keys == {"roomId", "messageId", "authorId", "click_action"}
    ensures p.data["roomId"] == roomId && p.data["messageId"] == messageId
    ensures p.data["authorId"] == authorId && p.data["click_action"] == ClickAction
    ensures p.android == AndroidHints && p.apns == ApnsHints
  {
    Multicast(tokens, senderName, preview,
      map["roomId" := roomId, "messageId" := messageId, "authorId" := authorId, "click_action" := ClickAction],
      AndroidHints, ApnsHints)
  }
}
