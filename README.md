# onNewMessage: push fan-out for a chat message

This project models the Cloud Function `onNewMessage` of the wallabie chat
backend. The function runs when a message document is created under
`rooms/{roomId}/messages/{messageId}`. It then:

1. resolves the room's `memberIds`;
2. skips the author and every member whose `user_preferences` document holds
   `notificationsEnabled === false`;
3. collects the remaining members' device tokens (`users/{uid}/fcmTokens`) into
   one list;
4. sends one multicast notification, with the sender's name as title and a
   preview of the text cut at 100 characters as body;
5. deletes, across all users, every token document whose value the transport
   reported as invalid or unregistered;
6. appends one record to `users/{uid}/notifications` for every member entry other
   than the author.

Files:

- `wrappers.dfy`: the `Option` type used for absent document fields.
- `firestore.dfy`: the documents and the `Store` class. `Store` holds one map per
  collection: rooms, user names, preferences, token documents and notification
  history. The file also defines value-based token deletion (`Pruned`,
  `PrunedAll`) and its laws.
- `recipients.dfy`: the preference rule, the token-collection specification
  `CollectedTokens`, and the member loop `CollectTokens` proved against it.
- `payload.dfy`: the preview, the sender name and the multicast payload.
- `delivery.dfy`: per-token send outcomes, the permanent-error test, and which
  tokens get pruned, with the `forEach` as `SelectFailedTokens`.
- `history.dfy`: the history record and the history-append specification.
- `handler.dfy`: the handler `OnNewMessage`, its deletion and history loops, and
  the worked example of a three-member room.

The FCM transport is a function parameter `transport: Multicast -> SendResult`.
It either throws or answers one response per token, in token order.
`OnNewMessage` requires that alignment (`Aligned`): it is the transport's
contract, not something the trigger checks. The handler also has a ghost output `sent`: the payload
it handed to the transport, or `None` when no send was made. This makes
"no send" visible in the contract. `failureCount` is not a separate input. It is
the number of unsuccessful responses (`Delivery.FailureCount`), so the
`failureCount > 0` guard is kept, and `TokensToPruneExact` shows that it changes
nothing.

Two consequences of the code that are easy to miss:

- History records do not depend on preferences or tokens. The loop at
  functions/src/index.ts:150-151 skips only the author, so after a send that
  does not throw, an opted-out member or a member without tokens still gets a
  record (`History.EveryRecipientRecorded`, `NewMessage.ExampleHistory`).
- A member listed twice in `memberIds` has their tokens collected twice. They
  also get two history records (`History.HistoryAppended` counts occurrences).

## Model

| member | source | states |
|---|---|---|
| Firestore.Pruned | functions/src/index.ts:136-146 | deleting by value never adds documents to an owner's tokens (what it keeps is stated by PrunedMultiplicity) |
| Firestore.PrunedAll | functions/src/index.ts:136-146 | deletion by value runs over every owner's tokens, keeping the set of owners |
| Firestore.PrunedMultiplicity | functions/src/index.ts:136-146 | documents holding a failed value are all gone; every other document keeps its multiplicity |
| Firestore.PrunedAllMultiplicity | functions/src/index.ts:136-146 | across the whole store, every document holding a failed value is gone from every owner and every other document keeps its multiplicity |
| Firestore.PrunedNothing | functions/src/index.ts:121-147 | deleting no value leaves an owner's token documents unchanged |
| Firestore.PrunedTwice | functions/src/index.ts:136-146 | deleting one value after another equals deleting their union at once |
| Firestore.Store.DeleteTokensWithValue | functions/src/index.ts:137-145 | the collection-group query and its deletes leave every owner's tokens minus the documents equal to the value |
| Firestore.Store.AddNotification | functions/src/index.ts:153-166 | one record is appended to the user's history; nothing else changes |
| Recipients.NotificationsEnabled | functions/src/index.ts:49-56 | a member without a preference document, or whose document lacks the field, is enabled; otherwise the field's boolean decides |
| Recipients.TruthyTokens | functions/src/index.ts:65-70 | a value is taken iff it is non-empty and held by one of the member's token documents |
| Recipients.PushTruthyTokens | functions/src/index.ts:65-70 | the inner `forEach` appends exactly the member's truthy tokens, in document order, to the list built so far |
| Recipients.CollectedTokens | functions/src/index.ts:41-71 | reference definition of the token list (each eligible member's truthy tokens, concatenated in `memberIds` order); its contract: no collected token is empty, and an empty member list gives an empty list |
| Recipients.CollectedAppend | functions/src/index.ts:41-71 | the token list follows room order: the list for `xs + ys` is the list for `xs` followed by the list for `ys` |
| Recipients.CollectedMembership | functions/src/index.ts:43-70 | a token is collected iff a member other than the author, not opted out, holds it (both directions) |
| Recipients.CollectedIgnoresIneligible | functions/src/index.ts:44-56 | the author's and opted-out members' token documents have no influence on the list |
| Recipients.DefaultAllow | functions/src/index.ts:49-56 | a missing preference document or field counts as enabled: all the member's truthy tokens are collected |
| Recipients.CollectTokens | functions/src/index.ts:41-71 | the member loop and inner `forEach` build exactly `CollectedTokens` for the room |
| Payload.Preview | functions/src/index.ts:79-80 | text over 100 characters becomes its first 100 plus `...` (length 103); shorter text is unchanged; absent text gives `""` |
| Payload.SenderName | functions/src/index.ts:37-38 | the title is the author's non-empty name, otherwise `Someone`; never empty |
| Payload.BuildPayload | functions/src/index.ts:83-110 | tokens, title, body, the four data fields and the fixed Android and APNs hints of the payload |
| Delivery.IsPermanentTokenError | functions/src/index.ts:125-129 | an error code is permanent iff it is present and is `messaging/invalid-registration-token` or `messaging/registration-token-not-registered` |
| Delivery.MarkedForPruning | functions/src/index.ts:124-131 | a successful response, one without an error code, or one with any other code is never marked; an unsuccessful one with either permanent code is |
| Delivery.TokensToPrune | functions/src/index.ts:121-133 | the values deleted are all among the sent tokens, and none are deleted when the failure count is zero |
| Delivery.FailureCount | functions/src/index.ts:114-121 | the failure count is zero iff every response succeeded |
| Delivery.FailedTokens | functions/src/index.ts:122-133 | a value is selected iff at some position it was sent and the response there is unsuccessful with one of the two permanent codes |
| Delivery.TokensToPruneExact | functions/src/index.ts:121-133 | with the `failureCount > 0` guard, the pruned values are still exactly those of the marked positions |
| Delivery.SuccessNeverPruned | functions/src/index.ts:123-133 | a token sent once is pruned iff its own response is a permanent failure; successes and other codes are kept |
| Delivery.SelectFailedTokens | functions/src/index.ts:122-133 | the `forEach` over the responses builds exactly `FailedTokens` |
| History.NewNotification | functions/src/index.ts:157-166 | the record has the sender's name, the preview, `{roomId, messageId}`, unread, a server timestamp |
| History.AppendHistory | functions/src/index.ts:150-167 | reference definition of the history loop; its contract: no user loses a history, and the author's history is untouched |
| History.HistoryAppended | functions/src/index.ts:150-167 | each user's history gains one copy of the record per non-author occurrence in `memberIds`, and nothing else |
| History.HistoryOwners | functions/src/index.ts:150-167 | the users with a history afterwards are those before plus every non-author member |
| History.EveryRecipientRecorded | functions/src/index.ts:150-151 | every non-author member, whatever their preference or tokens, ends with the new record |
| NewMessage.MemberIds | functions/src/index.ts:33-34 | a missing `memberIds` reads as the empty list |
| NewMessage.Batch | functions/src/index.ts:27-71 | the token list the handler sends: empty when the room is missing or has no `memberIds`, and holding no empty token |
| NewMessage.OnNewMessage | functions/src/index.ts:15-174 | no data, no room, or no tokens: `null`, no send, store unchanged. A throwing send: `null`, store unchanged. Otherwise: the built payload is sent, failed values are pruned, history is appended, and the response is returned |
| NewMessage.PruneTokens | functions/src/index.ts:136-146 | the deletion loop removes every document holding any failed value |
| NewMessage.RecordHistory | functions/src/index.ts:150-167 | the history loop produces exactly `AppendHistory` |
| NewMessage.ExampleBatch | functions/src/index.ts:41-71 | room [A, B, C], author A, B opted out: only C's tokens t1, t2 are sent |
| NewMessage.ExampleFailed | functions/src/index.ts:121-133 | t1 succeeded and t2 was reported unregistered: only t2 is selected for pruning |
| NewMessage.ExamplePruning | functions/src/index.ts:136-146 | deleting t2 removes C's t2 document; t1 and the other users' tokens stay |
| NewMessage.ExampleHistory | functions/src/index.ts:150-167 | B (opted out) and C each get one record; A gets none |

## Left out

- Trigger wiring, `admin.initializeApp` and the real Firestore and FCM clients are not modelled. The store is the `Store` class and the transport is a function parameter.
- Console logging is not modelled. `FieldValue.serverTimestamp()` is the constant `ServerTimestamp`.
- Deletions are modelled one after the other. In the code, the per-document deletes are `forEach(async …)` calls that are never awaited (functions/src/index.ts:142-145), so their timing is not modelled.
- Writes that fail partway through the `try` are not modelled. If the awaited token query `.get()` (functions/src/index.ts:137-140) or a history `add` (153-166) throws, the `catch` at 170 returns `null` with some writes already done. A failing `doc.ref.delete()` (143) is different: it runs inside an un-awaited `forEach(async …)` callback (142-145), so the `catch` never sees it. The handler goes on to the history loop and returns the response.
- NewMessage.OnNewMessage: the rejections before the `try` are not modelled. If the room, sender, preference or token read (functions/src/index.ts:27, 37, 49-52, 59-63) throws, the async handler rejects instead of returning `null`. A message without `authorId` in an existing room is rejected the same way, since `doc(undefined)` at line 37 throws. In a missing room, the room check at 27-31 runs first, so such a message still gets `null`. No write has happened by then, so the store is unchanged. `MessageData` makes `authorId` mandatory, and `HandlerResult` has no case for a rejection.
- The pruning query `collectionGroup("fcmTokens")` (functions/src/index.ts:137-140) matches every collection named `fcmTokens` in the database. `Store` models only the per-user `users/{uid}/fcmTokens` collections, so documents in any other `fcmTokens` collection are not modelled.
- Only the fields the handler reads are modelled. A message document carries `authorId` and an optional `text`. A preference is an optional boolean: a non-boolean value of `notificationsEnabled` is folded into "absent", which the code also treats as enabled. A token document has an optional `token` string. A user's name is absent when the profile or the field is missing.
- Text is a sequence of characters, not UTF-16 code units, so `substring` is not modelled at the code-unit level.
- NewMessage.OnNewMessage: the transport is assumed to answer one response per sent token. Under a misaligned answer, the code would index past `tokensToNotify`; that case is not modelled.
