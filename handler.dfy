/**
 * The onNewMessage trigger: runs once for each message created under
 * rooms/{roomId}/messages/{messageId}, sends one multicast notification to the
 * other members' devices, prunes permanently failed tokens and records the
 * notification in each recipient's history.
 */
module NewMessage {
  import opened Wrappers
  import opened Firestore
  import opened Recipients
  import opened Payload
  import opened Delivery
  import opened History

  /** The message document's fields the trigger reads. */
  datatype MessageData = MessageData(authorId: Id, text: Option<string>)

  /** The trigger's return value: `null`, or the transport's batch response. */
  datatype HandlerResult = Null | Sent(responses: seq<SendResponse>)

  /** The room's member list; a missing `memberIds` field reads as empty. */
  function MemberIds(room: RoomDoc): (ms: seq<Id>)
    ensures room.memberIds.Some? ==> ms == room.memberIds.value
    ensures room.memberIds.None? ==> ms == []
  {
    if room.memberIds.Some? then room.memberIds.value else []
  }

  /** The transport answers every send with one response per token, in token order. */
  ghost predicate Aligned(transport: Multicast -> SendResult)
  {
    forall p :: transport(p).Responses? ==> |transport(p).responses| == |p.tokens|
  }

  /** The tokens collected for a message by `author` in `roomId` (none if the room is missing). */
  function Batch(rooms: map<Id, RoomDoc>, prefs: map<Id, Option<bool>>, tokens: map<Id, seq<TokenDoc>>,
                 roomId: Id, author: Id): (r: seq<string>)
    ensures roomId !in rooms ==> r == []
    ensures roomId in rooms && rooms[roomId].memberIds.None? ==> r == []
    ensures forall t :: t in r ==> t != ""
  {
    if roomId in rooms then CollectedTokens(MemberIds(rooms[roomId]), author, prefs, tokens) else []
  }

  /**
   * Handles one created message. `message` is the new document's data (None
   * when it has none) and `transport` is the multicast sender; the ghost `sent` is the
   * payload handed to it, or None when no send was made.
   */
  method OnNewMessage(db: Store, roomId: Id, messageId: Id, message: Option<MessageData>,
                      transport: Multicast -> SendResult) returns (r: HandlerResult, ghost sent: Option<Multicast>)
    requires Aligned(transport)
    modifies db`fcmTokens, db`notifications
    // No send without message data, without a room, or without a token.
    ensures sent.None? <==>
      message.None? || roomId !in old(db.rooms) ||
      Batch(old(db.rooms), old(db.prefs), old(db.fcmTokens), roomId, message.value.authorId) == []
    ensures sent.None? ==> r == Null && unchanged(db)
    // The one payload sent.
    ensures sent.Some? ==>
      && message.Some? && roomId in old(db.rooms)
      && sent.value == BuildPayload(
           Batch(old(db.rooms), old(db.prefs), old(db.fcmTokens), roomId, message.value.authorId),
           SenderName(old(db.names), message.value.authorId), Preview(message.value.text),
           roomId, messageId, message.value.authorId)
    // A send that throws: null, no pruning, no history.
    ensures sent.Some? && transport(sent.value).Throws? ==> r == Null && unchanged(db)
    // A send that answers: pruning of the permanently failed values, then one record per non-author entry.
    ensures sent.Some? && transport(sent.value).Responses? ==>
      var rs := transport(sent.value).responses;
      var author := message.value.authorId;
      && r == Sent(rs)
      && db.fcmTokens == PrunedAll(old(db.fcmTokens), TokensToPrune(sent.value.tokens, rs))
      && db.notifications == AppendHistory(old(db.notifications), MemberIds(old(db.rooms)[roomId]), author,
        NewNotification(SenderName(old(db.names), author), Preview(message.value.text), roomId, messageId))
  {
    sent := None;
    if message.None? {
      return Null, sent;
    }
    var authorId, text := message.value.authorId, message.value.text;

    if roomId !in db.rooms {
      return Null, sent;
    }
    var memberIds := MemberIds(db.rooms[roomId]);
    var senderName := SenderName(db.names, authorId);

    var tokensToNotify := CollectTokens(db, memberIds, authorId);
    if |tokensToNotify| == 0 {
      return Null, sent;
    }

    var messagePreview := Preview(text);
    var payload := BuildPayload(tokensToNotify, senderName, messagePreview, roomId, messageId, authorId);
    sent := Some(payload);

    var outcome := transport(payload);
    if outcome.Throws? {
      return Null, sent;
    }
    var responses := outcome.responses;

    if FailureCount(responses) > 0 {
      var failedTokens := SelectFailedTokens(tokensToNotify, responses);
      PruneTokens(db, failedTokens);
    } else {
      PrunedAllNothing(db.fcmTokens);
    }

    var record := NewNotification(senderName, messagePreview, roomId, messageId);
    RecordHistory(db, memberIds, authorId, record);
    r := Sent(responses);
  }

  /** Deletes, one value after the other, every token document holding one of `failedTokens`. */
  method PruneTokens(db: Store, failedTokens: seq<string>)
    modifies db`fcmTokens
    ensures db.fcmTokens == PrunedAll(old(db.fcmTokens), ValueSet(failedTokens))
  {
    PrunedAllNothing(db.fcmTokens);
    var i := 0;
    while i < |failedTokens|
      invariant 0 <= i <= |failedTokens|
      invariant db.fcmTokens == PrunedAll(old(db.fcmTokens), ValueSet(failedTokens[..i]))
    {
      var token := failedTokens[i];
      assert failedTokens[..i + 1][..i] == failedTokens[..i];
      PrunedAllTwice(old(db.fcmTokens), ValueSet(failedTokens[..i]), {token});
      db.DeleteTokensWithValue(token);
      i := i + 1;
    }
    assert failedTokens[..i] == failedTokens;
  }

  /** Adds `record` to the history of each entry of `memberIds` other than the author. */
  method RecordHistory(db: Store, memberIds: seq<Id>, authorId: Id, record: Notification)
    modifies db`notifications
    ensures db.notifications == AppendHistory(old(db.notifications), memberIds, authorId, record)
  {
    var k := 0;
    while k < |memberIds|
      invariant 0 <= k <= |memberIds|
      invariant db.notifications == AppendHistory(old(db.notifications), memberIds[..k], authorId, record)
    {
      assert memberIds[..k + 1][..k] == memberIds[..k];
      if memberIds[k] != authorId {
        db.AddNotification(memberIds[k], record);
      }
      k := k + 1;
    }
    assert memberIds[..k] == memberIds;
  }

  /*
   * The room [A, B, C] with a message by A, where B has opted out and C holds
   * t1 and t2, t2 being reported unregistered: only C's tokens are sent, only
   * t2 is deleted, and both B and C (not A) get a history record.
   */
  const ExamplePrefs: map<Id, Option<bool>> := map["B" := Some(false)]
  const ExampleTokens: map<Id, seq<TokenDoc>> :=
    map["A" := [TokenDoc(Some("tA"))], "B" := [TokenDoc(Some("tB"))],
        "C" := [TokenDoc(Some("t1")), TokenDoc(Some("t2"))]]
  const ExampleResponses := [SendResponse(true, None), SendResponse(false, Some(RegistrationTokenNotRegistered))]

  /** Only C's tokens make up the batch. */
  lemma ExampleBatch()
    ensures CollectedTokens(["A", "B", "C"], "A", ExamplePrefs, ExampleTokens) == ["t1", "t2"]
  {
    var ms := ["A", "B", "C"];
    assert ms[..2] == ["A", "B"] && ms[..2][..1] == ["A"] && ms[..2][..1][..0] == [];
    assert CollectedTokens([], "A", ExamplePrefs, ExampleTokens) == [];
    assert CollectedTokens(["A"], "A", ExamplePrefs, ExampleTokens) == [];
    assert !Eligible(ExamplePrefs, "A", "B");
    assert CollectedTokens(["A", "B"], "A", ExamplePrefs, ExampleTokens) == [];
    var c := ExampleTokens["C"];
    assert c[..1] == [TokenDoc(Some("t1"))] && c[..1][..0] == [];
    assert TruthyTokens(c[..1]) == ["t1"];
    assert TruthyTokens(c) == ["t1", "t2"];
    assert Eligible(ExamplePrefs, "A", "C");
    assert MemberTokens(ExamplePrefs, ExampleTokens, "A", "C") == ["t1", "t2"];
  }

  /** Only t2 is selected for pruning. */
  lemma ExampleFailed()
    ensures TokensToPrune(["t1", "t2"], ExampleResponses) == {"t2"}
  {
    var rs := ExampleResponses;
    assert rs[..1] == [SendResponse(true, None)] && rs[..1][..0] == [];
    assert ["t1", "t2"][..1] == ["t1"] && ["t1"][..0] == [];
    assert FailureCount(rs[..1]) == 0;
    assert FailureCount(rs) == 1;
    assert FailedTokens(["t1"], rs[..1]) == [];
    assert FailedTokens(["t1", "t2"], rs) == ["t2"];
    assert ["t2"][..0] == [];
  }

  /** Deleting t2 from each owner's token documents. */
  lemma ExampleDeletion()
    ensures Pruned([TokenDoc(Some("t1")), TokenDoc(Some("t2"))], {"t2"}) == [TokenDoc(Some("t1"))]
    ensures Pruned([TokenDoc(Some("tA"))], {"t2"}) == [TokenDoc(Some("tA"))]
    ensures Pruned([TokenDoc(Some("tB"))], {"t2"}) == [TokenDoc(Some("tB"))]
  {
    assert "t1"[1] != "t2"[1] && "tA"[1] != "t2"[1] && "tB"[1] != "t2"[1];
    var c := [TokenDoc(Some("t1")), TokenDoc(Some("t2"))];
    assert c[1..] == [TokenDoc(Some("t2"))] && c[1..][1..] == [];
    assert [TokenDoc(Some("tA"))][1..] == [] && [TokenDoc(Some("tB"))][1..] == [];
  }

  /** Deleting t2 across the store removes C's second document and nothing else. */
  lemma ExamplePruning()
    ensures PrunedAll(ExampleTokens, {"t2"})
         == map["A" := [TokenDoc(Some("tA"))], "B" := [TokenDoc(Some("tB"))], "C" := [TokenDoc(Some("t1"))]]
  {
    ExampleDeletion();
    assert "A"[0] != "B"[0] && "A"[0] != "C"[0] && "B"[0] != "C"[0];
    var tokens := ExampleTokens;
    assert tokens["A"] == [TokenDoc(Some("tA"))] && tokens["B"] == [TokenDoc(Some("tB"))];
    assert tokens["C"] == [TokenDoc(Some("t1")), TokenDoc(Some("t2"))];
    var pruned := PrunedAll(tokens, {"t2"});
    assert pruned["A"] == Pruned(tokens["A"], {"t2"}) && pruned["B"] == Pruned(tokens["B"], {"t2"});
    assert pruned["C"] == Pruned(tokens["C"], {"t2"});
  }

  /** B, although opted out, and C each get one record; A gets none. */
  lemma ExampleHistory(rec: Notification)
    ensures var history := AppendHistory(map[], ["A", "B", "C"], "A", rec);
      history.Keys == {"B", "C"} && history["B"] == [rec] && history["C"] == [rec]
  {
    var ms := ["A", "B", "C"];
    assert ms[..2] == ["A", "B"] && ms[..2][..1] == ["A"] && ms[..2][..1][..0] == [];
    var none: map<Id, seq<Notification>> := map[];
    assert AppendHistory(none, [], "A", rec) == none;
    assert AppendHistory(none, ["A"], "A", rec) == none;
    assert ["A", "B"][..1] == ["A"] && ["A"][..0] == [];
    assert "A" != "B" && "A" != "C" && HistoryOf(none, "B") == [];
    var empty: seq<Notification> := [];
    assert empty + [rec] == [rec];
    assert AppendHistory(none, ["A", "B"], "A", rec) == none["B" := empty + [rec]];
    assert AppendHistory(none, ["A", "B"], "A", rec) == map["B" := [rec]];
    assert "B" != "C";
    assert AppendHistory(none, ms, "A", rec) == map["B" := [rec], "C" := [rec]];
  }
}
