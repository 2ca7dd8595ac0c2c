/**
 * The part of the document store the message trigger touches: rooms, user
 * profiles, notification preferences, per-user device tokens and per-user
 * notification history. Each collection is a map keyed by document id; the
 * two per-user sub-collections are sequences of documents.
 */
module Firestore {
  import opened Wrappers

  type Id = string

  /** A document of users/{uid}/fcmTokens; `token` is None when the field is missing. */
  datatype TokenDoc = TokenDoc(token: Option<string>)

  /** The server-timestamp sentinel; the store substitutes its own clock on write. */
  datatype Timestamp = ServerTimestamp

  /** A document of users/{uid}/notifications. */
  datatype Notification = Notification(
    title: string,
    body: string,
    data: map<string, string>,
    isRead: bool,
    createdAt: Timestamp)

  /** A document of rooms/{roomId}; `memberIds` is None when the field is missing. */
  datatype RoomDoc = RoomDoc(memberIds: Option<seq<Id>>)

  /** The token documents of user `u` (an absent sub-collection is empty). */
  function TokensOf(tokens: map<Id, seq<TokenDoc>>, u: Id): seq<TokenDoc>
  {
    if u in tokens then tokens[u] else []
  }

  /** The notification history of user `u` (an absent sub-collection is empty). */
  function HistoryOf(notifications: map<Id, seq<Notification>>, u: Id): seq<Notification>
  {
    if u in notifications then notifications[u] else []
  }

  /** Whether a token document's `token` field equals one of `values`. */
  predicate HoldsValue(d: TokenDoc, values: set<string>)
  {
    d.token.Some? && d.token.value in values
  }

  /** The documents of `docs` that survive deleting every document holding one of `values`. */
  function Pruned(docs: seq<TokenDoc>, values: set<string>): (r: seq<TokenDoc>)
    ensures |r| <= |docs|
  {
    if docs == [] then []
    else (if HoldsValue(docs[0], values) then [] else [docs[0]]) + Pruned(docs[1..], values)
  }

  /** Every user's token documents after deleting, across all owners, those holding one of `values`. */
  function PrunedAll(tokens: map<Id, seq<TokenDoc>>, values: set<string>): (r: map<Id, seq<TokenDoc>>)
    ensures r.Keys == tokens.Keys
    ensures forall u :: u in r ==> r[u] == Pruned(tokens[u], values)
  {
    map u | u in tokens :: Pruned(tokens[u], values)
  }

  /** Deletion removes exactly the matching documents and keeps every other one with its multiplicity. */
  lemma {:induction false} PrunedMultiplicity(docs: seq<TokenDoc>, values: set<string>, d: TokenDoc)
    ensures multiset(Pruned(docs, values))[d] == if HoldsValue(d, values) then 0 else multiset(docs)[d]
  {
    if docs != [] {
      var head := if HoldsValue(docs[0], values) then [] else [docs[0]];
      PrunedMultiplicity(docs[1..], values, d);
      assert docs == [docs[0]] + docs[1..];
      assert multiset(Pruned(docs, values)) == multiset(head) + multiset(Pruned(docs[1..], values));
      assert multiset(docs) == multiset([docs[0]]) + multiset(docs[1..]);
    }
  }

  /**
   * Store-wide deletion: every document holding one of `values` is gone from
   * every owner, and every other document keeps its multiplicity.
   */
  lemma PrunedAllMultiplicity(tokens: map<Id, seq<TokenDoc>>, values: set<string>, u: Id, d: TokenDoc)
    requires u in tokens
    ensures u in PrunedAll(tokens, values)
    ensures multiset(PrunedAll(tokens, values)[u])[d] == if HoldsValue(d, values) then 0 else multiset(tokens[u])[d]
  {
    PrunedMultiplicity(tokens[u], values, d);
  }

  /** Deleting by no value deletes nothing. */
  lemma {:induction false} PrunedNothing(docs: seq<TokenDoc>)
    ensures Pruned(docs, {}) == docs
  {
    if docs != [] {
      PrunedNothing(docs[1..]);
      assert docs == [docs[0]] + docs[1..];
    }
  }

  /** Deleting value set `a` and then `b` is deleting `a + b` at once. */
  lemma {:induction false} PrunedTwice(docs: seq<TokenDoc>, a: set<string>, b: set<string>)
    ensures Pruned(Pruned(docs, a), b) == Pruned(docs, a + b)
  {
    if docs != [] {
      PrunedTwice(docs[1..], a, b);
      var rest := Pruned(docs[1..], a);
      var d := docs[0];
      if !HoldsValue(d, a) {
        var p := Pruned(docs, a);
        assert p == [d] + rest;
        assert p != [] && p[0] == d && p[1..] == rest;
        assert HoldsValue(d, a + b) == HoldsValue(d, b);
        assert Pruned(p, b) == (if HoldsValue(d, b) then [] else [d]) + Pruned(rest, b);
      } else {
        assert Pruned(docs, a) == rest;
        assert HoldsValue(d, a + b);
      }
    }
  }

  /** The whole-store form of PrunedNothing. */
  lemma PrunedAllNothing(tokens: map<Id, seq<TokenDoc>>)
    ensures PrunedAll(tokens, {}) == tokens
  {
    forall u | u in tokens ensures Pruned(tokens[u], {}) == tokens[u] {
      PrunedNothing(tokens[u]);
    }
  }

  /** The whole-store form of PrunedTwice. */
  lemma PrunedAllTwice(tokens: map<Id, seq<TokenDoc>>, a: set<string>, b: set<string>)
    ensures PrunedAll(PrunedAll(tokens, a), b) == PrunedAll(tokens, a + b)
  {
    forall u | u in tokens ensures Pruned(Pruned(tokens[u], a), b) == Pruned(tokens[u], a + b) {
      PrunedTwice(tokens[u], a, b);
    }
  }

  /** The document store, with one map per collection the trigger reads or writes. */
  class Store {
    var rooms: map<Id, RoomDoc>
    /** users/{uid}.name; a user without a profile or a name is absent. */
    var names: map<Id, string>
    /** user_preferences/{uid}.notificationsEnabled; a key is present iff the document exists. */
    var prefs: map<Id, Option<bool>>
    var fcmTokens: map<Id, seq<TokenDoc>>
    var notifications: map<Id, seq<Notification>>

    constructor (rooms: map<Id, RoomDoc>, names: map<Id, string>, prefs: map<Id, Option<bool>>,
                 fcmTokens: map<Id, seq<TokenDoc>>, notifications: map<Id, seq<Notification>>)
      ensures this.rooms == rooms && this.names == names && this.prefs == prefs
      ensures this.fcmTokens == fcmTokens && this.notifications == notifications
    {
      this.rooms := rooms;
      this.names := names;
      this.prefs := prefs;
      this.fcmTokens := fcmTokens;
      this.notifications := notifications;
    }

    /**
     * Runs the collection-group query for token documents whose `token` equals `v`
     * and deletes every document it returns, whoever owns it.
     */
    method DeleteTokensWithValue(v: string)
      modifies this`fcmTokens
      ensures fcmTokens == PrunedAll(old(fcmTokens), {v})
    {
      var owners := fcmTokens.Keys;
      while owners != {}
        invariant owners <= old(fcmTokens).Keys
        invariant fcmTokens.Keys == old(fcmTokens).Keys
        invariant forall u :: u in fcmTokens ==>
          fcmTokens[u] == if u in owners then old(fcmTokens)[u] else Pruned(old(fcmTokens)[u], {v})
        decreases owners
      {
        var u :| u in owners;
        fcmTokens := fcmTokens[u := Pruned(fcmTokens[u], {v})];
        owners := owners - {u};
      }
    }

    /** Adds one document to users/{u}/notifications. */
    method AddNotification(u: Id, n: Notification)
      modifies this`notifications
      ensures notifications == old(notifications)[u := HistoryOf(old(notifications), u) + [n]]
    {
      notifications := notifications[u := HistoryOf(notifications, u) + [n]];
    }
  }
}
