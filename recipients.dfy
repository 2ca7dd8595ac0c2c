/**
 * Resolving a message into delivery tokens: every member of the room except
 * the author, minus those who opted out, contributes the non-empty `token`
 * values of its token documents, in room order.
 */
module Recipients {
  import opened Wrappers
  import opened Firestore

  /** Members are notified unless their preference document exists and holds exactly `false`. */
  predicate NotificationsEnabled(prefs: map<Id, Option<bool>>, u: Id)
    ensures u !in prefs ==> NotificationsEnabled(prefs, u)
    ensures u in prefs && prefs[u].None? ==> NotificationsEnabled(prefs, u)
    ensures u in prefs && prefs[u].Some? ==> (NotificationsEnabled(prefs, u) <==> prefs[u].value)
  {
    !(u in prefs && prefs[u] == Some(false))
  }

  /** Whether a token document carries a truthy (present, non-empty) token. */
  predicate IsTruthy(d: TokenDoc)
  {
    d.token.Some? && d.token.value != ""
  }

  /** The truthy token values of `docs`, in document order. */
  function TruthyTokens(docs: seq<TokenDoc>): (r: seq<string>)
    ensures |r| <= |docs|
    ensures forall t :: t in r <==> t != "" && TokenDoc(Some(t)) in docs
  {
    if docs == [] then []
    else
      var last := docs[|docs| - 1];
      TruthyTokens(docs[..|docs| - 1]) + (if IsTruthy(last) then [last.token.value] else [])
  }

  /** Whether member `m` may contribute tokens to a message written by `author`. */
  predicate Eligible(prefs: map<Id, Option<bool>>, author: Id, m: Id)
  {
    m != author && NotificationsEnabled(prefs, m)
  }

  /** What member `m` contributes to the token list. */
  function MemberTokens(prefs: map<Id, Option<bool>>, tokens: map<Id, seq<TokenDoc>>, author: Id, m: Id): seq<string>
  {
    if Eligible(prefs, author, m) then TruthyTokens(TokensOf(tokens, m)) else []
  }

  /** The token list built for a message by `author` in a room whose members are `ms`. */
  function CollectedTokens(ms: seq<Id>, author: Id, prefs: map<Id, Option<bool>>, tokens: map<Id, seq<TokenDoc>>): (r: seq<string>)
    ensures forall t :: t in r ==> t != ""
    ensures ms == [] ==> r == []
  {
    if ms == [] then []
    else CollectedTokens(ms[..|ms| - 1], author, prefs, tokens) + MemberTokens(prefs, tokens, author, ms[|ms| - 1])
  }

  /** The list for a concatenation of member lists is the concatenation of their lists: order follows the room. */
  lemma {:induction false} CollectedAppend(xs: seq<Id>, ys: seq<Id>, author: Id, prefs: map<Id, Option<bool>>, tokens: map<Id, seq<TokenDoc>>)
    ensures CollectedTokens(xs + ys, author, prefs, tokens)
         == CollectedTokens(xs, author, prefs, tokens) + CollectedTokens(ys, author, prefs, tokens)
  {
    if ys == [] {
      assert xs + ys == xs;
    } else {
      var ys' := ys[..|ys| - 1];
      assert (xs + ys)[..|xs + ys| - 1] == xs + ys';
      CollectedAppend(xs, ys', author, prefs, tokens);
    }
  }

  /**
   * A token is collected iff some member other than the author who has not
   * opted out holds it in a token document.
   */
  lemma {:induction false} CollectedMembership(ms: seq<Id>, author: Id, prefs: map<Id, Option<bool>>, tokens: map<Id, seq<TokenDoc>>, t: string)
    ensures t in CollectedTokens(ms, author, prefs, tokens)
        <==> exists m :: m in ms && Eligible(prefs, author, m) && t != "" && TokenDoc(Some(t)) in TokensOf(tokens, m)
  {
    if ms != [] {
      var init, last := ms[..|ms| - 1], ms[|ms| - 1];
      CollectedMembership(init, author, prefs, tokens, t);
      assert ms == init + [last];
      if t in CollectedTokens(ms, author, prefs, tokens) && t !in CollectedTokens(init, author, prefs, tokens) {
        assert last in ms;
      }
      forall m | m in ms && Eligible(prefs, author, m) && t != "" && TokenDoc(Some(t)) in TokensOf(tokens, m)
        ensures t in CollectedTokens(ms, author, prefs, tokens)
      {
        if m != last { assert m in init; }
      }
    }
  }

  /**
   * The author's token documents, and those of a member who opted out, have
   * no influence on the list: replacing them leaves it unchanged.
   */
  lemma {:induction false} CollectedIgnoresIneligible(ms: seq<Id>, author: Id, prefs: map<Id, Option<bool>>,
                                                      tokens: map<Id, seq<TokenDoc>>, u: Id, docs: seq<TokenDoc>)
    requires !Eligible(prefs, author, u)
    ensures CollectedTokens(ms, author, prefs, tokens[u := docs]) == CollectedTokens(ms, author, prefs, tokens)
  {
    if ms != [] {
      var last := ms[|ms| - 1];
      CollectedIgnoresIneligible(ms[..|ms| - 1], author, prefs, tokens, u, docs);
      if last != u {
        assert TokensOf(tokens[u := docs], last) == TokensOf(tokens, last);
      }
    }
  }

  /**
   * Default allow: a non-author member whose preference document is missing,
   * or lacks the field, has every truthy token collected.
   */
  lemma DefaultAllow(ms: seq<Id>, author: Id, prefs: map<Id, Option<bool>>, tokens: map<Id, seq<TokenDoc>>, m: Id, t: string)
    requires m in ms && m != author
    requires m !in prefs || prefs[m].None?
    requires t != "" && TokenDoc(Some(t)) in TokensOf(tokens, m)
    ensures t in CollectedTokens(ms, author, prefs, tokens)
  {
    CollectedMembership(ms, author, prefs, tokens, t);
  }

  /** The `forEach` over one member's token documents: pushes each truthy token onto `tokens`. */
  method PushTruthyTokens(tokens: seq<string>, docs: seq<TokenDoc>) returns (pushed: seq<string>)
    ensures pushed == tokens + TruthyTokens(docs)
  {
    pushed := tokens;
    var j := 0;
    while j < |docs|
      invariant 0 <= j <= |docs|
      invariant pushed == tokens + TruthyTokens(docs[..j])
    {
      assert docs[..j + 1][..j] == docs[..j];
      if IsTruthy(docs[j]) {
        pushed := pushed + [docs[j].token.value];
      }
      j := j + 1;
    }
    assert docs[..j] == docs;
  }

  /** The member loop: walks the room's members and pushes each eligible member's truthy tokens. */
  method CollectTokens(db: Store, memberIds: seq<Id>, authorId: Id) returns (tokensToNotify: seq<string>)
    ensures tokensToNotify == CollectedTokens(memberIds, authorId, db.prefs, db.fcmTokens)
  {
    tokensToNotify := [];
    var i := 0;
    while i < |memberIds|
      invariant 0 <= i <= |memberIds|
      invariant tokensToNotify == CollectedTokens(memberIds[..i], authorId, db.prefs, db.fcmTokens)
    {
      var memberId := memberIds[i];
      assert memberIds[..i + 1][..i] == memberIds[..i];
      if memberId != authorId && NotificationsEnabled(db.prefs, memberId) {
        tokensToNotify := PushTruthyTokens(tokensToNotify, TokensOf(db.fcmTokens, memberId));
      }
      i := i + 1;
    }
    assert memberIds[..i] == memberIds;
  }
}
