/**
 * Interpreting the transport's answer to a multicast send: which of the sent
 * tokens failed permanently and must be purged from the store.
 */
module Delivery {
  import opened Wrappers

  /** One per-token outcome; `errorCode` is the code of the error, when there is one. */
  datatype SendResponse = SendResponse(success: bool, errorCode: Option<string>)

  /** What the transport does with one send: throw, or answer one response per token, in token order. */
  datatype SendResult = Throws | Responses(responses: seq<SendResponse>)

  const InvalidRegistrationToken := "messaging/invalid-registration-token"
  const RegistrationTokenNotRegistered := "messaging/registration-token-not-registered"

  /** The two error codes that mean the token will never work again. */
  predicate IsPermanentTokenError(code: Option<string>)
    ensures IsPermanentTokenError(code) <==>
      code.Some? && code.value in {InvalidRegistrationToken, RegistrationTokenNotRegistered}
  {
    code == Some(InvalidRegistrationToken) || code == Some(RegistrationTokenNotRegistered)
  }

  /** A response whose token must be pruned. */
  predicate MarkedForPruning(r: SendResponse)
    ensures r.success ==> !MarkedForPruning(r)
    ensures !r.success && r.errorCode.Some? && !IsPermanentTokenError(r.errorCode) ==> !MarkedForPruning(r)
    ensures r.errorCode.None? ==> !MarkedForPruning(r)
    ensures !r.success && r.errorCode == Some(RegistrationTokenNotRegistered) ==> MarkedForPruning(r)
    ensures !r.success && r.errorCode == Some(InvalidRegistrationToken) ==> MarkedForPruning(r)
  {
    !r.success && IsPermanentTokenError(r.errorCode)
  }

  /** The number of unsuccessful responses (the batch's failureCount). */
  function FailureCount(rs: seq<SendResponse>): (n: nat)
    ensures n <= |rs|
    ensures n == 0 <==> forall i :: 0 <= i < |rs| ==> rs[i].success
  {
    if rs == [] then 0
    else FailureCount(rs[..|rs| - 1]) + (if rs[|rs| - 1].success then 0 else 1)
  }

  /** The sent tokens whose response is marked for pruning, in response order. */
  function FailedTokens(tokens: seq<string>, rs: seq<SendResponse>): (r: seq<string>)
    requires |tokens| == |rs|
    ensures |r| <= |rs|
    ensures forall t :: t in r <==> exists i :: 0 <= i < |rs| && MarkedForPruning(rs[i]) && tokens[i] == t
  {
    if rs == [] then []
    else
      var n := |rs| - 1;
      FailedTokens(tokens[..n], rs[..n]) + (if MarkedForPruning(rs[n]) then [tokens[n]] else [])
  }

  /** The values occurring in `s`. */
  function ValueSet(s: seq<string>): (r: set<string>)
    ensures forall t :: t in r <==> t in s
  {
    if s == [] then {} else ValueSet(s[..|s| - 1]) + {s[|s| - 1]}
  }

  /** The set of token values the handler deletes: none unless the batch reports a failure. */
  function TokensToPrune(tokens: seq<string>, rs: seq<SendResponse>): (r: set<string>)
    requires |tokens| == |rs|
    ensures forall t :: t in r ==> t in tokens
    ensures FailureCount(rs) == 0 ==> r == {}
  {
    if FailureCount(rs) > 0 then ValueSet(FailedTokens(tokens, rs)) else {}
  }

  /**
   * The failureCount guard is only a shortcut: with no failure no response is
   * marked, so the values pruned are exactly those of the marked responses.
   */
  lemma TokensToPruneExact(tokens: seq<string>, rs: seq<SendResponse>, t: string)
    requires |tokens| == |rs|
    ensures t in TokensToPrune(tokens, rs) <==> exists i :: 0 <= i < |rs| && MarkedForPruning(rs[i]) && tokens[i] == t
  {
  }

  /** A token sent at exactly one position is pruned only if its response there is marked. */
  lemma SuccessNeverPruned(tokens: seq<string>, rs: seq<SendResponse>, k: nat)
    requires |tokens| == |rs| && k < |rs|
    requires forall i :: 0 <= i < |rs| && i != k ==> tokens[i] != tokens[k]
    ensures tokens[k] in TokensToPrune(tokens, rs) <==> MarkedForPruning(rs[k])
  {
  }

  /** The forEach over the responses, pushing the token at each marked position. */
  method SelectFailedTokens(tokens: seq<string>, rs: seq<SendResponse>) returns (failedTokens: seq<string>)
    requires |tokens| == |rs|
    ensures failedTokens == FailedTokens(tokens, rs)
  {
    failedTokens := [];
    var idx := 0;
    while idx < |rs|
      invariant 0 <= idx <= |rs|
      invariant failedTokens == FailedTokens(tokens[..idx], rs[..idx])
    {
      assert tokens[..idx + 1][..idx] == tokens[..idx];
      assert rs[..idx + 1][..idx] == rs[..idx];
      if !rs[idx].success {
        var errorCode := rs[idx].errorCode;
        if errorCode == Some(InvalidRegistrationToken) || errorCode == Some(RegistrationTokenNotRegistered) {
          failedTokens := failedTokens + [tokens[idx]];
        }
      }
      idx := idx + 1;
    }
    assert tokens[..idx] == tokens && rs[..idx] == rs;
  }
}
