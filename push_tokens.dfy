/**
 * Push-token hygiene in the approval handler: which entries of `fcmTokens` are
 * sent to, which of them the multicast reply condemns, and what list is
 * written back after pruning.
 */
module PushTokens {
  import opened JsValues
  import opened Sequences

  /** The two error codes after which a token is dropped from the user's list. */
  const NotRegistered: string := "messaging/registration-token-not-registered"
  const InvalidRegistration: string := "messaging/invalid-registration-token"

  /** `typeof t === 'string' && t.trim().length > 0` */
  predicate IsUsableToken(v: JsValue) {
    v.Str? && |Trim(v.s)| > 0
  }

  /** The usable string elements of `xs`, in their original order. */
  function UsableStrings(xs: seq<JsValue>): (r: seq<string>)
    ensures |r| <= |xs|
    decreases |xs|
  {
    if xs == [] then []
    else if IsUsableToken(xs[0]) then [xs[0].s] + UsableStrings(xs[1..])
    else UsableStrings(xs[1..])
  }

  /** The token list the approval handler works with: the usable elements of
      `fcmTokens` when it is an array, and nothing otherwise. */
  function ValidTokens(fcmTokens: JsValue): (r: seq<string>)
    ensures !fcmTokens.Arr? ==> r == []
    ensures fcmTokens.Arr? ==> |r| <= |fcmTokens.elems|
  {
    if fcmTokens.Arr? then UsableStrings(fcmTokens.elems) else []
  }

  /** The tokens seen again as document values, to compare with the array they came from. */
  function AsJsStrings(ts: seq<string>): (r: seq<JsValue>)
    decreases |ts|
  {
    if ts == [] then [] else [Str(ts[0])] + AsJsStrings(ts[1..])
  }

  lemma {:induction false} UsableStringsInOrder(xs: seq<JsValue>)
    ensures IsSubsequence(AsJsStrings(UsableStrings(xs)), xs)
    decreases |xs|
  {
    if xs != [] {
      var rest := UsableStrings(xs[1..]);
      UsableStringsInOrder(xs[1..]);
      assert xs == [xs[0]] + xs[1..];
      if IsUsableToken(xs[0]) {
        assert ([xs[0].s] + rest)[1..] == rest;
        SubsequenceCons(xs[0], AsJsStrings(rest), xs[1..]);
      } else {
        SubsequenceSkip(xs[0], AsJsStrings(rest), xs[1..]);
      }
    }
  }

  lemma {:induction false} UsableStringsCount(xs: seq<JsValue>, t: string)
    ensures multiset(UsableStrings(xs))[t] == if |Trim(t)| > 0 then multiset(xs)[Str(t)] else 0
    decreases |xs|
  {
    if xs != [] {
      UsableStringsCount(xs[1..], t);
      assert xs == [xs[0]] + xs[1..];
    }
  }

  /** The valid-token list keeps the usable tokens of `fcmTokens` in their
      original order, each as often as it occurs there, and nothing else. */
  lemma ValidTokensExact(fcmTokens: JsValue)
    ensures fcmTokens.Arr? ==> IsSubsequence(AsJsStrings(ValidTokens(fcmTokens)), fcmTokens.elems)
    ensures forall t :: t in ValidTokens(fcmTokens) <==>
                        fcmTokens.Arr? && Str(t) in fcmTokens.elems && |Trim(t)| > 0
    ensures forall t :: multiset(ValidTokens(fcmTokens))[t] ==
                        if fcmTokens.Arr? && |Trim(t)| > 0 then multiset(fcmTokens.elems)[Str(t)] else 0
  {
    if fcmTokens.Arr? {
      UsableStringsInOrder(fcmTokens.elems);
      forall t ensures multiset(ValidTokens(fcmTokens))[t] ==
                         if |Trim(t)| > 0 then multiset(fcmTokens.elems)[Str(t)] else 0
      {
        UsableStringsCount(fcmTokens.elems, t);
      }
    }
  }

  /** One entry of a multicast reply. `errorCode` is `r.error?.code`, which is
      `Undefined` when the send succeeded or the error carries no code. */
  datatype SendResponse = SendResponse(success: bool, errorCode: JsValue)

  /** A multicast reply: the two counters and one response per token, in token order. */
  datatype BatchResponse = BatchResponse(successCount: nat, failureCount: nat, responses: seq<SendResponse>)

  /** The response condemns its token: the send failed and `code || ''` is one of
      the two stale-token codes. Any other failure leaves the token alone. */
  predicate IsStaleTokenFailure(r: SendResponse) {
    var code := Or(r.errorCode, Str(""));
    !r.success && (code == Str(NotRegistered) || code == Str(InvalidRegistration))
  }

  /** The tokens the collection loop gathers, one entry per condemning response, in index order. */
  function MarkedTokens(tokens: seq<string>, responses: seq<SendResponse>): (r: seq<string>)
    requires |responses| == |tokens|
    ensures |r| <= |tokens|
    decreases |tokens|
  {
    if tokens == [] then []
    else
      var n := |tokens| - 1;
      MarkedTokens(tokens[..n], responses[..n]) + (if IsStaleTokenFailure(responses[n]) then [tokens[n]] else [])
  }

  /** A token is marked exactly when it sits at some index whose response condemns it. */
  lemma {:induction false} MarkedTokensMembers(tokens: seq<string>, responses: seq<SendResponse>)
    requires |responses| == |tokens|
    ensures forall t :: t in MarkedTokens(tokens, responses) <==>
      exists i :: 0 <= i < |tokens| && tokens[i] == t && IsStaleTokenFailure(responses[i])
    decreases |tokens|
  {
    if tokens != [] {
      var n := |tokens| - 1;
      MarkedTokensMembers(tokens[..n], responses[..n]);
      forall t | t in MarkedTokens(tokens, responses)
        ensures exists i :: 0 <= i < |tokens| && tokens[i] == t && IsStaleTokenFailure(responses[i])
      {
        if t in MarkedTokens(tokens[..n], responses[..n]) {
          var i :| 0 <= i < n && tokens[..n][i] == t && IsStaleTokenFailure(responses[..n][i]);
          assert tokens[i] == t && IsStaleTokenFailure(responses[i]);
        }
      }
      forall t | exists i :: 0 <= i < |tokens| && tokens[i] == t && IsStaleTokenFailure(responses[i])
        ensures t in MarkedTokens(tokens, responses)
      {
        var i :| 0 <= i < |tokens| && tokens[i] == t && IsStaleTokenFailure(responses[i]);
        if i < n {
          assert tokens[..n][i] == t && IsStaleTokenFailure(responses[..n][i]);
        }
      }
    }
  }

  /** The `forEach` over the reply: gathers the token at every index whose response
      condemns it, in index order (a token condemned twice is gathered twice);
      `MarkedTokensMembers` says which tokens that is. */
  method CollectInvalid(tokens: seq<string>, responses: seq<SendResponse>) returns (invalid: seq<string>)
    requires |responses| == |tokens|
    ensures invalid == MarkedTokens(tokens, responses)
  {
    invalid := [];
    var idx := 0;
    while idx < |responses|
      invariant 0 <= idx <= |responses|
      invariant invalid == MarkedTokens(tokens[..idx], responses[..idx])
    {
      var r := responses[idx];
      if !r.success {
        var code := Or(r.errorCode, Str(""));
        if code == Str(NotRegistered) || code == Str(InvalidRegistration) {
          invalid := invalid + [tokens[idx]];
        }
      }
      assert tokens[..idx + 1][..idx] == tokens[..idx];
      assert responses[..idx + 1][..idx] == responses[..idx];
      idx := idx + 1;
    }
    assert tokens[..idx] == tokens && responses[..idx] == responses;
  }

  /** `tokens.filter(t => !invalid.includes(t))` */
  function PruneTokens(tokens: seq<string>, invalid: seq<string>): (r: seq<string>)
    ensures |r| <= |tokens|
    ensures forall t :: t in r <==> t in tokens && t !in invalid
    decreases |tokens|
  {
    if tokens == [] then []
    else if tokens[0] in invalid then PruneTokens(tokens[1..], invalid)
    else [tokens[0]] + PruneTokens(tokens[1..], invalid)
  }

  /** Pruning keeps the surviving tokens in their original order. */
  lemma {:induction false} PruneInOrder(tokens: seq<string>, invalid: seq<string>)
    ensures IsSubsequence(PruneTokens(tokens, invalid), tokens)
    decreases |tokens|
  {
    if tokens != [] {
      PruneInOrder(tokens[1..], invalid);
      if tokens[0] !in invalid {
        var r := PruneTokens(tokens, invalid);
        assert r[1..] == PruneTokens(tokens[1..], invalid);
      }
    }
  }

  /** Pruning removes every copy of a listed token and keeps every copy of any other. */
  lemma {:induction false} PruneCount(tokens: seq<string>, invalid: seq<string>, t: string)
    ensures multiset(PruneTokens(tokens, invalid))[t] == if t in invalid then 0 else multiset(tokens)[t]
    decreases |tokens|
  {
    if tokens != [] {
      PruneCount(tokens[1..], invalid, t);
      assert tokens == [tokens[0]] + tokens[1..];
    }
  }

  /** When one of the tokens is listed, the pruned list is strictly shorter. */
  lemma {:induction false} PruneShrinks(tokens: seq<string>, invalid: seq<string>, i: nat)
    requires i < |tokens| && tokens[i] in invalid
    ensures |PruneTokens(tokens, invalid)| < |tokens|
    decreases |tokens|
  {
    if tokens[0] !in invalid {
      PruneShrinks(tokens[1..], invalid, i - 1);
    }
  }

  /** When none of the tokens is listed, pruning changes nothing. */
  lemma {:induction false} PruneUnlisted(tokens: seq<string>, invalid: seq<string>)
    requires forall i :: 0 <= i < |tokens| ==> tokens[i] !in invalid
    ensures PruneTokens(tokens, invalid) == tokens
    decreases |tokens|
  {
    if tokens != [] {
      PruneUnlisted(tokens[1..], invalid);
      assert tokens == [tokens[0]] + tokens[1..];
    }
  }

  /** Marking then pruning: a token survives exactly when no response at any of its
      indices condemns it, so a duplicate of a condemned token goes too, and a
      token that failed with another code stays. A surviving token keeps all its
      copies, in order. */
  lemma PruneAfterMarking(tokens: seq<string>, responses: seq<SendResponse>)
    requires |responses| == |tokens|
    ensures IsSubsequence(PruneTokens(tokens, MarkedTokens(tokens, responses)), tokens)
    ensures forall t :: t in PruneTokens(tokens, MarkedTokens(tokens, responses)) <==>
      t in tokens && forall i :: 0 <= i < |tokens| && tokens[i] == t ==> !IsStaleTokenFailure(responses[i])
    ensures forall t :: t in PruneTokens(tokens, MarkedTokens(tokens, responses)) ==>
      multiset(PruneTokens(tokens, MarkedTokens(tokens, responses)))[t] == multiset(tokens)[t]
    ensures MarkedTokens(tokens, responses) != [] ==>
      |PruneTokens(tokens, MarkedTokens(tokens, responses))| < |tokens|
  {
    var marked := MarkedTokens(tokens, responses);
    MarkedTokensMembers(tokens, responses);
    PruneInOrder(tokens, marked);
    forall t | t in PruneTokens(tokens, marked)
      ensures multiset(PruneTokens(tokens, marked))[t] == multiset(tokens)[t]
    {
      PruneCount(tokens, marked, t);
    }
    if marked != [] {
      assert marked[0] in marked;
      var i :| 0 <= i < |tokens| && tokens[i] == marked[0] && IsStaleTokenFailure(responses[i]);
      PruneShrinks(tokens, marked, i);
    }
  }

  /** The number of unsuccessful responses. */
  function FailedCount(responses: seq<SendResponse>): (n: nat)
    ensures n <= |responses|
    decreases |responses|
  {
    if responses == [] then 0
    else FailedCount(responses[..|responses| - 1]) + (if responses[|responses| - 1].success then 0 else 1)
  }

  /** The counters of a reply agree with its responses. */
  predicate CountersAgree(reply: BatchResponse) {
    reply.failureCount == FailedCount(reply.responses)
    && reply.successCount == |reply.responses| - FailedCount(reply.responses)
  }

  /** A marked token implies at least one unsuccessful response. */
  lemma {:induction false} MarkedImpliesFailures(tokens: seq<string>, responses: seq<SendResponse>)
    requires |responses| == |tokens|
    requires MarkedTokens(tokens, responses) != []
    ensures FailedCount(responses) > 0
    decreases |tokens|
  {
    var n := |tokens| - 1;
    if !IsStaleTokenFailure(responses[n]) {
      MarkedImpliesFailures(tokens[..n], responses[..n]);
      assert responses[..n] == responses[..|responses| - 1];
    }
  }
}
