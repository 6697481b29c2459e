# AgriMix account-decision handlers

A Dafny model of the two Cloud Functions in `functions/src/index.ts` that react
to updates of a `users/{userId}` document:

- `sendApprovalEmail` fires when `approved` turns from falsy to truthy. It
  mails the user. It pushes a notification to the user's valid FCM tokens and
  prunes the tokens the messaging service reports as stale. Last, it writes an
  unread in-app notification record. All of this sits in one `try` block, so
  any call that throws turns into `HttpsError('internal', …)`.
- `sendRejectionEmail` fires when `approved` turns from truthy to falsy, or
  when `status` is the string `'rejected'`. It mails the user and then tries
  to delete the user document and the auth user. Only a failed mail is fatal;
  the failures of the two deletes are swallowed.

The model has four modules:

- `JsValues` (`js_values.dfy`): the document values as JavaScript sees them,
  ECMAScript truthiness, `||`, and `String.prototype.trim`.
- `Sequences` (`sequences.dfy`): the order-preserving subsequence relation.
- `PushTokens` (`push_tokens.dfy`):
  - the token filter;
  - the stale-token marking over a multicast reply, as a method with a loop,
    proved against a recursive specification function;
  - the prune filter.
- `UserRecords` (`user_records.dfy`) and `Handlers` (`handlers.dfy`):
  - the user record;
  - the two transition tests;
  - the defaults for the name, the rejection reason and the sender;
  - the two handlers.

Each outside call (mail relay, messaging, document store, auth service) is a
recorded `Step` holding its effect and whether it resolved. How each call turns
out is an input (`ApprovalWorld`, `RejectionWorld`). A handler's outcome is the
list of steps it took plus the value it settled with.

`ApprovalBlock` is the try block written as a method. It is proved equal to
`RunUntilThrow(ApprovalCalls(...))`, the reference meaning of a try block over
the planned calls. The lemmas `ApprovalMailFirst`, `ApprovalPushWhenTokens`,
`ApprovalUpdateWhenPruneDue`, `ApprovalNoticeLast` and `ApprovalOneTryBlock`
state what the handler promises about that function.

## Model

| member | source | states |
|---|---|---|
| JsValues.Or | functions/src/index.ts:42 | `a \|\| b` is truthy iff either operand is; it yields the left operand when that one is truthy, the right one otherwise |
| JsValues.FirstTruthy | functions/src/index.ts:42 | the result is the first truthy candidate, or the fallback when no candidate is truthy |
| JsValues.OrChainIsFirstTruthy | functions/src/index.ts:42 | `a \|\| b \|\| c` equals the first truthy of `[a, b]` with `c` as fallback |
| JsValues.TrimStartDrops | functions/src/index.ts:43 | trimming the start drops a prefix made only of whitespace, and what is left does not start with whitespace |
| JsValues.TrimEndDrops | functions/src/index.ts:43 | trimming the end drops a suffix made only of whitespace, and what is left does not end with whitespace |
| JsValues.TrimSpec | functions/src/index.ts:43 | `trim()` is empty exactly when every character is whitespace; otherwise neither end of the result is whitespace |
| PushTokens.ValidTokens | functions/src/index.ts:43 | a non-array `fcmTokens` yields no tokens; an array yields at most as many tokens as it has elements |
| PushTokens.UsableStringsInOrder | functions/src/index.ts:43 | the kept tokens appear in the array in the same order (a subsequence) |
| PushTokens.UsableStringsCount | functions/src/index.ts:43 | a string with non-blank trim is kept exactly as often as it occurs in the array; a blank one never |
| PushTokens.ValidTokensExact | functions/src/index.ts:43 | the valid tokens are an ordered subsequence of the array; a string is a valid token iff it occurs in the array with non-blank trim; multiplicities are kept |
| PushTokens.MarkedTokens | functions/src/index.ts:135-143 | at most one marked entry per token |
| PushTokens.MarkedTokensMembers | functions/src/index.ts:136-141 | a token is marked iff some index carrying it has a failed response whose `code \|\| ''` is one of the two stale-token codes |
| PushTokens.CollectInvalid | functions/src/index.ts:135-143 | the `forEach` loop gathers exactly the marked tokens, one entry per condemning response, in index order (which tokens these are is `MarkedTokensMembers`) |
| PushTokens.PruneTokens | functions/src/index.ts:145 | a token survives iff it is in the list and not in `invalid`; the result is never longer |
| PushTokens.PruneInOrder | functions/src/index.ts:145 | the survivors keep their original order |
| PushTokens.PruneCount | functions/src/index.ts:145 | every copy of a listed token is removed; every copy of any other token is kept |
| PushTokens.PruneShrinks | functions/src/index.ts:144-145 | if a listed token occurs, the pruned list is strictly shorter |
| PushTokens.PruneUnlisted | functions/src/index.ts:145 | if no token is listed, pruning leaves the list unchanged |
| PushTokens.PruneAfterMarking | functions/src/index.ts:134-146 | a token survives marking then pruning iff no response at any of its indices condemns it (duplicates of a condemned token go too); survivors keep all their copies, in order; the list shrinks when something is marked |
| PushTokens.FailedCount | functions/src/index.ts:131 | the number of failed responses is at most the number of responses |
| PushTokens.MarkedImpliesFailures | functions/src/index.ts:134-144 | a marked token implies at least one failed response |
| UserRecords.TransitionsOverlap | functions/src/index.ts:186 | both transition tests hold exactly when `approved` turns on while `status` is `'rejected'`; otherwise at most one holds |
| UserRecords.DisplayName | functions/src/index.ts:42 | the greeting is truthy and is the first truthy of `name`, `firstName`, else `'User'` (line 188 is the same expression) |
| UserRecords.RejectionReason | functions/src/index.ts:189 | the reason is truthy and is the stored `rejectionReason` when truthy, else the fixed default sentence |
| Handlers.SenderAddress | functions/src/index.ts:51 | the sender is truthy and is the first truthy of `email.from`, `email.user`, else the placeholder address (line 197 is the same expression) |
| Handlers.PruneDueWhenMarked | functions/src/index.ts:134-144 | when the reply's counters agree with its responses, the token update is due exactly when some token is marked |
| Handlers.RunUntilThrow | functions/src/index.ts:94-165 | a try block makes a prefix of its calls, non-empty when there are calls; every call but the last made resolved; if it stopped early, the last call made threw; if none throws, all are made |
| Handlers.RunUntilThrowStopsAt | functions/src/index.ts:94-165 | when the first throwing call is at index `k`, exactly the calls up to and including `k` are made |
| Handlers.ApprovalBlock | functions/src/index.ts:94-165 | the try block makes the calls of `ApprovalCalls` until the first one throws, and throws the internal error exactly when the last call made threw |
| Handlers.HandleApproval | functions/src/index.ts:29-168 | a missing snapshot, no approval transition or no email means no call and `null`; otherwise the handler behaves as the try block over the record's valid tokens |
| Handlers.ApprovalRun | functions/src/index.ts:94-165 | for each place where the block can stop, the exact list of calls made |
| Handlers.ApprovalMailFirst | functions/src/index.ts:96 | the approval mail to the record's email is the first call, and no other call sends mail |
| Handlers.ApprovalPushWhenTokens | functions/src/index.ts:100-130 | the push to exactly the valid tokens is the second call iff the mail was sent and there is a valid token; no other call pushes |
| Handlers.ApprovalUpdateWhenPruneDue | functions/src/index.ts:134-146 | the token update is the third call iff the push replied with `failureCount > 0` and marked a token; it writes the valid tokens less every marked one; no other call updates tokens |
| Handlers.ApprovalNoticeLast | functions/src/index.ts:153-159 | the unread `approval` notification is the last call iff every earlier call resolved; it is never made at another position |
| Handlers.ApprovalOneTryBlock | functions/src/index.ts:94-165 | every call before the last resolved; the handler fails iff the last call made threw, iff some call threw (mail, push, update or notification); the error is always `('internal', 'Failed to send approval email')` |
| Handlers.HandleRejection | functions/src/index.ts:175-265 | calls are made iff both snapshots exist, the rejection test holds and the email is truthy; the rejection mail comes first; if it throws nothing follows and the handler fails with `('internal', 'Failed to send rejection email')`; otherwise the document delete and the auth delete follow in that order, and their failures do not fail the handler |
| Handlers.BothHandlersCanApply | functions/src/index.ts:40-48 | some single update passes the guards of both handlers, so both send their mail |

## Left out

- Firebase Admin initialisation and the nodemailer transporter set-up (lines 6-23) are configuration. The model keeps only the `email` section that the sender address reads.
- The HTML mail bodies are not modelled. A mail keeps its sender, recipient and subject, plus the values interpolated into the template (the greeting name and the rejection reason).
- The console logging is not modelled.
- The Android and APNs delivery hints of the multicast message (lines 111-127) are not modelled. The message keeps its tokens, title, body and data fields.
- The server-assigned `timestamp` of the notification record is not modelled.
- At-least-once trigger delivery, concurrent updates and retries are not modelled. Each handler is one run over one before/after pair.
- Handlers.HandleApproval: a multicast reply is required to carry one response per token sent. The messaging service's contract guarantees this. A reply with a different count would make `fcmTokens[idx]` read `undefined`, and that case is not modelled.
- Numbers are mathematical integers. NaN, fractions and BigInt are not modelled, since the handlers only test numbers for truthiness.
- Strings are sequences of Unicode scalar values, so lone UTF-16 surrogates cannot be written.
- The approval handler has no separate "classify" step. The two triggers are independent predicates, and one update can set off both handlers (`BothHandlersCanApply`).
- In the approval handler a failure of the push, the token update or the notification write is as fatal as a failed mail, because all four sit in one `try` block (lines 94-165). A design where only the mail is fatal would differ. The model follows the code (`ApprovalOneTryBlock`).
