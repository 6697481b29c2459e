/**
 * The two `onUpdate` handlers, `sendApprovalEmail` and `sendRejectionEmail`,
 * with every call to the mail relay, the messaging service, the document store
 * and the auth service turned into a recorded step. What each call returns is
 * an input (a "world"); what the handler does is the list of steps it takes, in
 * order, each with the outcome it met, and the value it settles with.
 */
module Handlers {
  import opened JsValues
  import opened Sequences
  import opened PushTokens
  import opened UserRecords

  const PlaceholderSender: string := "your-email@gmail.com"
  const ApprovalFailureMessage: string := "Failed to send approval email"
  const RejectionFailureMessage: string := "Failed to send rejection email"
  const InternalCode: string := "internal"
  const ApprovalSubject: string := "AgriMix Account Approved"
  const RejectionSubject: string := "AgriMix Account Application Update"
  const ApprovalTitle: string := "Account Approved"
  const PushBody: string := "Your AgriMix account has been approved. Tap to open the app."
  const ApprovalType: string := "approval"
  const NoticeMessage: string := "Your account has been approved! You can now access all features."

  /** The `email` section of the functions configuration, when there is one. */
  datatype EmailSettings = NoEmailSection | EmailSection(from: JsValue, user: JsValue)

  /** `email?.from` */
  function FromSetting(settings: EmailSettings): JsValue {
    if settings.EmailSection? then settings.from else Undefined
  }

  /** `email?.user` */
  function UserSetting(settings: EmailSettings): JsValue {
    if settings.EmailSection? then settings.user else Undefined
  }

  /** `email?.from || email?.user || 'your-email@gmail.com'` */
  function SenderAddress(settings: EmailSettings): (r: JsValue)
    ensures Truthy(r)
    ensures r == FirstTruthy([FromSetting(settings), UserSetting(settings)], Str(PlaceholderSender))
  {
    OrChainIsFirstTruthy(FromSetting(settings), UserSetting(settings), Str(PlaceholderSender));
    Or(Or(FromSetting(settings), UserSetting(settings)), Str(PlaceholderSender))
  }

  /** The values the HTML templates interpolate; the markup around them is not modelled. */
  datatype MailBody = ApprovalBody(greeting: JsValue) | RejectionBody(greeting: JsValue, reason: JsValue)

  datatype Mail = Mail(from: JsValue, to: JsValue, subject: string, body: MailBody)

  /** The multicast message, without its Android and APNs delivery hints. */
  datatype PushMessage = PushMessage(tokens: seq<string>, title: string, body: string, dataType: string, dataUserId: string)

  /** The in-app notification; its server-assigned timestamp is not modelled. */
  datatype NotificationRecord = NotificationRecord(kind: string, title: string, message: string, read: bool)

  /** A call the handler makes on an outside service. */
  datatype Effect =
    | SendMail(mail: Mail)
    | SendMulticast(push: PushMessage)
    | UpdateTokens(userId: string, tokens: seq<string>)
    | AddNotification(userId: string, record: NotificationRecord)
    | DeleteUserDoc(userId: string)
    | DeleteAuthUser(userId: string)

  /** One call made, and whether it resolved (`true`) or threw (`false`). */
  datatype Step = Step(effect: Effect, ok: bool)

  /** What the handler settles with: `null`, or a thrown `HttpsError`. */
  datatype HandlerResult = NullResult | HttpsError(code: string, message: string)

  datatype MulticastOutcome = MulticastThrew | MulticastReplied(reply: BatchResponse)

  /** How each outside call of the approval handler turns out. */
  datatype ApprovalWorld = ApprovalWorld(
    mailOk: bool,
    multicast: MulticastOutcome,
    tokenUpdateOk: bool,
    notificationOk: bool)

  /** How each outside call of the rejection handler turns out. */
  datatype RejectionWorld = RejectionWorld(mailOk: bool, docDeleteOk: bool, authDeleteOk: bool)

  function ApprovalMail(u: UserRecord, settings: EmailSettings): Mail {
    Mail(SenderAddress(settings), u.email, ApprovalSubject, ApprovalBody(DisplayName(u)))
  }

  function RejectionMail(u: UserRecord, settings: EmailSettings): Mail {
    Mail(SenderAddress(settings), u.email, RejectionSubject,
         RejectionBody(DisplayName(u), RejectionReason(u)))
  }

  function ApprovalPush(tokens: seq<string>, userId: string): PushMessage {
    PushMessage(tokens, ApprovalTitle, PushBody, ApprovalType, userId)
  }

  const ApprovalNotice: NotificationRecord :=
    NotificationRecord(ApprovalType, ApprovalTitle, NoticeMessage, false)

  /** The approval handler gets past its guards: both snapshots hold data, the
      approval test holds and the new record has a truthy email. */
  predicate ApprovalApplies(before: Snapshot, after: Snapshot) {
    before.Present? && after.Present? && IsApproval(before.data, after.data) && Truthy(after.data.email)
  }

  /** The rejection handler gets past its guards. */
  predicate RejectionApplies(before: Snapshot, after: Snapshot) {
    before.Present? && after.Present? && IsRejection(before.data, after.data) && Truthy(after.data.email)
  }

  /** The messaging service answers one response per token it was sent. */
  predicate RepliesPerToken(tokens: seq<string>, multicast: MulticastOutcome) {
    multicast.MulticastReplied? ==> |multicast.reply.responses| == |tokens|
  }

  /** The reply to the push calls for a token update: it reports failures
      (`failureCount > 0`) and condemns at least one token. */
  predicate PruneDue(tokens: seq<string>, multicast: MulticastOutcome)
    requires RepliesPerToken(tokens, multicast)
  {
    multicast.MulticastReplied? && multicast.reply.failureCount > 0
    && MarkedTokens(tokens, multicast.reply.responses) != []
  }

  /** When the reply's counters agree with its responses, the `failureCount > 0`
      guard never suppresses a prune: the update is due exactly when some token
      is marked. */
  lemma PruneDueWhenMarked(tokens: seq<string>, multicast: MulticastOutcome)
    requires RepliesPerToken(tokens, multicast) && multicast.MulticastReplied?
    requires CountersAgree(multicast.reply)
    ensures PruneDue(tokens, multicast) <==> MarkedTokens(tokens, multicast.reply.responses) != []
  {
    if MarkedTokens(tokens, multicast.reply.responses) != [] {
      MarkedImpliesFailures(tokens, multicast.reply.responses);
    }
  }

  /** The token list the update writes: the valid tokens less every marked one. */
  function PrunedList(tokens: seq<string>, multicast: MulticastOutcome): seq<string>
    requires RepliesPerToken(tokens, multicast) && multicast.MulticastReplied?
  {
    PruneTokens(tokens, MarkedTokens(tokens, multicast.reply.responses))
  }

  /** A try block over `calls`: the calls are made in turn until one throws,
      and none after it is made. */
  function RunUntilThrow(calls: seq<Step>): (made: seq<Step>)
    ensures |made| <= |calls| && made == calls[..|made|]
    ensures calls != [] ==> made != []
    ensures forall i :: 0 <= i < |made| - 1 ==> made[i].ok
    ensures |made| < |calls| ==> !made[|made| - 1].ok
    ensures (forall i :: 0 <= i < |calls| ==> calls[i].ok) ==> made == calls
    decreases |calls|
  {
    if calls == [] then []
    else if !calls[0].ok then [calls[0]]
    else [calls[0]] + RunUntilThrow(calls[1..])
  }

  /** A try block whose first throwing call is the one at index `k` makes the
      calls up to and including that one. */
  lemma {:induction false} RunUntilThrowStopsAt(calls: seq<Step>, k: nat)
    requires k < |calls| && !calls[k].ok
    requires forall i :: 0 <= i < k ==> calls[i].ok
    ensures RunUntilThrow(calls) == calls[..k + 1]
    decreases k
  {
    if k > 0 {
      RunUntilThrowStopsAt(calls[1..], k - 1);
      assert calls[..k + 1] == [calls[0]] + calls[1..][..k];
    }
  }

  /** How a try block whose catch throws `message` settles after making `made`. */
  function TryResult(made: seq<Step>, message: string): HandlerResult {
    if made != [] && !made[|made| - 1].ok then HttpsError(InternalCode, message) else NullResult
  }

  /** The approval mail, with the outcome it meets. */
  function MailStep(u: UserRecord, settings: EmailSettings, world: ApprovalWorld): Step {
    Step(SendMail(ApprovalMail(u, settings)), world.mailOk)
  }

  /** The push to the valid tokens; it fails when the messaging service throws. */
  function PushStep(tokens: seq<string>, userId: string, world: ApprovalWorld): Step {
    Step(SendMulticast(ApprovalPush(tokens, userId)), world.multicast.MulticastReplied?)
  }

  /** The write of the pruned token list. */
  function UpdateStep(tokens: seq<string>, userId: string, world: ApprovalWorld): Step
    requires RepliesPerToken(tokens, world.multicast) && world.multicast.MulticastReplied?
  {
    Step(UpdateTokens(userId, PrunedList(tokens, world.multicast)), world.tokenUpdateOk)
  }

  /** The in-app approval notification. */
  function NoticeStep(userId: string, world: ApprovalWorld): Step {
    Step(AddNotification(userId, ApprovalNotice), world.notificationOk)
  }

  /** The calls of the approval try block, each with the outcome it would meet:
      the mail, then, when there are tokens, the push and, when its reply calls
      for it, the token update, and last the notification. */
  function ApprovalCalls(u: UserRecord, tokens: seq<string>, userId: string, settings: EmailSettings,
                         world: ApprovalWorld): seq<Step>
    requires RepliesPerToken(tokens, world.multicast)
  {
    if tokens == [] then [MailStep(u, settings, world), NoticeStep(userId, world)]
    else if !PruneDue(tokens, world.multicast) then
      [MailStep(u, settings, world), PushStep(tokens, userId, world), NoticeStep(userId, world)]
    else
      [MailStep(u, settings, world), PushStep(tokens, userId, world), UpdateStep(tokens, userId, world),
       NoticeStep(userId, world)]
  }

  /** The try block of `sendApprovalEmail`, from the mail to the notification. */
  method ApprovalBlock(u: UserRecord, tokens: seq<string>, userId: string, settings: EmailSettings,
                       world: ApprovalWorld)
    returns (steps: seq<Step>, result: HandlerResult)
    requires RepliesPerToken(tokens, world.multicast)
    ensures steps == RunUntilThrow(ApprovalCalls(u, tokens, userId, settings, world))
    ensures result == TryResult(steps, ApprovalFailureMessage)
  {
    ApprovalRun(u, tokens, userId, settings, world);
    var mail := Step(SendMail(ApprovalMail(u, settings)), world.mailOk);
    steps := [mail];
    if !world.mailOk {
      return steps, HttpsError(InternalCode, ApprovalFailureMessage);
    }
    if |tokens| > 0 {
      var push := Step(SendMulticast(ApprovalPush(tokens, userId)), world.multicast.MulticastReplied?);
      steps := steps + [push];
      if world.multicast.MulticastThrew? {
        return steps, HttpsError(InternalCode, ApprovalFailureMessage);
      }
      var reply := world.multicast.reply;
      if reply.failureCount > 0 {
        var invalid := CollectInvalid(tokens, reply.responses);
        if |invalid| > 0 {
          var newTokens := PruneTokens(tokens, invalid);
          steps := steps + [Step(UpdateTokens(userId, newTokens), world.tokenUpdateOk)];
          if !world.tokenUpdateOk {
            return steps, HttpsError(InternalCode, ApprovalFailureMessage);
          }
        }
      }
    }
    steps := steps + [Step(AddNotification(userId, ApprovalNotice), world.notificationOk)];
    result := if world.notificationOk then NullResult else HttpsError(InternalCode, ApprovalFailureMessage);
  }

  /** `sendApprovalEmail`: the guards, then the try block. When a guard stops the
      handler (a missing snapshot, no approval transition, no email) it makes no
      call at all and returns `null`; otherwise it makes the calls of the try
      block over the record's valid tokens until one throws. */
  method HandleApproval(before: Snapshot, after: Snapshot, userId: string, settings: EmailSettings,
                        world: ApprovalWorld)
    returns (steps: seq<Step>, result: HandlerResult)
    requires after.Present? ==> RepliesPerToken(ValidTokens(after.data.fcmTokens), world.multicast)
    ensures !ApprovalApplies(before, after) ==> steps == [] && result == NullResult
    ensures ApprovalApplies(before, after) ==>
              && steps == RunUntilThrow(ApprovalCalls(after.data, ValidTokens(after.data.fcmTokens), userId, settings, world))
              && result == TryResult(steps, ApprovalFailureMessage)
  {
    if before.Missing? || after.Missing? {
      return [], NullResult;
    }
    if !IsApproval(before.data, after.data) {
      return [], NullResult;
    }
    var tokens := ValidTokens(after.data.fcmTokens);
    if !Truthy(after.data.email) {
      return [], NullResult;
    }
    steps, result := ApprovalBlock(after.data, tokens, userId, settings, world);
  }

  /** Every call of the approval block but the last has resolved. */
  predicate ApprovalCallsBeforeNoticeResolve(tokens: seq<string>, world: ApprovalWorld)
    requires RepliesPerToken(tokens, world.multicast)
  {
    && world.mailOk
    && (tokens != [] ==> world.multicast.MulticastReplied?)
    && (tokens != [] && PruneDue(tokens, world.multicast) ==> world.tokenUpdateOk)
  }

  /** The calls the approval block makes, for each place where it can stop. */
  lemma ApprovalRun(u: UserRecord, tokens: seq<string>, userId: string, settings: EmailSettings, world: ApprovalWorld)
    requires RepliesPerToken(tokens, world.multicast)
    ensures var made := RunUntilThrow(ApprovalCalls(u, tokens, userId, settings, world));
            var mail, push, notice := MailStep(u, settings, world), PushStep(tokens, userId, world), NoticeStep(userId, world);
            if !world.mailOk then made == [mail]
            else if tokens == [] then made == [mail, notice]
            else if world.multicast.MulticastThrew? then made == [mail, push]
            else if !PruneDue(tokens, world.multicast) then made == [mail, push, notice]
            else if !world.tokenUpdateOk then made == [mail, push, UpdateStep(tokens, userId, world)]
            else made == [mail, push, UpdateStep(tokens, userId, world), notice]
  {
    var calls := ApprovalCalls(u, tokens, userId, settings, world);
    if !world.mailOk {
      RunUntilThrowStopsAt(calls, 0);
    } else if tokens == [] {
      if !world.notificationOk {
        RunUntilThrowStopsAt(calls, 1);
      }
    } else if world.multicast.MulticastThrew? {
      RunUntilThrowStopsAt(calls, 1);
    } else if !PruneDue(tokens, world.multicast) {
      if !world.notificationOk {
        RunUntilThrowStopsAt(calls, 2);
      }
    } else if !world.tokenUpdateOk {
      RunUntilThrowStopsAt(calls, 2);
    } else if !world.notificationOk {
      RunUntilThrowStopsAt(calls, 3);
    }
  }

  /** The approval mail to the record's email is always the first call, and no
      other call sends mail. */
  lemma ApprovalMailFirst(u: UserRecord, tokens: seq<string>, userId: string, settings: EmailSettings, world: ApprovalWorld)
    requires RepliesPerToken(tokens, world.multicast)
    ensures var made := RunUntilThrow(ApprovalCalls(u, tokens, userId, settings, world));
            && made != [] && made[0] == Step(SendMail(ApprovalMail(u, settings)), world.mailOk)
            && made[0].effect.mail.to == u.email
            && (forall i :: 0 < i < |made| ==> !made[i].effect.SendMail?)
  {
    ApprovalRun(u, tokens, userId, settings, world);
  }

  /** The push goes out, to exactly the valid tokens, precisely when the mail
      was sent and there is at least one valid token; it is the second call. */
  lemma ApprovalPushWhenTokens(u: UserRecord, tokens: seq<string>, userId: string, settings: EmailSettings,
                               world: ApprovalWorld)
    requires RepliesPerToken(tokens, world.multicast)
    ensures var made := RunUntilThrow(ApprovalCalls(u, tokens, userId, settings, world));
            && ((|made| > 1 && made[1] == Step(SendMulticast(ApprovalPush(tokens, userId)), world.multicast.MulticastReplied?))
                <==> world.mailOk && tokens != [])
            && (forall i :: 0 <= i < |made| && made[i].effect.SendMulticast? ==> i == 1)
  {
    ApprovalRun(u, tokens, userId, settings, world);
  }

  /** The token update is written precisely when the push replied with a
      positive failure count and marked some token; it is the third call and
      carries the valid tokens less every marked one. */
  lemma ApprovalUpdateWhenPruneDue(u: UserRecord, tokens: seq<string>, userId: string, settings: EmailSettings,
                                   world: ApprovalWorld)
    requires RepliesPerToken(tokens, world.multicast)
    ensures var made := RunUntilThrow(ApprovalCalls(u, tokens, userId, settings, world));
            && ((|made| > 2 && made[2].effect.UpdateTokens?) <==> world.mailOk && tokens != [] && PruneDue(tokens, world.multicast))
            && (world.mailOk && tokens != [] && PruneDue(tokens, world.multicast) ==>
                  made[2] == Step(UpdateTokens(userId, PrunedList(tokens, world.multicast)), world.tokenUpdateOk))
            && (forall i :: 0 <= i < |made| && made[i].effect.UpdateTokens? ==> i == 2)
  {
    ApprovalRun(u, tokens, userId, settings, world);
  }

  /** The unread approval notification is written last, precisely when every
      earlier call resolved. */
  lemma ApprovalNoticeLast(u: UserRecord, tokens: seq<string>, userId: string, settings: EmailSettings,
                           world: ApprovalWorld)
    requires RepliesPerToken(tokens, world.multicast)
    ensures var made := RunUntilThrow(ApprovalCalls(u, tokens, userId, settings, world));
            && (made[|made| - 1] == Step(AddNotification(userId, ApprovalNotice), world.notificationOk)
                <==> ApprovalCallsBeforeNoticeResolve(tokens, world))
            && (forall i :: 0 <= i < |made| && made[i].effect.AddNotification? ==> i == |made| - 1)
            && ApprovalNotice.kind == ApprovalType && !ApprovalNotice.read
  {
    ApprovalRun(u, tokens, userId, settings, world);
  }

  /** One try block: the block stops at the first call that throws, and the
      handler fails with an internal error exactly when some call threw,
      whichever it was. */
  lemma ApprovalOneTryBlock(u: UserRecord, tokens: seq<string>, userId: string, settings: EmailSettings,
                            world: ApprovalWorld)
    requires RepliesPerToken(tokens, world.multicast)
    ensures var made := RunUntilThrow(ApprovalCalls(u, tokens, userId, settings, world));
            var result := TryResult(made, ApprovalFailureMessage);
            && (forall i :: 0 <= i < |made| - 1 ==> made[i].ok)
            && (result.HttpsError? <==> !made[|made| - 1].ok)
            && (result == NullResult <==> ApprovalCallsBeforeNoticeResolve(tokens, world) && world.notificationOk)
            && (result.HttpsError? ==> result == HttpsError(InternalCode, ApprovalFailureMessage))
  {
    ApprovalRun(u, tokens, userId, settings, world);
  }

  /** `sendRejectionEmail`. Only the mail is fatal: once it is sent, the document
      delete and the auth delete are both attempted, in that order, and their
      failures are swallowed. */
  method HandleRejection(before: Snapshot, after: Snapshot, userId: string, settings: EmailSettings,
                         world: RejectionWorld)
    returns (steps: seq<Step>, result: HandlerResult)
    ensures steps != [] <==> RejectionApplies(before, after)
    ensures steps == [] ==> result == NullResult
    ensures steps != [] ==> after.Present? && steps[0] == Step(SendMail(RejectionMail(after.data, settings)), world.mailOk)
    ensures steps != [] && !world.mailOk ==> |steps| == 1
    ensures steps != [] && world.mailOk ==>
              steps[1..] == [Step(DeleteUserDoc(userId), world.docDeleteOk), Step(DeleteAuthUser(userId), world.authDeleteOk)]
    ensures result.HttpsError? <==> steps != [] && !steps[0].ok
    ensures result.HttpsError? ==> result == HttpsError(InternalCode, RejectionFailureMessage)
  {
    steps, result := [], NullResult;
    if before.Missing? || after.Missing? {
      return;
    }
    if !IsRejection(before.data, after.data) {
      return;
    }
    if !Truthy(after.data.email) {
      return;
    }
    steps := steps + [Step(SendMail(RejectionMail(after.data, settings)), world.mailOk)];
    if !world.mailOk {
      result := HttpsError(InternalCode, RejectionFailureMessage);
      return;
    }
    steps := steps + [Step(DeleteUserDoc(userId), world.docDeleteOk)];
    steps := steps + [Step(DeleteAuthUser(userId), world.authDeleteOk)];
  }

  /** The handlers are independent: one write can set both of them to work, each
      sending its own mail. */
  lemma BothHandlersCanApply()
    ensures exists before, after :: ApprovalApplies(before, after) && RejectionApplies(before, after)
  {
    var before := UserRecord(Bool(false), Undefined, Undefined, Undefined, Undefined, Undefined, Undefined);
    var after := UserRecord(Bool(true), Str("rejected"), Str("a@b.com"), Undefined, Undefined, Undefined, Undefined);
    assert ApprovalApplies(Present(before), Present(after)) && RejectionApplies(Present(before), Present(after));
  }
}
