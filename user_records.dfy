/**
 * The user document as the two `onUpdate` handlers read it, the two transition
 * tests, and the defaults the handlers fill in.
 */
module UserRecords {
  import opened JsValues

  /** The fields of `users/{userId}` the handlers look at; an absent field is `Undefined`. */
  datatype UserRecord = UserRecord(
    approved: JsValue,
    status: JsValue,
    email: JsValue,
    name: JsValue,
    firstName: JsValue,
    fcmTokens: JsValue,
    rejectionReason: JsValue)

  /** `change.before.data()` / `change.after.data()`: no data when the snapshot is empty. */
  datatype Snapshot = Missing | Present(data: UserRecord)

  const DefaultDisplayName: string := "User"
  const DefaultRejectionReason: string := "Your application did not meet our current requirements."

  /** The approval handler's test: `!before.approved && after.approved`. */
  predicate IsApproval(before: UserRecord, after: UserRecord) {
    !Truthy(before.approved) && Truthy(after.approved)
  }

  /** The rejection handler's test:
      `(before.approved && !after.approved) || after.status === 'rejected'`. */
  predicate IsRejection(before: UserRecord, after: UserRecord) {
    (Truthy(before.approved) && !Truthy(after.approved)) || after.status == Str("rejected")
  }

  /** The two tests overlap exactly on writes that switch `approved` on while
      `status` is the string "rejected"; no precedence is given to either. */
  lemma TransitionsOverlap(before: UserRecord, after: UserRecord)
    ensures IsApproval(before, after) && IsRejection(before, after) <==>
            !Truthy(before.approved) && Truthy(after.approved) && after.status == Str("rejected")
    ensures after.status != Str("rejected") ==> !(IsApproval(before, after) && IsRejection(before, after))
  {
  }

  /** `name || firstName || 'User'`: the first truthy of the two names, else "User". */
  function DisplayName(u: UserRecord): (r: JsValue)
    ensures Truthy(r)
    ensures r == FirstTruthy([u.name, u.firstName], Str(DefaultDisplayName))
  {
    OrChainIsFirstTruthy(u.name, u.firstName, Str(DefaultDisplayName));
    Or(Or(u.name, u.firstName), Str(DefaultDisplayName))
  }

  /** `rejectionReason || <default>`: the stored reason when truthy, else the fixed sentence. */
  function RejectionReason(u: UserRecord): (r: JsValue)
    ensures Truthy(r)
    ensures r == FirstTruthy([u.rejectionReason], Str(DefaultRejectionReason))
  {
    Or(u.rejectionReason, Str(DefaultRejectionReason))
  }
}
