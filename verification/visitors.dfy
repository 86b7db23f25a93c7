/**
 * The records the backend returns, with the fields the kiosk reads, and the presence status
 * derived from a visitor's last visit. Every field is a JavaScript primitive because the
 * source tests them for truthiness and compares them loosely; `last_visit` is either an
 * object or absent (undefined or null).
 */
module Visitors {
  import opened JsValues

  datatype Visit = Visit(
    badgeId: Scalar,
    purpose: Scalar,
    staffMemberId: Scalar,
    trainingId: Scalar,
    enteredAt: Scalar,
    exitedAt: Scalar)

  datatype Visitor = Visitor(
    id: Scalar,
    firstName: Scalar,
    lastName: Scalar,
    email: Scalar,
    badgeId: Scalar,
    heureSortie: Scalar,
    exitTime: Scalar,
    lastVisit: Option<Visit>)

  datatype StaffMember = StaffMember(id: Scalar, firstName: Scalar, lastName: Scalar, room: Scalar)

  datatype Training = Training(id: Scalar, title: Scalar, room: Scalar)

  /** The body of a successful `POST /v1/enter`. */
  datatype EntryResponse = EntryResponse(visitor: Visitor, visit: Visit, badgeId: Scalar)

  datatype Presence = NeverVisited | Present | Exited

  /** A visitor never came when there is no last visit; otherwise they are still present
      exactly when that visit has no (truthy) exit time. */
  function PresenceOf(v: Visitor): (p: Presence)
    ensures p == NeverVisited <==> v.lastVisit.None?
    ensures p == Exited <==> v.lastVisit.Some? && Truthy(v.lastVisit.value.exitedAt)
    ensures p == Present <==> v.lastVisit.Some? && !Truthy(v.lastVisit.value.exitedAt)
  {
    match v.lastVisit
    case None => NeverVisited
    case Some(visit) => if Truthy(visit.exitedAt) then Exited else Present
  }
}
