/**
 * src/utils/printBadge.js: `formatBadgeDataForPrint`, which turns the entry response into the
 * data the print window lays out. The destination and the contact come from the staff list
 * (purpose "visite") or the training list (purpose "formation"), looked up with `find` and
 * loose equality on ids; anything not found leaves the "Non défini" placeholder.
 */
module PrintBadge {
  import opened JsValues
  import opened Visitors

  const NotDefined := Str("Non défini")
  const RoomNotDefined := Str("Local non défini")
  const TrainingNotDefined := Str("Formation non définie")

  /** The badge fields the print window receives (`entryTime` is left out: it is a locale
      rendering of a date). */
  datatype BadgeData = BadgeData(
    badgeId: Scalar,
    lastName: Scalar,
    firstName: Scalar,
    email: Scalar,
    purpose: Scalar,
    destination: Scalar,
    contact: Scalar)

  /** `personnel.find((p) => p.id == id)`, as an index. */
  function FindStaff(personnel: seq<StaffMember>, id: Scalar): Option<nat> {
    FindFirst(personnel, (p: StaffMember) => LooseEq(p.id, id))
  }

  /** `formations.find((f) => f.id == id)`, as an index. */
  function FindTraining(formations: seq<Training>, id: Scalar): Option<nat> {
    FindFirst(formations, (f: Training) => LooseEq(f.id, id))
  }

  /** `i` is the first position whose id loosely equals `id`. */
  ghost predicate FirstStaffWithId(personnel: seq<StaffMember>, id: Scalar, i: nat) {
    i < |personnel| && LooseEq(personnel[i].id, id)
    && forall j :: 0 <= j < i ==> !LooseEq(personnel[j].id, id)
  }

  ghost predicate FirstTrainingWithId(formations: seq<Training>, id: Scalar, i: nat) {
    i < |formations| && LooseEq(formations[i].id, id)
    && forall j :: 0 <= j < i ==> !LooseEq(formations[j].id, id)
  }

  /** The lookup answers the first matching position, and only it. */
  lemma FindStaffReturnsFirst(personnel: seq<StaffMember>, id: Scalar)
    ensures forall i: nat :: FirstStaffWithId(personnel, id, i) ==> FindStaff(personnel, id) == Some(i)
  {
  }

  lemma FindTrainingReturnsFirst(formations: seq<Training>, id: Scalar)
    ensures forall i: nat :: FirstTrainingWithId(formations, id, i) ==> FindTraining(formations, id) == Some(i)
  {
  }

  /** `${personne.last_name} ${personne.first_name}`. */
  function StaffContact(p: StaffMember): Scalar {
    Str(ToString(p.lastName) + " " + ToString(p.firstName))
  }

  /** The visit names a staff member that the list holds. */
  predicate StaffFound(visit: Visit, personnel: seq<StaffMember>) {
    visit.purpose == Str("visite") && Truthy(visit.staffMemberId)
    && FindStaff(personnel, visit.staffMemberId).Some?
  }

  /** The visit names a training that the list holds. */
  predicate TrainingFound(visit: Visit, formations: seq<Training>) {
    visit.purpose == Str("formation") && Truthy(visit.trainingId)
    && FindTraining(formations, visit.trainingId).Some?
  }

  function FormatBadgeDataForPrint(response: EntryResponse, personnel: seq<StaffMember>, formations: seq<Training>)
    : (b: BadgeData)
    // The badge id is copied; the visitor's fields and the purpose fall back to the placeholder.
    ensures b.badgeId == response.badgeId
    ensures b.lastName == Or(response.visitor.lastName, NotDefined)
    ensures b.firstName == Or(response.visitor.firstName, NotDefined)
    ensures b.email == Or(response.visitor.email, NotDefined)
    ensures b.purpose == Or(response.visit.purpose, NotDefined)
    // Nothing found: both placeholders.
    ensures !StaffFound(response.visit, personnel) && !TrainingFound(response.visit, formations) ==>
      b.destination == NotDefined && b.contact == NotDefined
    // A "visite" names the first staff member with that id: their room and their name.
    ensures forall i: nat :: (response.visit.purpose == Str("visite") && Truthy(response.visit.staffMemberId)
                             && FirstStaffWithId(personnel, response.visit.staffMemberId, i)) ==>
      b.destination == Or(personnel[i].room, RoomNotDefined) && b.contact == StaffContact(personnel[i])
    // A "formation" names the first training with that id: its room and its title.
    ensures forall i: nat :: (response.visit.purpose == Str("formation") && Truthy(response.visit.trainingId)
                             && FirstTrainingWithId(formations, response.visit.trainingId, i)) ==>
      b.destination == Or(formations[i].room, RoomNotDefined) && b.contact == Or(formations[i].title, TrainingNotDefined)
  {
    var visit := response.visit;
    FindStaffReturnsFirst(personnel, visit.staffMemberId);
    FindTrainingReturnsFirst(formations, visit.trainingId);
    var (destination, contact) :=
      if visit.purpose == Str("visite") && Truthy(visit.staffMemberId) then
        match FindStaff(personnel, visit.staffMemberId)
        case Some(i) => (Or(personnel[i].room, RoomNotDefined), StaffContact(personnel[i]))
        case None => (NotDefined, NotDefined)
      else if visit.purpose == Str("formation") && Truthy(visit.trainingId) then
        match FindTraining(formations, visit.trainingId)
        case Some(i) => (Or(formations[i].room, RoomNotDefined), Or(formations[i].title, TrainingNotDefined))
        case None => (NotDefined, NotDefined)
      else (NotDefined, NotDefined);
    BadgeData(
      response.badgeId,
      Or(response.visitor.lastName, NotDefined),
      Or(response.visitor.firstName, NotDefined),
      Or(response.visitor.email, NotDefined),
      Or(visit.purpose, NotDefined),
      destination,
      contact)
  }

  /** The staff list is read only for a "visite" and the training list only for a
      "formation": replacing the other list changes nothing. */
  lemma BadgeReadsOnlyTheListOfItsPurpose(
    response: EntryResponse,
    personnel: seq<StaffMember>, otherPersonnel: seq<StaffMember>,
    formations: seq<Training>, otherFormations: seq<Training>)
    ensures response.visit.purpose != Str("formation") ==>
      FormatBadgeDataForPrint(response, personnel, formations)
        == FormatBadgeDataForPrint(response, personnel, otherFormations)
    ensures response.visit.purpose != Str("visite") ==>
      FormatBadgeDataForPrint(response, personnel, formations)
        == FormatBadgeDataForPrint(response, otherPersonnel, formations)
  {
  }

  /** A falsy id (missing, null, 0, "") gives the placeholders whatever the lists hold. */
  lemma FalsyIdGivesPlaceholders(response: EntryResponse, personnel: seq<StaffMember>, formations: seq<Training>)
    requires !Truthy(response.visit.staffMemberId) && !Truthy(response.visit.trainingId)
    ensures FormatBadgeDataForPrint(response, personnel, formations).destination == NotDefined
    ensures FormatBadgeDataForPrint(response, personnel, formations).contact == NotDefined
  {
  }

  /** An illustration on one scenario: ids are compared with `==`, so a visit that carries
      the staff id as text still finds the staff member listed with the numeric id, and the
      badge gets their room and name. The general facts are `JsValues.LooseEqNumAndItsString`
      and `FindStaffReturnsFirst`. */
  lemma BadgeFindsStaffByTextualId(response: EntryResponse, personnel: seq<StaffMember>, formations: seq<Training>, n: int)
    requires response.visit.purpose == Str("visite")
    requires response.visit.staffMemberId == Str(IntToString(n))
    requires |personnel| > 0 && personnel[0].id == Num(n)
    ensures FormatBadgeDataForPrint(response, personnel, formations).destination == Or(personnel[0].room, RoomNotDefined)
    ensures FormatBadgeDataForPrint(response, personnel, formations).contact == StaffContact(personnel[0])
  {
    LooseEqNumAndItsString(n);
    IntToStringShape(n);
    assert FirstStaffWithId(personnel, response.visit.staffMemberId, 0);
  }
}
