/**
 * src/components/entree.js: the entry screen. Its pure parts are the status shown for a
 * looked-up visitor, the ordered validation of the entry form, the payload sent to
 * `POST /v1/enter` and the destination shown on the badge. Its state is the module-level
 * `personnel`, `formations` and `currentQRScanner`, the form fields and what is on screen.
 */
module Entree {
  import opened JsValues
  import opened Visitors
  import opened Api
  import Utils
  import VisiteursService
  import PersonnelService
  import FormationsService
  import PrintBadge
  import Scanner

  // ---------------------------------------------------------------------------
  // Status of a looked-up visitor

  const NeverCame := "Jamais venu"
  const IsPresent := "Présent"
  const HasLeft := "Sorti"

  /** The "Statut" line of the search result: "Jamais venu" unless there is a last visit,
      then "Sorti" or "Présent" by its exit time. */
  function StatusText(v: Visitor): (s: string)
    ensures s == NeverCame <==> PresenceOf(v) == NeverVisited
    ensures s == IsPresent <==> PresenceOf(v) == Present
    ensures s == HasLeft <==> PresenceOf(v) == Exited
  {
    if v.lastVisit.Some? then (if Truthy(v.lastVisit.value.exitedAt) then HasLeft else IsPresent)
    else NeverCame
  }

  // ---------------------------------------------------------------------------
  // The entry form

  /**
   * `Object.fromEntries(new FormData(form))`: the three text inputs, the checked
   * `type-visite` radio (absent when none is checked) and the two selects, whose empty
   * option has the value "".
   */
  datatype EntryForm = EntryForm(
    nom: string,
    prenom: string,
    email: string,
    visitType: Option<string>,
    personnel: string,
    formation: string)

  /** What `form.reset()` restores. */
  const EmptyEntryForm := EntryForm("", "", "", None, "", "")

  /** The reasons, in the order they are checked, for refusing to submit. */
  datatype EntryError = MissingFields | InvalidEmail | MissingVisitType | MissingStaff | MissingTraining

  /** `!data["type-visite"]`. */
  predicate NoVisitType(f: EntryForm) {
    f.visitType.None? || f.visitType.value == ""
  }

  /** The early returns of `gererSoumissionEntree`, on the untrimmed field values. */
  function EntryValidation(f: EntryForm): (e: Option<EntryError>)
    ensures e == Some(MissingFields) <==> f.nom == "" || f.prenom == "" || f.email == ""
    ensures e == Some(InvalidEmail) <==>
      f.nom != "" && f.prenom != "" && f.email != "" && !Utils.IsValidEmail(f.email)
    ensures e == Some(MissingVisitType) <==>
      f.nom != "" && f.prenom != "" && Utils.IsValidEmail(f.email) && NoVisitType(f)
    ensures e == Some(MissingStaff) <==>
      f.nom != "" && f.prenom != "" && Utils.IsValidEmail(f.email)
      && f.visitType == Some("personnel") && f.personnel == ""
    ensures e == Some(MissingTraining) <==>
      f.nom != "" && f.prenom != "" && Utils.IsValidEmail(f.email)
      && f.visitType == Some("formation") && f.formation == ""
    ensures e.None? <==>
      f.nom != "" && f.prenom != "" && Utils.IsValidEmail(f.email) && !NoVisitType(f)
      && (f.visitType.value == "personnel" ==> f.personnel != "")
      && (f.visitType.value == "formation" ==> f.formation != "")
  {
    if f.nom == "" || f.prenom == "" || f.email == "" then Some(MissingFields)
    else if !Utils.IsValidEmail(f.email) then Some(InvalidEmail)
    else if NoVisitType(f) then Some(MissingVisitType)
    else if f.visitType.value == "personnel" && f.personnel == "" then Some(MissingStaff)
    else if f.visitType.value == "formation" && f.formation == "" then Some(MissingTraining)
    else None
  }

  /** `data.x ? parseInt(data.x, 10) : null`. */
  function SelectedId(selected: string): (id: Scalar)
    ensures selected == "" <==> id == Null
    ensures selected != "" ==> id.Num? || id.NaN?
  {
    if selected != "" then ParseInt(selected) else Null
  }

  /** A select option's value, the text of an integer id, reads back as that id. */
  lemma SelectedIdOfIntToString(n: int)
    ensures SelectedId(IntToString(n)) == Num(n)
  {
    IntToStringShape(n);
    ParseIntOfIntToString(n);
  }

  /**
   * The object handed to `cleanFormData`: the visit type is mapped to the purpose the API
   * expects and only the id of that purpose is set; a type that is neither leaves the
   * purpose and both ids undefined.
   */
  function EntryFields(f: EntryForm): (fields: Entries)
    ensures |fields| == 6
  {
    var (purpose, staffMemberId, trainingId) :=
      if f.visitType == Some("personnel") then (Str("visite"), SelectedId(f.personnel), Null)
      else if f.visitType == Some("formation") then (Str("formation"), Null, SelectedId(f.formation))
      else (Undefined, Undefined, Undefined);
    [("first_name", Str(f.prenom)),
     ("last_name", Str(f.nom)),
     ("email", Str(f.email)),
     ("purpose", purpose),
     ("staff_member_id", staffMemberId),
     ("training_id", trainingId)]
  }

  /** The six keys, each once, whatever the form holds. */
  lemma EntryFieldsKeys(f: EntryForm)
    ensures Keys(EntryFields(f)) == ["first_name", "last_name", "email", "purpose", "staff_member_id", "training_id"]
    ensures DistinctKeys(EntryFields(f))
  {
  }

  /** The body of `POST /v1/enter`: the six keys, each once, with the text fields trimmed. */
  function EntryPayload(f: EntryForm): (payload: Entries)
    ensures Keys(payload) == ["first_name", "last_name", "email", "purpose", "staff_member_id", "training_id"]
    ensures DistinctKeys(payload)
    ensures payload[0].1 == Str(Trim(f.prenom)) && payload[1].1 == Str(Trim(f.nom))
    ensures payload[2].1 == Str(Trim(f.email))
  {
    EntryFieldsKeys(f);
    var payload := Utils.Cleaned(EntryFields(f));
    assert Keys(payload) == Keys(EntryFields(f));
    payload
  }

  /** A visit to a staff member: the text fields trimmed, purpose "visite", the staff id
      parsed from the select (null when none is selected) and a null training id. */
  lemma EntryPayloadForStaffVisit(f: EntryForm)
    requires f.visitType == Some("personnel")
    ensures EntryPayload(f) == [("first_name", Str(Trim(f.prenom))),
                                ("last_name", Str(Trim(f.nom))),
                                ("email", Str(Trim(f.email))),
                                ("purpose", Str("visite")),
                                ("staff_member_id", SelectedId(f.personnel)),
                                ("training_id", Null)]
  {
    assert EntryPayload(f) == Utils.Cleaned(EntryFields(f));
  }

  /** A training: purpose "formation", a null staff id and the training id parsed from the
      select. */
  lemma EntryPayloadForTraining(f: EntryForm)
    requires f.visitType == Some("formation")
    ensures EntryPayload(f) == [("first_name", Str(Trim(f.prenom))),
                                ("last_name", Str(Trim(f.nom))),
                                ("email", Str(Trim(f.email))),
                                ("purpose", Str("formation")),
                                ("staff_member_id", Null),
                                ("training_id", SelectedId(f.formation))]
  {
    assert EntryPayload(f) == Utils.Cleaned(EntryFields(f));
  }

  /** Any other visit type leaves the purpose and both ids undefined. */
  lemma EntryPayloadForOtherType(f: EntryForm)
    requires f.visitType != Some("personnel") && f.visitType != Some("formation")
    ensures EntryPayload(f) == [("first_name", Str(Trim(f.prenom))),
                                ("last_name", Str(Trim(f.nom))),
                                ("email", Str(Trim(f.email))),
                                ("purpose", Undefined),
                                ("staff_member_id", Undefined),
                                ("training_id", Undefined)]
  {
    assert EntryPayload(f) == Utils.Cleaned(EntryFields(f));
  }

  /** The checks run on untrimmed values: a name made only of whitespace passes them, so a
      form that is otherwise complete is accepted and the name is sent as the empty string. */
  lemma BlankNamePassesValidationAndIsSentEmpty(f: EntryForm)
    requires f.nom != "" && AllWhitespace(f.nom)
    ensures EntryValidation(f) != Some(MissingFields) || f.prenom == "" || f.email == ""
    ensures f.prenom != "" && Utils.IsValidEmail(f.email) && f.visitType == Some("personnel") && f.personnel != "" ==>
      EntryValidation(f).None?
    ensures EntryPayload(f)[1] == ("last_name", Str(""))
  {
    TrimEmptyIffWhitespace(f.nom);
  }

  // ---------------------------------------------------------------------------
  // The badge shown after a successful entry

  /** The "Local" and "Voir" lines of the badge on screen: looked up like the printed badge,
      but with "" when nothing is found and the room and title shown as they are. */
  function ScreenDestination(visit: Visit, personnel: seq<StaffMember>, formations: seq<Training>)
    : (dc: (Scalar, Scalar))
    ensures !PrintBadge.StaffFound(visit, personnel) && !PrintBadge.TrainingFound(visit, formations) ==>
      dc == (Str(""), Str(""))
    ensures forall i: nat :: (visit.purpose == Str("visite") && Truthy(visit.staffMemberId)
                             && PrintBadge.FirstStaffWithId(personnel, visit.staffMemberId, i)) ==>
      dc == (personnel[i].room, PrintBadge.StaffContact(personnel[i]))
    ensures forall i: nat :: (visit.purpose == Str("formation") && Truthy(visit.trainingId)
                             && PrintBadge.FirstTrainingWithId(formations, visit.trainingId, i)) ==>
      dc == (formations[i].room, formations[i].title)
  {
    PrintBadge.FindStaffReturnsFirst(personnel, visit.staffMemberId);
    PrintBadge.FindTrainingReturnsFirst(formations, visit.trainingId);
    if visit.purpose == Str("visite") && Truthy(visit.staffMemberId) then
      match PrintBadge.FindStaff(personnel, visit.staffMemberId)
      case Some(i) => (personnel[i].room, PrintBadge.StaffContact(personnel[i]))
      case None => (Str(""), Str(""))
    else if visit.purpose == Str("formation") && Truthy(visit.trainingId) then
      match PrintBadge.FindTraining(formations, visit.trainingId)
      case Some(i) => (formations[i].room, formations[i].title)
      case None => (Str(""), Str(""))
    else (Str(""), Str(""))
  }

  /** The badge on screen and the data prepared for printing. */
  datatype BadgeView = BadgeView(
    firstName: Scalar,
    lastName: Scalar,
    destination: Scalar,
    contact: Scalar,
    typeLabel: string,
    badgeId: Scalar,
    printed: PrintBadge.BadgeData)

  /** `afficherBadge`. Any purpose other than "visite" is labelled "formation". */
  function ShowBadge(response: EntryResponse, personnel: seq<StaffMember>, formations: seq<Training>)
    : (b: BadgeView)
    ensures b.firstName == response.visitor.firstName && b.lastName == response.visitor.lastName
    ensures (b.destination, b.contact) == ScreenDestination(response.visit, personnel, formations)
    ensures b.typeLabel == (if response.visit.purpose == Str("visite") then "visite" else "formation")
    ensures b.badgeId == response.badgeId == b.printed.badgeId
    ensures b.printed == PrintBadge.FormatBadgeDataForPrint(response, personnel, formations)
  {
    var (destination, contact) := ScreenDestination(response.visit, personnel, formations);
    BadgeView(
      response.visitor.firstName,
      response.visitor.lastName,
      destination,
      contact,
      if response.visit.purpose == Str("visite") then "visite" else "formation",
      response.badgeId,
      PrintBadge.FormatBadgeDataForPrint(response, personnel, formations))
  }

  /** The badge on screen and the printed badge name the same destination and contact
      whenever the lookup succeeds and the room and title are set; when it fails the
      screen shows "" where the print shows "Non défini". */
  lemma ScreenAndPrintAgree(response: EntryResponse, personnel: seq<StaffMember>, formations: seq<Training>)
    ensures var b := ShowBadge(response, personnel, formations);
      PrintBadge.StaffFound(response.visit, personnel)
      && Truthy(personnel[PrintBadge.FindStaff(personnel, response.visit.staffMemberId).value].room) ==>
        b.destination == b.printed.destination && b.contact == b.printed.contact
    ensures var b := ShowBadge(response, personnel, formations);
      PrintBadge.TrainingFound(response.visit, formations)
      && Truthy(formations[PrintBadge.FindTraining(formations, response.visit.trainingId).value].room)
      && Truthy(formations[PrintBadge.FindTraining(formations, response.visit.trainingId).value].title) ==>
        b.destination == b.printed.destination && b.contact == b.printed.contact
    ensures var b := ShowBadge(response, personnel, formations);
      !PrintBadge.StaffFound(response.visit, personnel) && !PrintBadge.TrainingFound(response.visit, formations) ==>
        b.destination == Str("") && b.printed.destination == PrintBadge.NotDefined
  {
    var visit := response.visit;
    var staff := PrintBadge.FindStaff(personnel, visit.staffMemberId);
    if PrintBadge.StaffFound(visit, personnel) {
      assert PrintBadge.FirstStaffWithId(personnel, visit.staffMemberId, staff.value);
    }
    var training := PrintBadge.FindTraining(formations, visit.trainingId);
    if PrintBadge.TrainingFound(visit, formations) {
      assert PrintBadge.FirstTrainingWithId(formations, visit.trainingId, training.value);
    }
  }

  // ---------------------------------------------------------------------------
  // The two selects

  /**
   * One option of `remplirMenuPersonnel`. The name parts fall back to "Nom inconnu" and
   * "Prénom inconnu" through `||`, and the debug check `nom.includes("inconnu") ||
   * prenom.includes("inconnu")` then calls `includes` on them. Only a string has that
   * method, so the option renders when `nom` is a string that either contains "inconnu" or
   * is followed by a string `prenom`; any other value throws a TypeError. The room is only
   * interpolated into the label, which never throws.
   */
  predicate StaffOptionRenders(p: StaffMember) {
    var nom := Or(p.lastName, Str("Nom inconnu"));
    var prenom := Or(p.firstName, Str("Prénom inconnu"));
    nom.Str? && (Includes(nom.s, "inconnu") || prenom.Str?)
  }

  /** One option of `remplirMenuFormations`, with the same debug check on the title (falling
      back to "Formation inconnue") and then the room (falling back to "Local inconnu"). */
  predicate TrainingOptionRenders(t: Training) {
    var intitule := Or(t.title, Str("Formation inconnue"));
    var local := Or(t.room, Str("Local inconnu"));
    intitule.Str? && (Includes(intitule.s, "inconnu") || local.Str?)
  }

  /** Both selects are filled without an exception. */
  predicate MenusRender(personnel: seq<StaffMember>, formations: seq<Training>) {
    (forall i :: 0 <= i < |personnel| ==> StaffOptionRenders(personnel[i]))
    && (forall i :: 0 <= i < |formations| ==> TrainingOptionRenders(formations[i]))
  }

  /** `remplirMenuPersonnel`: an empty list leaves the placeholder option; otherwise the
      options are added in order until one throws. */
  method FillStaffMenu(personnel: seq<StaffMember>) returns (thrown: bool)
    ensures thrown <==> exists i :: 0 <= i < |personnel| && !StaffOptionRenders(personnel[i])
  {
    if |personnel| == 0 {
      return false;
    }
    var i := 0;
    while i < |personnel|
      invariant 0 <= i <= |personnel|
      invariant forall j :: 0 <= j < i ==> StaffOptionRenders(personnel[j])
    {
      if !StaffOptionRenders(personnel[i]) {
        return true;
      }
      i := i + 1;
    }
    return false;
  }

  /** `remplirMenuFormations`, in the same way. */
  method FillTrainingMenu(formations: seq<Training>) returns (thrown: bool)
    ensures thrown <==> exists i :: 0 <= i < |formations| && !TrainingOptionRenders(formations[i])
  {
    if |formations| == 0 {
      return false;
    }
    var i := 0;
    while i < |formations|
      invariant 0 <= i <= |formations|
      invariant forall j :: 0 <= j < i ==> TrainingOptionRenders(formations[j])
    {
      if !TrainingOptionRenders(formations[i]) {
        return true;
      }
      i := i + 1;
    }
    return false;
  }

  /** A record whose names are strings or missing always renders; a missing last name or
      title even renders whatever comes second, since the fallback text contains "inconnu"
      and `||` stops there. */
  lemma TextOrMissingFieldsRender(p: StaffMember, t: Training)
    ensures (p.lastName.Str? || !Truthy(p.lastName)) && (p.firstName.Str? || !Truthy(p.firstName))
      ==> StaffOptionRenders(p)
    ensures !Truthy(p.lastName) ==> StaffOptionRenders(p)
    ensures (t.title.Str? || !Truthy(t.title)) && (t.room.Str? || !Truthy(t.room))
      ==> TrainingOptionRenders(t)
    ensures !Truthy(t.title) ==> TrainingOptionRenders(t)
  {
    assert OccursAt("Nom inconnu", "inconnu", 4);
    assert OccursAt("Formation inconnue", "inconnu", 10);
  }

  /** A set last name or title that is not a string (a number, `true`) always throws, and so
      does a set room that is not a string behind a non-empty title without "inconnu" (a
      training `{title: "Java", room: 101}`, say): one such training empties both lists at
      init, whatever the staff list holds. */
  lemma NonStringFieldBreaksMenus(p: StaffMember, t: Training, personnel: seq<StaffMember>, formations: seq<Training>)
    ensures Truthy(p.lastName) && !p.lastName.Str? ==> !StaffOptionRenders(p)
    ensures Truthy(t.title) && !t.title.Str? ==> !TrainingOptionRenders(t)
    ensures t.title.Str? && t.title.s != "" && !Includes(t.title.s, "inconnu") && Truthy(t.room) && !t.room.Str?
      ==> !TrainingOptionRenders(t)
    ensures t in formations && !TrainingOptionRenders(t) ==> !MenusRender(personnel, formations)
  {
    if t in formations && !TrainingOptionRenders(t) {
      var k :| 0 <= k < |formations| && formations[k] == t;
    }
  }

  // ---------------------------------------------------------------------------
  // The screen

  class EntryScreen {
    /** The module-level lists the selects and the badge lookup use. */
    var personnel: seq<StaffMember>
    var formations: seq<Training>
    /** The entry form's fields. */
    var form: EntryForm
    /** The visitor shown in the search result (hidden: `None`). */
    var searchResult: Option<Visitor>
    /** The badge on screen, if any. */
    var badge: Option<BadgeView>
    /** `currentQRScanner`. */
    const scanner: Scanner.ScannerSlot

    ghost predicate Valid()
      reads this, scanner
    {
      scanner.Valid()
    }

    constructor()
      ensures Valid() && fresh(scanner)
      ensures personnel == [] && formations == [] && form == EmptyEntryForm
      ensures searchResult.None? && badge.None? && scanner.current.None?
    {
      personnel := [];
      formations := [];
      form := EmptyEntryForm;
      searchResult := None;
      badge := None;
      scanner := new Scanner.ScannerSlot();
    }

    /**
     * `initEntreeComponent`: both lists come from their services, which answer `[]` to a
     * failed call or an unexpected body. The screen is then built and the two selects are
     * filled; when an option throws, the handler empties both lists and builds the screen
     * again, with empty selects. Either way the form is blank and the search result and the
     * badge are hidden. The scanner is not touched.
     */
    method Init(staffResponse: Result<ListBody<StaffMember>>, trainingResponse: Result<ListBody<Training>>)
      requires Valid()
      modifies this
      ensures Valid()
      ensures var staff := PersonnelService.GetPersonnel(staffResponse);
        var trainings := FormationsService.GetFormationsDuJour(trainingResponse);
        if MenusRender(staff, trainings) then personnel == staff && formations == trainings
        else personnel == [] && formations == []
      ensures staffResponse.Err? ==> personnel == []
      ensures trainingResponse.Err? ==> formations == []
      ensures form == EmptyEntryForm && searchResult.None? && badge.None?
    {
      personnel := PersonnelService.GetPersonnel(staffResponse);
      formations := FormationsService.GetFormationsDuJour(trainingResponse);
      form := EmptyEntryForm;
      searchResult := None;
      badge := None;
      var thrown := FillStaffMenu(personnel);
      if !thrown {
        thrown := FillTrainingMenu(formations);
      }
      if thrown {
        personnel := [];
        formations := [];
        form := EmptyEntryForm;
        searchResult := None;
        badge := None;
      }
    }

    /** `rechercherParEmail`: the trimmed email must be non-empty and valid before a lookup
        is sent; a failed lookup hides the result. */
    method SearchByEmail(input: string, response: Result<VisiteursService.LookupResponse>)
      returns (request: Option<Request>)
      requires Valid()
      modifies this
      ensures Valid()
      ensures request.Some? <==> Utils.IsValidEmail(Trim(input))
      ensures request.Some? ==> request.value == VisiteursService.EmailLookupRequest(Trim(input))
      ensures request.None? ==> searchResult == old(searchResult)
      ensures request.Some? ==>
        searchResult == (match VisiteursService.EmailLookupResult(response)
                         case Ok(v) => Some(v)
                         case Err(_) => None)
      ensures personnel == old(personnel) && formations == old(formations)
      ensures form == old(form) && badge == old(badge)
    {
      var email := Trim(input);
      if email == "" {
        return None;
      }
      if !Utils.IsValidEmail(email) {
        return None;
      }
      request := Some(VisiteursService.EmailLookupRequest(email));
      match VisiteursService.EmailLookupResult(response)
      case Ok(v) => searchResult := Some(v);
      case Err(_) => searchResult := None;
    }

    /** `rechercherParBadgeId`: any non-empty trimmed id is looked up. */
    method SearchByBadgeId(input: string, response: Result<VisiteursService.LookupResponse>)
      returns (request: Option<Request>)
      requires Valid()
      modifies this
      ensures Valid()
      ensures request.Some? <==> Trim(input) != ""
      ensures request.Some? ==> request.value == VisiteursService.BadgeLookupRequest(Trim(input))
      ensures request.None? ==> searchResult == old(searchResult)
      ensures request.Some? ==>
        searchResult == (match VisiteursService.BadgeLookupResult(response)
                         case Ok(v) => Some(v)
                         case Err(_) => None)
      ensures personnel == old(personnel) && formations == old(formations)
      ensures form == old(form) && badge == old(badge)
    {
      var badgeId := Trim(input);
      if badgeId == "" {
        return None;
      }
      request := Some(VisiteursService.BadgeLookupRequest(badgeId));
      match VisiteursService.BadgeLookupResult(response)
      case Ok(v) => searchResult := Some(v);
      case Err(_) => searchResult := None;
    }

    /** `onQRCodeScanned`: the scanner is stopped first, then the decoded text is looked up
        as it is; a failed lookup leaves the screen as it was. */
    method OnQRCodeScanned(decodedText: string, response: Result<VisiteursService.LookupResponse>)
      returns (request: Option<Request>)
      requires Valid()
      modifies this, scanner
      ensures Valid()
      ensures scanner.current.None? && scanner.running == {}
      ensures request == Some(VisiteursService.BadgeLookupRequest(decodedText))
      ensures searchResult == (match VisiteursService.BadgeLookupResult(response)
                               case Ok(v) => Some(v)
                               case Err(_) => old(searchResult))
      ensures personnel == old(personnel) && formations == old(formations)
      ensures form == old(form) && badge == old(badge)
    {
      scanner.Stop();
      request := Some(VisiteursService.BadgeLookupRequest(decodedText));
      match VisiteursService.BadgeLookupResult(response)
      case Ok(v) => searchResult := Some(v);
      case Err(_) =>
    }

    /** `utiliserVisiteurExistant`: the visitor's names and email fill the form, "" standing
        for a missing value, and the search result is hidden. */
    method UseExistingVisitor(v: Visitor)
      requires Valid()
      modifies this
      ensures Valid()
      ensures form == old(form).(nom := ToString(Or(v.lastName, Str(""))),
                                 prenom := ToString(Or(v.firstName, Str(""))),
                                 email := ToString(Or(v.email, Str(""))))
      ensures searchResult.None?
      ensures personnel == old(personnel) && formations == old(formations) && badge == old(badge)
    {
      form := form.(nom := ToString(Or(v.lastName, Str(""))),
                    prenom := ToString(Or(v.firstName, Str(""))),
                    email := ToString(Or(v.email, Str(""))));
      searchResult := None;
    }

    /**
     * `gererSoumissionEntree`: a form that fails validation sends nothing and changes
     * nothing; otherwise the cleaned payload is posted, and only a successful call shows the
     * badge and resets the form.
     */
    method Submit(response: Result<EntryResponse>) returns (request: Option<Request>)
      requires Valid()
      modifies this
      ensures Valid()
      ensures request.Some? <==> EntryValidation(old(form)).None?
      ensures request.Some? ==> request.value == VisiteursService.EnterRequest(EntryPayload(old(form)))
      ensures request.Some? && response.Ok? ==>
        form == EmptyEntryForm && badge == Some(ShowBadge(response.value, personnel, formations))
      ensures request.None? || response.Err? ==> form == old(form) && badge == old(badge)
      ensures personnel == old(personnel) && formations == old(formations) && searchResult == old(searchResult)
    {
      if EntryValidation(form).Some? {
        return None;
      }
      EntryFieldsKeys(form);
      var payload := Utils.CleanFormData(EntryFields(form));
      request := Some(VisiteursService.EnterRequest(payload));
      if response.Ok? {
        badge := Some(ShowBadge(response.value, personnel, formations));
        form := EmptyEntryForm;
      }
    }

    /** `startQRScanner`. */
    method StartQRScanner(h: Option<Scanner.Handle>)
      requires Valid()
      modifies scanner
      ensures Valid()
      ensures scanner.current == h && |scanner.running| <= 1
    {
      scanner.Start(h);
    }

    /** `stopCurrentScanner`, also run by `switchToManualSearch`. */
    method StopCurrentScanner()
      requires Valid()
      modifies scanner
      ensures Valid()
      ensures scanner.current.None? && scanner.running == {}
    {
      scanner.Stop();
    }

    /** `switchToQRSearch`: nothing happens until the QR libraries are loaded. */
    method SwitchToQRSearch(librariesLoaded: bool, h: Option<Scanner.Handle>)
      requires Valid()
      modifies scanner
      ensures Valid()
      ensures librariesLoaded ==> scanner.current == h
      ensures !librariesLoaded ==> scanner.current == old(scanner.current) && scanner.running == old(scanner.running)
      ensures |scanner.running| <= 1
    {
      if !librariesLoaded {
        return;
      }
      scanner.Start(h);
    }
  }
}
