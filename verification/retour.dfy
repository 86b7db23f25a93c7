/**
 * src/components/retour.js: the return screen. A visitor found by email becomes
 * `visiteurCourant` when the visitor record carries an exit time; confirming posts the chosen
 * motive and the two select values to `POST /v1/return`. Its state is `visiteurCourant`, the
 * email input, the checked `nouveau-motif` radio and the two selects.
 */
module Retour {
  import opened JsValues
  import opened Visitors
  import opened Api
  import Utils
  import VisiteursService
  import Entree

  /** `visiteur.heure_sortie || visiteur.exit_time`: the return check reads the visitor
      record's own exit fields, not the last visit. A visitor is refused exactly when both
      fields hold one of the six falsy values. */
  predicate ReturnEligible(v: Visitor)
    ensures !ReturnEligible(v) <==> v.heureSortie in FalsyValues && v.exitTime in FalsyValues
  {
    TruthyIffNotFalsy(v.heureSortie);
    TruthyIffNotFalsy(v.exitTime);
    Truthy(v.heureSortie) || Truthy(v.exitTime)
  }

  /** The return check ignores `last_visit` entirely, so a visitor whose last visit is over
      but whose record has no exit field is told they are still inside. */
  lemma ReturnEligibilityIgnoresLastVisit(v: Visitor, lastVisit: Option<Visit>)
    ensures ReturnEligible(v.(lastVisit := lastVisit)) == ReturnEligible(v)
    ensures var left := Visitor(Num(1), Str("Ada"), Str("L"), Str("a@b.co"), Str("B1"), Undefined, Null,
                                Some(Visit(Str("B1"), Str("visite"), Num(2), Null, Str("08:00"), Str("09:00"))));
      PresenceOf(left) == Exited && !ReturnEligible(left)
  {
  }

  /** Why `confirmerRetour` stops before calling the API, in the order it checks. */
  datatype ReturnError = NoVisitor | MissingMotif | MissingStaff | MissingTraining

  /** `!motif` for the value of the checked radio, absent when none is checked. */
  predicate NoMotif(motif: Option<string>) {
    motif.None? || motif.value == ""
  }

  /** The early returns of `confirmerRetour`. */
  function ReturnValidation(current: Option<Visitor>, motif: Option<string>, staffSelect: string, trainingSelect: string)
    : (e: Option<ReturnError>)
    ensures e == Some(NoVisitor) <==> current.None?
    ensures e == Some(MissingMotif) <==> current.Some? && NoMotif(motif)
    ensures e == Some(MissingStaff) <==> current.Some? && motif == Some("personnel") && staffSelect == ""
    ensures e == Some(MissingTraining) <==> current.Some? && motif == Some("formation") && trainingSelect == ""
    ensures e.None? <==>
      current.Some? && !NoMotif(motif)
      && (motif.value == "personnel" ==> staffSelect != "")
      && (motif.value == "formation" ==> trainingSelect != "")
  {
    if current.None? then Some(NoVisitor)
    else if NoMotif(motif) then Some(MissingMotif)
    else if motif.value == "personnel" && staffSelect == "" then Some(MissingStaff)
    else if motif.value == "formation" && trainingSelect == "" then Some(MissingTraining)
    else None
  }

  /** `value || null` for a select. */
  function SelectOrNull(selected: string): (r: Scalar)
    ensures selected == "" <==> r == Null
    ensures selected != "" ==> r == Str(selected)
  {
    if selected != "" then Str(selected) else Null
  }

  /** The body of `POST /v1/return`: five distinct keys; the visitor's email and id, the
      motive as chosen, and each select as text or null when it is empty. */
  function ReturnPayload(v: Visitor, motif: string, staffSelect: string, trainingSelect: string): (payload: Entries)
    ensures Keys(payload) == ["email", "visitor_id", "visit_type", "staff_member_id", "training_id"]
    ensures DistinctKeys(payload)
    ensures payload[0].1 == v.email && payload[1].1 == v.id && payload[2].1 == Str(motif)
    ensures payload[3].1 == Null <==> staffSelect == ""
    ensures payload[4].1 == Null <==> trainingSelect == ""
  {
    [("email", v.email),
     ("visitor_id", v.id),
     ("visit_type", Str(motif)),
     ("staff_member_id", SelectOrNull(staffSelect)),
     ("training_id", SelectOrNull(trainingSelect))]
  }

  /**
   * Unlike the entry form, the return payload sends the motive as chosen ("personnel" is not
   * mapped to "visite"), sends the ids as the select's text, and keeps both selects whatever
   * the motive: a staff member picked before switching to a training is still sent.
   */
  lemma ReturnPayloadDiffersFromEntry(v: Visitor, f: Entree.EntryForm, staffSelect: string, trainingSelect: string)
    requires f.visitType == Some("personnel") && f.personnel == staffSelect
    requires staffSelect != "" && trainingSelect != ""
    ensures var p := ReturnPayload(v, "personnel", staffSelect, trainingSelect);
      p[2] == ("visit_type", Str("personnel")) && Entree.EntryPayload(f)[3] == ("purpose", Str("visite"))
      && p[3] == ("staff_member_id", Str(staffSelect))
      && p[4] == ("training_id", Str(trainingSelect)) && Entree.EntryPayload(f)[5] == ("training_id", Null)
  {
    Entree.EntryPayloadForStaffVisit(f);
  }

  /** The whole request `confirmerRetour` sends, or `None` when it stops first. */
  function ReturnRequestFor(current: Option<Visitor>, motif: Option<string>, staffSelect: string, trainingSelect: string)
    : (request: Option<Request>)
    ensures request.Some? <==> ReturnValidation(current, motif, staffSelect, trainingSelect).None?
    ensures request.Some? ==> current.Some? && motif.Some?
    ensures request.Some? ==>
      request.value == VisiteursService.ReturnRequest(ReturnPayload(current.value, motif.value, staffSelect, trainingSelect))
  {
    if ReturnValidation(current, motif, staffSelect, trainingSelect).Some? then None
    else Some(VisiteursService.ReturnRequest(ReturnPayload(current.value, motif.value, staffSelect, trainingSelect)))
  }

  class ReturnScreen {
    /** `visiteurCourant`. */
    var current: Option<Visitor>
    /** The `visiteur-email` input. */
    var email: string
    /** The checked `nouveau-motif` radio's value, if one is checked. */
    var motif: Option<string>
    /** The `personnel-select` and `formations-select` values ("" for the empty option). */
    var staffSelect: string
    var trainingSelect: string

    /** The visitor on screen is one whose record carries an exit time. */
    ghost predicate Valid()
      reads this
    {
      current.Some? ==> ReturnEligible(current.value)
    }

    constructor()
      ensures Valid()
      ensures current.None? && email == "" && motif.None? && staffSelect == "" && trainingSelect == ""
    {
      current := None;
      email := "";
      motif := None;
      staffSelect := "";
      trainingSelect := "";
    }

    /** `afficherInfoVisiteur`. */
    method ShowVisitor(v: Visitor)
      requires Valid() && ReturnEligible(v)
      modifies this
      ensures Valid()
      ensures current == Some(v)
      ensures email == old(email) && motif == old(motif)
      ensures staffSelect == old(staffSelect) && trainingSelect == old(trainingSelect)
    {
      current := Some(v);
    }

    /** `cacherInfoVisiteur`. */
    method HideVisitor()
      requires Valid()
      modifies this
      ensures Valid()
      ensures current.None?
      ensures email == old(email) && motif == old(motif)
      ensures staffSelect == old(staffSelect) && trainingSelect == old(trainingSelect)
    {
      current := None;
    }

    /**
     * `rechercherParEmail`: an empty or invalid email is refused before any lookup; a visitor
     * with an exit time is shown, any other is refused ("encore présent") and the screen
     * kept; a failed lookup clears it.
     */
    method SearchByEmail(response: Result<VisiteursService.LookupResponse>)
      returns (request: Option<Request>)
      requires Valid()
      modifies this
      ensures Valid()
      ensures request.Some? <==> Utils.IsValidEmail(Trim(old(email)))
      ensures request.Some? ==> request.value == VisiteursService.EmailLookupRequest(Trim(old(email)))
      ensures request.None? ==> current == old(current)
      ensures request.Some? ==>
        current == (match VisiteursService.EmailLookupResult(response)
                    case Err(_) => None
                    case Ok(v) => if ReturnEligible(v) then Some(v) else old(current))
      ensures email == old(email) && motif == old(motif)
      ensures staffSelect == old(staffSelect) && trainingSelect == old(trainingSelect)
    {
      var e := Trim(email);
      if e == "" {
        return None;
      }
      if !Utils.IsValidEmail(e) {
        return None;
      }
      request := Some(VisiteursService.EmailLookupRequest(e));
      match VisiteursService.EmailLookupResult(response)
      case Err(_) =>
        HideVisitor();
      case Ok(v) =>
        if ReturnEligible(v) {
          ShowVisitor(v);
        }
    }

    /**
     * `confirmerRetour`: nothing is sent unless a visitor is selected, a motive chosen and
     * the matching select filled; on success the email, the current visitor and the motive
     * are cleared (the selects keep their values); on failure nothing is reset.
     */
    method ConfirmReturn(response: Result<()>) returns (request: Option<Request>)
      requires Valid()
      modifies this
      ensures Valid()
      ensures request == ReturnRequestFor(old(current), old(motif), old(staffSelect), old(trainingSelect))
      ensures request.Some? ==> old(current).Some?
      ensures request.Some? && response.Ok? ==> current.None? && email == "" && motif.None?
      ensures request.None? || response.Err? ==>
        current == old(current) && email == old(email) && motif == old(motif)
      ensures staffSelect == old(staffSelect) && trainingSelect == old(trainingSelect)
    {
      request := ReturnRequestFor(current, motif, staffSelect, trainingSelect);
      if request.Some? && response.Ok? {
        email := "";
        HideVisitor();
        motif := None;
      }
    }
  }
}
