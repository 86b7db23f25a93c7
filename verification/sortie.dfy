/**
 * src/components/sortie.js: the exit screen. A visitor found by email or by a scanned badge
 * becomes `visiteurCourant` only when they are still present; confirming posts their badge
 * id to `POST /v1/exit`. Its state is `visiteurCourant`, `currentQRScanner` and the email
 * input.
 */
module Sortie {
  import opened JsValues
  import opened Visitors
  import opened Api
  import Utils
  import VisiteursService
  import Scanner

  /** What the screen makes of a looked-up visitor. */
  datatype ExitVerdict =
    | Eligible        // shown, ready to leave
    | AlreadyExited   // "Ce visiteur est déjà sorti"
    | NoActiveVisit   // "Ce visiteur n'a pas de visite active"

  /** The two checks of `rechercherParEmail`: an exit time first, then a missing last visit. */
  function EmailSearchVerdict(v: Visitor): (verdict: ExitVerdict)
    ensures verdict == Eligible <==> PresenceOf(v) == Present
    ensures verdict == AlreadyExited <==> PresenceOf(v) == Exited
    ensures verdict == NoActiveVisit <==> PresenceOf(v) == NeverVisited
  {
    if v.lastVisit.Some? && Truthy(v.lastVisit.value.exitedAt) then AlreadyExited
    else if v.lastVisit.None? || Truthy(v.lastVisit.value.exitedAt) then NoActiveVisit
    else Eligible
  }

  /** `handleQRCodeScanned` only rejects visitors who have already left. */
  function ScanVerdict(v: Visitor): (verdict: ExitVerdict)
    ensures verdict != NoActiveVisit
    ensures verdict == AlreadyExited <==> PresenceOf(v) == Exited
  {
    if v.lastVisit.Some? && Truthy(v.lastVisit.value.exitedAt) then AlreadyExited else Eligible
  }

  /** The scan path lacks the "no active visit" check, but it looks visitors up by badge,
      and that lookup only succeeds with a last visit: both paths then agree. */
  lemma ScanAgreesWithEmailSearchOnBadgeLookups(r: Result<VisiteursService.LookupResponse>)
    requires VisiteursService.BadgeLookupResult(r).Ok?
    ensures ScanVerdict(VisiteursService.BadgeLookupResult(r).value)
         == EmailSearchVerdict(VisiteursService.BadgeLookupResult(r).value)
  {
  }

  /** The scan check alone would admit a visitor who never came. */
  lemma ScanVerdictAdmitsNeverVisited(v: Visitor)
    requires v.lastVisit.None?
    ensures ScanVerdict(v) == Eligible && EmailSearchVerdict(v) == NoActiveVisit
  {
  }

  /** `visiteurCourant.badge_id || visiteurCourant.last_visit?.badge_id`: the visitor's own
      badge id when set, the last visit's otherwise. */
  function ExitBadgeId(v: Visitor): (id: Scalar)
    ensures Truthy(v.badgeId) ==> id == v.badgeId
    ensures !Truthy(v.badgeId) && v.lastVisit.Some? ==> id == v.lastVisit.value.badgeId
    ensures Truthy(id) <==> Truthy(v.badgeId) || (v.lastVisit.Some? && Truthy(v.lastVisit.value.badgeId))
  {
    Or(v.badgeId, if v.lastVisit.Some? then v.lastVisit.value.badgeId else Undefined)
  }

  /** The body of `POST /v1/exit` for the current visitor, or `None` when `confirmerSortie`
      stops before calling the API: no visitor selected, or no badge id to send. */
  function ExitPayload(current: Option<Visitor>): (payload: Option<Entries>)
    ensures payload.Some? <==> current.Some? && Truthy(ExitBadgeId(current.value))
    ensures payload.Some? ==> payload.value == [("badge_id", ExitBadgeId(current.value))]
  {
    if current.None? then None
    else
      var badgeId := ExitBadgeId(current.value);
      if !Truthy(badgeId) then None else Some([("badge_id", badgeId)])
  }

  class ExitScreen {
    /** `visiteurCourant`. */
    var current: Option<Visitor>
    /** The `visiteur-email` input. */
    var email: string
    /** `currentQRScanner`. */
    const scanner: Scanner.ScannerSlot

    /** The scanner holds at most its own session, and the visitor on screen is one who
        was found still inside. */
    ghost predicate Valid()
      reads this, scanner
    {
      scanner.Valid() && (current.Some? ==> ScanVerdict(current.value) == Eligible)
    }

    constructor()
      ensures Valid() && fresh(scanner)
      ensures current.None? && email == "" && scanner.current.None?
    {
      current := None;
      email := "";
      scanner := new Scanner.ScannerSlot();
    }

    /** `afficherInfoVisiteur`. */
    method ShowVisitor(v: Visitor)
      requires Valid() && ScanVerdict(v) == Eligible
      modifies this
      ensures Valid()
      ensures current == Some(v) && email == old(email)
    {
      current := Some(v);
    }

    /** `cacherInfoVisiteur`. */
    method HideVisitor()
      requires Valid()
      modifies this
      ensures Valid()
      ensures current.None? && email == old(email)
    {
      current := None;
    }

    /**
     * `rechercherParEmail`: an empty or invalid email is refused before any lookup; a
     * present visitor is shown, one who left or never came is refused and the screen kept,
     * and a failed lookup clears it.
     */
    method SearchByEmail(response: Result<VisiteursService.LookupResponse>)
      returns (request: Option<Request>)
      requires Valid()
      modifies this
      ensures Valid()
      ensures request.Some? <==> Utils.IsValidEmail(Trim(old(email)))
      ensures request.Some? ==> request.value == VisiteursService.EmailLookupRequest(Trim(old(email)))
      ensures request.None? ==> current == old(current)
      ensures request.Some? ==>
        current == (match VisiteursService.EmailLookupResult(response)
                    case Err(_) => None
                    case Ok(v) => if EmailSearchVerdict(v) == Eligible then Some(v) else old(current))
      ensures email == old(email)
    {
      var e := Trim(email);
      if e == "" {
        return None;
      }
      if !Utils.IsValidEmail(e) {
        return None;
      }
      request := Some(VisiteursService.EmailLookupRequest(e));
      match VisiteursService.EmailLookupResult(response)
      case Err(_) =>
        HideVisitor();
      case Ok(v) =>
        if EmailSearchVerdict(v) == Eligible {
          ShowVisitor(v);
        }
    }

    /** `handleQRCodeScanned`: the scanner is released before the lookup; a visitor who
        left is refused, and a failed lookup leaves the screen as it was. */
    method OnQRCodeScanned(decodedText: string, response: Result<VisiteursService.LookupResponse>)
      returns (request: Option<Request>)
      requires Valid()
      modifies this, scanner
      ensures Valid()
      ensures scanner.current.None? && scanner.running == {}
      ensures request == Some(VisiteursService.BadgeLookupRequest(decodedText))
      ensures current == (match VisiteursService.BadgeLookupResult(response)
                          case Err(_) => old(current)
                          case Ok(v) => if ScanVerdict(v) == Eligible then Some(v) else old(current))
      ensures email == old(email)
    {
      scanner.Stop();
      request := Some(VisiteursService.BadgeLookupRequest(decodedText));
      match VisiteursService.BadgeLookupResult(response)
      case Err(_) =>
      case Ok(v) =>
        if ScanVerdict(v) == Eligible {
          ShowVisitor(v);
        }
    }

    /**
     * `confirmerSortie`: without a current visitor or a badge id nothing is sent; otherwise
     * the badge id is posted, and only success clears the email and the current visitor.
     */
    method ConfirmExit(response: Result<()>) returns (request: Option<Request>)
      requires Valid()
      modifies this
      ensures Valid()
      ensures request.Some? ==> old(current).Some?
      ensures request == (match ExitPayload(old(current))
                          case None => None
                          case Some(p) => Some(VisiteursService.ExitRequest(p)))
      ensures request.Some? && response.Ok? ==> current.None? && email == ""
      ensures request.None? || response.Err? ==> current == old(current) && email == old(email)
    {
      match ExitPayload(current)
      case None =>
        return None;
      case Some(payload) =>
        request := Some(VisiteursService.ExitRequest(payload));
        if response.Ok? {
          email := "";
          HideVisitor();
        }
    }

    /** `startQRScannerSortie`. */
    method StartQRScanner(h: Option<Scanner.Handle>)
      requires Valid()
      modifies scanner
      ensures Valid()
      ensures scanner.current == h && |scanner.running| <= 1
    {
      scanner.Start(h);
    }

    /** `stopCurrentScannerSortie`, also run by `switchToManualSearchSortie`. */
    method StopCurrentScanner()
      requires Valid()
      modifies scanner
      ensures Valid()
      ensures scanner.current.None? && scanner.running == {}
    {
      scanner.Stop();
    }

    /** `switchToQRSearchSortie`: nothing happens until the QR libraries are loaded. */
    method SwitchToQRSearch(librariesLoaded: bool, h: Option<Scanner.Handle>)
      requires Valid()
      modifies scanner
      ensures Valid()
      ensures librariesLoaded ==> scanner.current == h
      ensures !librariesLoaded ==> scanner.current == old(scanner.current) && scanner.running == old(scanner.running)
      ensures |scanner.running| <= 1
    {
      if !librariesLoaded {
        return;
      }
      scanner.Start(h);
    }
  }
}
