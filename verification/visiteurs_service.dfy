/**
 * src/services/visiteurs.js: the two visitor lookups (request, then the check on the
 * response's shape and the merge of `visitor` with `last_visit`) and the three POST helpers.
 */
module VisiteursService {
  import opened JsValues
  import opened Visitors
  import opened Api
  import UriEncoding

  /** The body of `GET /v1/visitor/search` and `GET /v1/visitor/badge`: `visitor` and
      `last_visit`, each either a (truthy) object or missing. */
  datatype LookupResponse = LookupResponse(visitor: Option<Visitor>, lastVisit: Option<Visit>)

  const EmailQuery := "/v1/visitor/search?email="
  const BadgeQuery := "/v1/visitor/badge?badge_id="
  const UnexpectedFormat := "Format de réponse inattendu"
  const VisitorNotFound := "Visiteur non trouvé"

  /** The email goes into the query string as typed, without percent-encoding. */
  function EmailLookupRequest(email: string): (r: Request)
    ensures r.verb == GET && r.body.None?
    ensures |r.endpoint| == |EmailQuery| + |email|
    ensures r.endpoint[..|EmailQuery|] == EmailQuery && r.endpoint[|EmailQuery|..] == email
  {
    Request(GET, EmailQuery + email, None)
  }

  /** The badge id is percent-encoded before it goes into the query string. */
  function BadgeLookupRequest(badgeId: string): (r: Request)
    ensures r.verb == GET && r.body.None?
    ensures r.endpoint == BadgeQuery + UriEncoding.EncodeURIComponent(badgeId)
    ensures (forall i :: 0 <= i < |badgeId| ==> UriEncoding.Unreserved(badgeId[i])) ==> r.endpoint == BadgeQuery + badgeId
    ensures |r.endpoint| >= |BadgeQuery| && r.endpoint[..|BadgeQuery|] == BadgeQuery
    ensures forall i :: |BadgeQuery| <= i < |r.endpoint| ==> UriEncoding.QuerySafe(r.endpoint[i])
  {
    var r := Request(GET, BadgeQuery + UriEncoding.EncodeURIComponent(badgeId), None);
    if forall i :: 0 <= i < |badgeId| ==> UriEncoding.Unreserved(badgeId[i]) then
      UriEncoding.EncodeUnreservedIsIdentity(badgeId); r
    else r
  }

  /** `{...result.visitor, last_visit: result.last_visit}`: the later key wins. */
  function Merge(visitor: Visitor, lastVisit: Option<Visit>): (merged: Visitor)
    ensures merged.lastVisit == lastVisit
    ensures merged.(lastVisit := visitor.lastVisit) == visitor
  {
    visitor.(lastVisit := lastVisit)
  }

  /** What `getVisiteurByEmail` returns or throws, given what `apiCall` returned or threw. */
  function EmailLookupResult(r: Result<LookupResponse>): (res: Result<Visitor>)
    ensures res.Ok? <==> r.Ok? && r.value.visitor.Some?
    ensures r.Err? ==> res == Err(r.message)
    ensures r.Ok? && r.value.visitor.None? ==> res == Err(UnexpectedFormat)
  {
    match r
    case Err(m) => Err(m)
    case Ok(body) =>
      if body.visitor.Some? then Ok(Merge(body.visitor.value, body.lastVisit))
      else Err(UnexpectedFormat)
  }

  /** What `getVisiteurByBadgeId` returns or throws. */
  function BadgeLookupResult(r: Result<LookupResponse>): (res: Result<Visitor>)
    ensures res.Ok? <==> r.Ok? && r.value.visitor.Some? && r.value.lastVisit.Some?
    ensures res.Ok? ==> res.value.lastVisit.Some?
    ensures r.Err? ==> res == Err(r.message)
    ensures r.Ok? && (r.value.visitor.None? || r.value.lastVisit.None?) ==> res == Err(VisitorNotFound)
  {
    match r
    case Err(m) => Err(m)
    case Ok(body) =>
      if body.visitor.Some? && body.lastVisit.Some? then Ok(Merge(body.visitor.value, body.lastVisit))
      else Err(VisitorNotFound)
  }

  /** Both lookups return the visitor's own fields with `last_visit` taken from the response,
      whatever `last_visit` the visitor object itself carried. */
  lemma LookupKeepsVisitorFieldsAndResponseLastVisit(r: Result<LookupResponse>)
    ensures var res := EmailLookupResult(r);
      res.Ok? ==> (res.value.lastVisit == r.value.lastVisit
                   && res.value.(lastVisit := None) == r.value.visitor.value.(lastVisit := None))
    ensures var res := BadgeLookupResult(r);
      res.Ok? ==> (res.value.lastVisit == r.value.lastVisit
                   && res.value.(lastVisit := None) == r.value.visitor.value.(lastVisit := None))
  {
  }

  /** The badge lookup accepts fewer responses than the email lookup, and where it accepts
      one it yields the same visitor. */
  lemma BadgeLookupStricterThanEmailLookup(r: Result<LookupResponse>)
    ensures BadgeLookupResult(r).Ok? ==> EmailLookupResult(r) == BadgeLookupResult(r)
    ensures var bare := Ok(LookupResponse(Some(Visitor(Null, Null, Null, Null, Null, Null, Null, None)), None));
      EmailLookupResult(bare).Ok? && BadgeLookupResult(bare).Err?
  {
  }

  /** An illustration on one input: a valid-looking email reaches the query string
      unescaped, so for `a+b@c.com` the request differs from the one an encoded email would
      give. The general facts are `EmailLookupRequest`'s clause that the email follows the
      prefix verbatim and `BadgeLookupRequest`'s clause that the badge id is encoded. */
  lemma EmailIsNotPercentEncoded()
    ensures EmailLookupRequest("a+b@c.com").endpoint
         != EmailQuery + UriEncoding.EncodeURIComponent("a+b@c.com")
  {
    var e := UriEncoding.EncodeURIComponent("a+b@c.com");
    UriEncoding.EncodedHasNoQueryDelimiters("a+b@c.com");
    var p := EmailQuery;
    assert (p + "a+b@c.com")[|p| + 1] == '+';
    if |p + e| > |p| + 1 {
      assert (p + e)[|p| + 1] == e[1];
    }
  }

  /** `enregistrerEntree`. */
  function EnterRequest(payload: Entries): (r: Request)
    ensures r.verb == POST && r.endpoint == "/v1/enter" && r.body == Some(payload)
  {
    Request(POST, "/v1/enter", Some(payload))
  }

  /** `enregistrerSortie`. */
  function ExitRequest(payload: Entries): (r: Request)
    ensures r.verb == POST && r.endpoint == "/v1/exit" && r.body == Some(payload)
  {
    Request(POST, "/v1/exit", Some(payload))
  }

  /** `enregistrerRetour`. */
  function ReturnRequest(payload: Entries): (r: Request)
    ensures r.verb == POST && r.endpoint == "/v1/return" && r.body == Some(payload)
  {
    Request(POST, "/v1/return", Some(payload))
  }

  /** Each POST helper sends its payload unchanged to its own endpoint. */
  lemma PostHelpersSendPayloadUnchanged(payload: Entries)
    ensures EnterRequest(payload).body == ExitRequest(payload).body == ReturnRequest(payload).body == Some(payload)
    ensures EnterRequest(payload).verb == ExitRequest(payload).verb == ReturnRequest(payload).verb == POST
    ensures EnterRequest(payload).endpoint != ExitRequest(payload).endpoint
    ensures ExitRequest(payload).endpoint != ReturnRequest(payload).endpoint
    ensures EnterRequest(payload).endpoint != ReturnRequest(payload).endpoint
  {
  }
}
