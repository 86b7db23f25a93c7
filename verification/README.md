# Qui est là ? — a verified model of the kiosk's decision logic

"Qui est là ?" is a reception kiosk. Visitors check in on the entry screen (`entree`): they
pick a staff member or a training and get a badge with a QR code. The exit screen
(`sortie`) checks them out, and the return screen (`retour`) checks in someone who has
already left. The screens are DOM handlers around a REST backend. This project models the
decisions inside those handlers and proves what they guarantee:

- the email validator and the form cleaner of `src/utils.js`;
- the visitor lookups, the list services and the POST helpers of `src/services/`;
- the badge formatter of `src/utils/printBadge.js`;
- the state each screen keeps: the current visitor, the QR scanner handle and the form
  fields.

Layout, one module per file:

| file | module | models |
|---|---|---|
| `js_values.dfy` | `JsValues` | the JavaScript primitives the code relies on: truthiness, `\|\|`, `==`, `String(v)`, `trim()`, `parseInt(s, 10)`, `Array.prototype.find` |
| `utils.dfy` | `Utils` | `isValidEmail`, `cleanFormData` |
| `uri_encoding.dfy` | `UriEncoding` | `encodeURIComponent` as the badge lookup uses it |
| `visitors.dfy` | `Visitors` | visitor, visit, staff and training records; the presence status |
| `api.dfy` | `Api` | the request handed to `apiCall` and the shapes of list responses |
| `visiteurs_service.dfy` | `VisiteursService` | `src/services/visiteurs.js` |
| `list_services.dfy` | `PersonnelService`, `FormationsService` | `src/services/personnel.js`, `src/services/formations.js` |
| `print_badge.dfy` | `PrintBadge` | `formatBadgeDataForPrint` |
| `scanner.dfy` | `Scanner` | the `currentQRScanner` slot shared by the scanner functions |
| `entree.dfy` | `Entree` | `src/components/entree.js` |
| `sortie.dfy` | `Sortie` | `src/components/sortie.js` |
| `retour.dfy` | `Retour` | `src/components/retour.js` |

Conventions:

- The pure parts of the code are functions.
- The screens' module-level variables (`visiteurCourant`, `currentQRScanner`, `personnel`,
  `formations`) and the form inputs they read and reset are fields of one class per screen.
  Each handler is a method that updates them in place.
- `apiCall` is not modelled: the outcome of a call (`Ok(body)`, or `Err(message)` when it
  throws) is a parameter of the handler.
- A handler returns the request it sends (`None` when it stops before calling the API), so
  "no API call" is stated as `request.None?`.
- Values the code tests for truthiness or compares with `==` are JavaScript primitives
  (`JsValues.Scalar`).

Some behaviours of the code are easy to misread; the model follows the code as written:

- The return screen admits a visitor by the record's `heure_sortie` / `exit_time` fields,
  not by `last_visit.exited_at` (src/components/retour.js:188). Its presence check is
  therefore not the one the other two screens use (`Retour.ReturnEligibilityIgnoresLastVisit`).
- The QR path of the exit screen only rejects visitors who have already left. It has no
  "no active visit" check (`Sortie.ScanVerdictAdmitsNeverVisited`). A badge lookup only
  succeeds with a last visit, so the two paths still agree on every visitor the lookup
  returns (`Sortie.ScanAgreesWithEmailSearchOnBadgeLookups`).
- The entry screen's select builders carry a debug check that calls `includes` on the
  staff names and on the training title and room, each after its `||` fallback (src/components/entree.js:266, 309). A set
  value that is not a string, such as a numeric room, throws there. The init handler's
  catch then empties both lists (`Entree.EntryScreen.Init`, `Entree.NonStringFieldBreaksMenus`).

## Model

| member | source | states |
|---|---|---|
| Utils.IsValidEmail | src/utils.js:24-27 | an accepted address has no whitespace and exactly one '@', with at least one character before it and three after it |
| Utils.IsValidEmailMatchesRegex | src/utils.js:24-27 | the executable check, split at the first '@', accepts exactly the strings `/^[^\s@]+@[^\s@]+\.[^\s@]+$/` matches |
| Utils.IsValidEmailIffPlainRule | src/utils.js:25 | valid iff: no whitespace anywhere; exactly one '@' with something before it; and after it a '.' that is neither its first nor the last character |
| Utils.WhitespaceMakesEmailInvalid | src/utils.js:25 | one whitespace character anywhere, at either end included, makes the email invalid |
| Utils.EmailExamplesAccepted | src/utils.js:24-27 | `a@b.co` and `a@.b.c` are accepted |
| Utils.EmailExamplesRejected | src/utils.js:24-27 | `a@b`, `a b@c.com`, `@c.com`, `a@b.`, `a@.b` and the empty string are rejected |
| Utils.CleanValue | src/utils.js:56 | a string value becomes its trim; any other value (null, a number, undefined) is kept as it is |
| Utils.Cleaned | src/utils.js:53-59 | the cleaned object has the input's entries in the input's order, each key kept and each value cleaned |
| Utils.CleanFormData | src/utils.js:53-59 | the loop over `Object.entries` builds exactly `Cleaned(formData)`, with the same keys, each once |
| Utils.CleanedGet | src/utils.js:56 | reading any key of the result gives the cleaned value of that key in the input (undefined for a missing key) |
| Utils.CleanedGetAt | src/utils.js:55-56 | for an object (distinct keys), each input key reads its own value cleaned in the result |
| Utils.CleanedIdempotent | src/utils.js:53-59 | cleaning a cleaned object changes nothing |
| JsValues.GetAt | src/utils.js:56 | in an object whose keys are distinct, each key reads back the value stored beside it |
| JsValues.TruthyIffNotFalsy | src/components/retour.js:188 | a value is truthy exactly when it is none of undefined, null, false, 0, NaN and "" |
| JsValues.TrimStartSpec | src/utils.js:56 | `trimStart` keeps a suffix that does not start with whitespace and drops only whitespace |
| JsValues.TrimEndSpec | src/utils.js:56 | `trimEnd` keeps a prefix that does not end with whitespace and drops only whitespace |
| JsValues.TrimSpec | src/utils.js:56 | `trim` keeps a contiguous part of the string with no whitespace at either end, and everything it drops is whitespace |
| JsValues.TrimIdempotent | src/utils.js:56 | trimming twice is trimming once |
| JsValues.TrimEmptyIffWhitespace | src/components/entree.js:412-418 | a trimmed input is empty exactly when it was all whitespace, which is when the empty-input check refuses it |
| JsValues.ParseIntOfIntToString | src/components/entree.js:520 | `parseInt(String(n), 10)` is `n` for every integer id `n` of the model's unbounded `Num` |
| JsValues.LooseEqNumAndItsString | src/utils/printBadge.js:331 | a numeric id of the model's unbounded `Num` is loosely equal to its decimal text (`3 == "3"`) |
| JsValues.Includes | src/components/entree.js:266 | `s.includes(sub)` holds exactly when `sub` occurs in `s` at some index |
| JsValues.FindFirst | src/utils/printBadge.js:331 | `find` answers the first index whose element matches, and none only when no element matches |
| UriEncoding.EncodeURIComponent | src/services/visiteurs.js:52 | the encoding holds only unreserved characters and '%', and is never shorter than the input |
| UriEncoding.EncodeUnreservedIsIdentity | src/services/visiteurs.js:52 | a badge id made of unreserved characters, such as a UUID, is sent unchanged |
| UriEncoding.EncodedHasNoQueryDelimiters | src/services/visiteurs.js:52-54 | an encoded badge id holds no `&`, `=`, `#`, `+`, space or `?`, so it cannot end or split the query parameter |
| Visitors.PresenceOf | src/components/entree.js:446-449 | exactly one of three: never visited iff no last visit; exited iff the last visit has a truthy `exited_at`; present otherwise |
| VisiteursService.BadgeLookupRequest | src/services/visiteurs.js:52-55 | a GET without body to `/v1/visitor/badge?badge_id=` followed by `encodeURIComponent(badgeId)`, which holds only query-safe characters; a badge id of unreserved characters (a UUID) is sent as it is |
| VisiteursService.EmailLookupRequest | src/services/visiteurs.js:7 | a GET without body to `/v1/visitor/search?email=` followed by the email exactly as given |
| VisiteursService.Merge | src/services/visiteurs.js:12-15 | the merged visitor has the response's `last_visit` and every other field of `visitor` unchanged |
| VisiteursService.EnterRequest | src/services/visiteurs.js:26-31 | a POST of the payload, unchanged, to `/v1/enter` |
| VisiteursService.ExitRequest | src/services/visiteurs.js:34-39 | a POST of the payload, unchanged, to `/v1/exit` |
| VisiteursService.ReturnRequest | src/services/visiteurs.js:42-47 | a POST of the payload, unchanged, to `/v1/return` |
| VisiteursService.EmailLookupResult | src/services/visiteurs.js:5-23 | succeeds iff the call succeeded with a `visitor`; a failed call rethrows its message; a missing visitor throws "Format de réponse inattendu" |
| VisiteursService.BadgeLookupResult | src/services/visiteurs.js:49-70 | succeeds iff the call succeeded with both `visitor` and `last_visit`, so every visitor it returns has a last visit; otherwise the call's error or "Visiteur non trouvé" |
| VisiteursService.LookupKeepsVisitorFieldsAndResponseLastVisit | src/services/visiteurs.js:12-15 | in both lookups the result keeps every field of `visitor`, and its `last_visit` is the response's, overriding the visitor's own |
| VisiteursService.BadgeLookupStricterThanEmailLookup | src/services/visiteurs.js:58-66 | whenever the badge lookup succeeds the email lookup gives the same visitor; a response without `last_visit` passes the email lookup and fails the badge lookup |
| VisiteursService.EmailIsNotPercentEncoded | src/services/visiteurs.js:7 | the email enters the query string raw: for `a+b@c.com` the URL differs from the encoded one |
| VisiteursService.PostHelpersSendPayloadUnchanged | src/services/visiteurs.js:26-47 | entry, exit and return each POST the payload unchanged, to three distinct endpoints |
| PersonnelService.GetPersonnel | src/services/personnel.js:5-20 | never fails: a bare array as it is, else the `staff_members` array, else `[]`, and `[]` for a failed call |
| FormationsService.GetFormationsDuJour | src/services/formations.js:5-24 | never fails: a bare array as it is, else the `trainings` array, else `[]`, and `[]` for a failed call |
| PrintBadge.FindStaffReturnsFirst | src/utils/printBadge.js:331 | the staff lookup answers the first member whose id loosely equals the visit's |
| PrintBadge.FindTrainingReturnsFirst | src/utils/printBadge.js:337 | the training lookup answers the first training whose id loosely equals the visit's |
| PrintBadge.FormatBadgeDataForPrint | src/utils/printBadge.js:321-356 | badge id copied; names, email and purpose fall back to "Non défini"; a "visite" with a truthy staff id found gives the room (or "Local non défini") and "last first"; a "formation" found gives the room and the title (or "Formation non définie"); nothing found gives "Non défini" twice |
| PrintBadge.BadgeReadsOnlyTheListOfItsPurpose | src/utils/printBadge.js:330-342 | the training list matters only for a "formation", the staff list only for a "visite" |
| PrintBadge.FalsyIdGivesPlaceholders | src/utils/printBadge.js:330-336 | a falsy staff and training id (null, 0, "", missing) give "Non défini" whatever the lists hold |
| PrintBadge.BadgeFindsStaffByTextualId | src/utils/printBadge.js:331-334 | a visit carrying the staff id as text finds the member listed under the numeric id and prints their room and name |
| Scanner.Held | src/components/entree.js:24 | the sessions a `currentQRScanner` value stands for: none for null, that one handle otherwise |
| Scanner.ScannerSlot.constructor | src/components/entree.js:24 | the slot starts empty with no session running |
| Scanner.ScannerSlot.Stop | src/components/entree.js:816-820 | the held session, if any, is stopped and the slot left null; no other session is touched |
| Scanner.ScannerSlot.Start | src/components/entree.js:767-779 | the previous session is stopped before the new handle is stored, so at most one session runs |
| Entree.StatusText | src/components/entree.js:446-449 | "Jamais venu", "Présent" and "Sorti" each iff the visitor never visited, is present, has exited |
| Entree.EntryValidation | src/components/entree.js:489-512 | each refusal holds iff the earlier checks passed and its own fails: empty name, first name or email; invalid email; no visit type; staff missing; training missing; none iff all pass |
| Entree.SelectedId | src/components/entree.js:520 | null exactly for the empty selection; otherwise the number `parseInt` reads, or NaN |
| Entree.SelectedIdOfIntToString | src/components/entree.js:520 | an option whose value is the text of an id reads back as that numeric id |
| Entree.EntryFields | src/components/entree.js:518-536 | the object handed to `cleanFormData` has six fields |
| Entree.EntryFieldsKeys | src/components/entree.js:529-536 | those fields are `first_name`, `last_name`, `email`, `purpose`, `staff_member_id`, `training_id`, each once |
| Entree.EntryPayload | src/components/entree.js:529-536 | the body of `POST /v1/enter` has the six keys, each once, with first name, name and email trimmed |
| Entree.EntryPayloadForStaffVisit | src/components/entree.js:518-536 | type "personnel": trimmed names and email, purpose "visite", the parsed staff id and a null training id |
| Entree.EntryPayloadForTraining | src/components/entree.js:522-536 | type "formation": purpose "formation", a null staff id and the parsed training id |
| Entree.EntryPayloadForOtherType | src/components/entree.js:514-536 | any other type leaves the purpose and both ids undefined |
| Entree.BlankNamePassesValidationAndIsSentEmpty | src/components/entree.js:489-536 | validation runs on untrimmed values: for every form, a non-empty all-whitespace name never causes a refusal, an otherwise complete staff visit is accepted, and the name is sent as "" |
| Entree.ScreenDestination | src/components/entree.js:565-581 | the on-screen "Local" and "Voir": "" unless found, else the first matching member's raw room and name or the training's raw room and title |
| Entree.ShowBadge | src/components/entree.js:556-705 | the visitor's first and last name as returned; destination and contact as `ScreenDestination` finds them; the type label is "visite" only for purpose "visite"; the badge id is the response's; the print data is `formatBadgeDataForPrint` of the same response and lists |
| Entree.ScreenAndPrintAgree | src/components/entree.js:566-580 | screen and print show the same destination and contact when the lookup finds an entry whose room (and title) is set; when nothing is found the screen shows "" and the print "Non défini" |
| Entree.FillStaffMenu | src/components/entree.js:229-271 | filling the staff select throws exactly when some member fails `StaffOptionRenders`, the debug check of lines 258-266: its last name, or its first name behind a last name without "inconnu", is set but not a string |
| Entree.FillTrainingMenu | src/components/entree.js:274-315 | filling the training select throws exactly when some training fails `TrainingOptionRenders`, the debug check of lines 303-309: its title, or its room behind a title without "inconnu", is set but not a string |
| Entree.TextOrMissingFieldsRender | src/components/entree.js:258-266 | an option whose name or title parts are strings or missing never throws; a missing last name or title never throws, because its fallback text contains "inconnu" and `||` stops there |
| Entree.NonStringFieldBreaksMenus | src/components/entree.js:303-309 | a set last name or title that is not a string throws, so does a non-string room behind a plain title, and one such training makes `MenusRender` false for any staff list |
| Entree.EntryScreen.constructor | src/components/entree.js:22-24 | empty lists, an empty form, nothing on screen, no scanner |
| Entree.EntryScreen.Init | src/components/entree.js:27-66 | the lists are what the services return (`[]` after a failed call) when both selects fill without an exception (`MenusRender`: every member and every training passes its option's check); when an option throws, the catch leaves both lists `[]`; either way the form is blank and the search result and badge are hidden; the scanner is untouched |
| Entree.EntryScreen.SearchByEmail | src/components/entree.js:390-409 | a lookup is sent iff the trimmed email is valid; its visitor is shown, a failure hides the result |
| Entree.EntryScreen.SearchByBadgeId | src/components/entree.js:411-438 | a lookup of the encoded trimmed id is sent iff it is non-empty; its visitor is shown, a failure hides the result |
| Entree.EntryScreen.OnQRCodeScanned | src/components/entree.js:786-805 | the scanner is stopped and emptied, then the decoded text is looked up; a failure leaves the screen as it was |
| Entree.EntryScreen.UseExistingVisitor | src/components/entree.js:472-479 | name, first name and email are copied into the form, "" for a falsy value; the result is hidden |
| Entree.EntryScreen.Submit | src/components/entree.js:482-553 | an API call iff validation passes, with the cleaned payload; only success shows the badge and resets the form; otherwise the form and badge are kept |
| Entree.EntryScreen.StartQRScanner | src/components/entree.js:767-783 | the new handle is held and at most one session runs |
| Entree.EntryScreen.StopCurrentScanner | src/components/entree.js:816-833 | no handle is held and no session runs |
| Entree.EntryScreen.SwitchToQRSearch | src/components/entree.js:733-764 | without the QR libraries nothing changes; with them the new scanner is started |
| Sortie.EmailSearchVerdict | src/components/sortie.js:131-142 | shown iff present; "déjà sorti" iff exited; "pas de visite active" iff never visited |
| Sortie.ScanVerdict | src/components/sortie.js:164-169 | the QR path refuses exactly the visitors who have exited |
| Sortie.ScanAgreesWithEmailSearchOnBadgeLookups | src/components/sortie.js:159-169 | on every visitor a badge lookup returns, the QR path decides as the email path does |
| Sortie.ScanVerdictAdmitsNeverVisited | src/components/sortie.js:164-169 | without a last visit the QR check alone admits the visitor where the email path refuses them |
| Sortie.ExitBadgeId | src/components/sortie.js:223-224 | the visitor's own badge id when truthy, else the last visit's; truthy iff one of them is |
| Sortie.ExitPayload | src/components/sortie.js:216-235 | a payload iff a visitor is selected and a badge id is found, and then exactly `{badge_id}` |
| Sortie.ExitScreen.constructor | src/components/sortie.js:14-15 | no visitor, empty email, no scanner |
| Sortie.ExitScreen.ShowVisitor | src/components/sortie.js:180-181 | the visitor becomes current |
| Sortie.ExitScreen.HideVisitor | src/components/sortie.js:210-213 | no visitor is current |
| Sortie.ExitScreen.SearchByEmail | src/components/sortie.js:114-147 | a lookup iff the trimmed email is valid; only a present visitor becomes current; a failure clears it; the screen only ever holds visitors who have not exited |
| Sortie.ExitScreen.OnQRCodeScanned | src/components/sortie.js:150-177 | the scanner is released first; a visitor who has not exited becomes current; a failure changes nothing |
| Sortie.ExitScreen.ConfirmExit | src/components/sortie.js:216-247 | never calls the API without a current visitor; sends `ExitPayload` of the current visitor; success clears the email and the visitor, failure keeps both |
| Sortie.ExitScreen.StartQRScanner | src/components/sortie.js:317-333 | the new handle is held and at most one session runs |
| Sortie.ExitScreen.StopCurrentScanner | src/components/sortie.js:344-348 | no handle is held and no session runs |
| Sortie.ExitScreen.SwitchToQRSearch | src/components/sortie.js:279-314 | without the QR libraries nothing changes; with them the new scanner is started |
| Retour.ReturnEligible | src/components/retour.js:188 | a visitor is refused exactly when both `heure_sortie` and `exit_time` hold a falsy value |
| Retour.ReturnEligibilityIgnoresLastVisit | src/components/retour.js:188-191 | eligibility does not depend on `last_visit`: a visitor whose last visit is over but whose record has no exit field is refused |
| Retour.ReturnValidation | src/components/retour.js:233-257 | each refusal holds iff the earlier checks passed and its own fails: no visitor, no motive, staff missing, training missing; none iff all pass |
| Retour.SelectOrNull | src/components/retour.js:265-266 | a select's value as text, null exactly when it is empty |
| Retour.ReturnPayload | src/components/retour.js:261-267 | five distinct keys: the visitor's email and id, the motive as chosen, and each select null exactly when it is empty |
| Retour.ReturnPayloadDiffersFromEntry | src/components/retour.js:261-267 | unlike entry, the motive is sent as chosen ("personnel", not "visite"), ids stay text, and the other select is sent as well |
| Retour.ReturnRequestFor | src/components/retour.js:233-269 | a request iff validation passes, and then `POST /v1/return` with email, visitor id, motive and both selects |
| Retour.ReturnScreen.constructor | src/components/retour.js:7 | no visitor, empty email, no motive, empty selects |
| Retour.ReturnScreen.ShowVisitor | src/components/retour.js:201-202 | the visitor becomes current |
| Retour.ReturnScreen.HideVisitor | src/components/retour.js:227-230 | no visitor is current |
| Retour.ReturnScreen.SearchByEmail | src/components/retour.js:171-198 | a lookup iff the trimmed email is valid; only a visitor with an exit time becomes current; a failure clears it |
| Retour.ReturnScreen.ConfirmReturn | src/components/retour.js:233-287 | sends `ReturnRequestFor` the current state; success clears the email, the visitor and the motive and keeps the selects; failure resets nothing |

## Left out

- HTML templates, CSS class toggling, option elements, notifications and console output: presentation only. A refusal and its message are one outcome in the model (`None` request, state kept).
- `apiCall` (src/api.js): the fetch, headers, status handling and error-text composition are I/O. Its outcome is a parameter.
- JSON serialisation of request bodies: bodies are modelled as ordered key/value lists before `JSON.stringify`. The model does not capture that `undefined` fields are dropped and that NaN is sent as `null`.
- The print window (`printVisitorBadge`, `generateBadgeHTML`, `generateQRCodeForPrint`, `createPrintWindow`) and the `entryTime` field: browser windows, a foreign QR library and locale date formatting.
- src/utils/qrcode.js: only the handle a scanner function stores and releases is modelled. Camera sessions are natural-number handles, and `isQRLibrariesLoaded()` is a parameter.
- src/main.js: view switching and navigation wiring.
- `switchToManualSearch` / `switchToManualSearchSortie`: only their effect on the scanner is modelled, which is `StopCurrentScanner`.
- The return screen's `initRetourComponent`, `remplirMenuPersonnel`, `remplirMenuFormations` and `gererAffichageMenus`: the lists only fill the select options, which are presentation. The select values are fields of `ReturnScreen`.
- UriEncoding.EncodeURIComponent: strings are sequences of Unicode code points, while JavaScript strings are UTF-16 code units. The model therefore cannot express a lone surrogate, on which `encodeURIComponent` throws a `URIError` (src/services/visiteurs.js:52). No other part of the model depends on this.
- Numbers: JavaScript numbers are IEEE doubles; `Num` is an unbounded integer, because the code only handles ids. Above 2^53 doubles round, `String(n)` switches to exponent form from 10^21, and exponents, hexadecimal, fractions and `Infinity` in text are not parsed. None of this is modelled.
- JsValues.ParseIntOfIntToString: holds in JavaScript only for |n| ≤ 2^53 − 1. Beyond that `parseInt` rounds (`parseInt("9007199254740993")` is 9007199254740992), and from 10^21 on `String(n)` is in exponent form.
- JsValues.LooseEqNumAndItsString: holds in JavaScript only for |n| ≤ 2^53 − 1, for the same reasons.
- Browser form constraints (`required`, `type="email"`) are not modelled: the handlers' own checks are.
- Async interleaving, double submits and timers: every handler runs to completion with the call's outcome given.
- A malformed entry response (no `visit`) throws a TypeError inside the `try` of `gererSoumissionEntree`. The model's response always has a visitor and a visit, so this path is not modelled.
- The staff member's `function` field and the visitors' display fallbacks (`nom || name`) only feed HTML.
- Sortie.ExitScreen.ShowVisitor: requires that the visitor has not exited. Both of its callers check this first, and the requirement is what lets the screen's invariant hold.
- Retour.ReturnScreen.ShowVisitor: requires an exit time, which its one caller checks first.
- Entree.EntryFields: its contract states only the size. Its contents are stated by `EntryFieldsKeys` and the three `EntryPayloadFor…` lemmas.
