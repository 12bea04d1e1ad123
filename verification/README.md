# Booking portal: a verified model of its validation and booking rules

This project models the rules of a small holiday-rental portal in Dafny.
The portal has a Django REST backend and a React frontend. It covers:

- listings (`Alloggio`), their photos (`FotoAlloggio`) and reservations
  (`Prenotazione`);
- the serializer checks that guard them;
- the availability endpoint of the listing view set;
- three pieces of frontend page logic: the booking form, the photo gallery of
  the detail page, and the listing cards of the home page.

The model's conventions:

- Dates are integer day numbers.
- Prices are integer cents.
- "Today" is a parameter.
- The database is a sequence of records.
- Library verdicts (the URL validator, the e-mail validator) and network
  answers (HEAD requests, API responses) are parameters.

Files, one module each:

| file | module | models |
|---|---|---|
| wrappers.dfy | Wrappers | `Option` and `Result` |
| text.dfy | Text | Python `strip`/`split`/`join`/`capitalize`, JavaScript `trim` and `/\s+/` |
| money.dfy | Money | cents rendered with two decimals, and parsed back |
| ordering.dfy | Ordering | insertion into a table kept strictly ordered by a key |
| listings.dfy | Listings | `Alloggio` and `FotoAlloggio` rows, defaults, bounds, orderings |
| listing_validation.dfy | ListingValidation | name, price, amenity and photo validators |
| bookings.dfy | Bookings | reservations, the overlap test, the no-double-booking invariant |
| booking_validation.dfy | BookingValidation | availability query, create and update checks, guest field normalisers |
| views.dfy | ListingViews | the `disponibile` list filter and the `disponibilita` action |
| booking_form.dfy | BookingForm | the booking page state machine |
| gallery.dfy | Gallery | the detail page gallery |
| home_page.dfy | HomePage | response unwrapping, listing cards, fallback listings |

## Model

| member | source | states |
|---|---|---|
| Text.StripKeepsWords | backend/api/serializers.py:456-461 | splitting the stripped name gives the same words as splitting the raw name |
| Text.CollapseIdempotent | backend/api/serializers.py:191-192 | collapsing whitespace twice is the same as collapsing it once |
| Text.PyWordsOfJoin | backend/api/serializers.py:192 | splitting words joined by single spaces gives back the same words |
| Text.DashJsSpaceRuns | frontend/src/pages/HomePage.tsx:76 | replacing whitespace runs by `-` leaves no whitespace, never lengthens, adds only dashes, and empties only the empty text |
| Text.DashJsSpaceRunsOfClean | frontend/src/pages/HomePage.tsx:76 | a text without whitespace is left as it is |
| Text.DashJsSpaceRunsOfWordThenRun | frontend/src/pages/HomePage.tsx:76 | a word followed by a whole run of whitespace becomes the word and one dash, followed by the replacement of the rest; with the clean case this fixes the result for every text |
| Money.RenderCentsRoundTrip | backend/api/views.py:150-152 | an amount written with two decimals reads back as the same number of cents |
| Ordering.InsertBySpec | backend/api/models.py:10 | inserting into a strictly ordered table fails exactly when the key is taken; otherwise the table stays ordered and gains exactly the new row |
| Listings.IsAvailable | backend/api/models.py:45-47 | exactly the listing's `disponibile` flag |
| Listings.NewListing | backend/api/models.py:10-31 | a new listing takes defaults of 2 guests, 1 room, 1 bathroom, empty amenities and available; it is valid iff name, position and price are within their column bounds |
| Listings.StrLtIsStrictTotalOrder | backend/api/models.py:38 | name order is irreflexive, transitive and total |
| Listings.CreateListing | backend/api/models.py:10 | a taken name is refused; otherwise the table stays in strictly increasing name order and gains exactly the new listing |
| Listings.NewPhoto | backend/api/models.py:60-62 | a new photo has `ordine` 0 and an empty description |
| Listings.AddPhoto | backend/api/models.py:49-67 | a taken id is refused; otherwise the photo list stays strictly ordered by `(ordine, id)` and gains exactly the new photo |
| Listings.FirstWithOrdineZero | backend/api/serializers.py:113 | finds the first photo with `ordine` 0 and nothing before it has `ordine` 0; none when no photo has it |
| Listings.PrimaryPhoto | backend/api/serializers.py:140-147 | none iff there are no photos; the first photo with `ordine` 0 when one exists, else the first photo |
| Listings.PrimaryPhotoIsFirst | backend/api/serializers.py:142 | in `(ordine, id)` order with no negative `ordine`, the main photo is the first one |
| ListingValidation.ForbiddenSurvivesCollapse | backend/api/serializers.py:192-198 | collapsing whitespace neither adds nor removes a character from `< > " ' &` |
| ListingValidation.ValidateNome | backend/api/serializers.py:191-200 | accepted iff the collapsed name has at least 3 characters and none of `< > " ' &`; "too short" iff it is under 3; "forbidden character" iff it is long enough but holds one of them; an accepted name keeps the words and is its own collapse |
| ListingValidation.ValidatePrezzoNotte | backend/api/serializers.py:170-175 | accepted iff 0 < price ≤ 10000 euros, returned unchanged; a non-positive price gives "not positive", a price over the cap "too high" |
| ListingValidation.ValidateServizi | backend/api/serializers.py:158-168 | a non-list is refused; a list is accepted iff every element is a string of at most 100 characters; the error is the one of the first offending element |
| ListingValidation.ValidatePhotoSources | backend/api/serializers.py:42-58 | after the request's fields are merged with the stored photo, accepted iff exactly one of image and URL is present; "no source" iff neither is, "both sources" iff both are |
| ListingValidation.UntouchedPhotoStaysValid | backend/api/serializers.py:43-45 | an update that sends neither field keeps a valid stored photo |
| ListingValidation.UrlOnImagePhotoRefused | backend/api/serializers.py:43-58 | sending a URL for a photo that stores an image is refused as having both sources |
| ListingValidation.ValidatePhotoUrl | backend/api/serializers.py:60-75 | as written: refused iff a URL is given and the URL validator rejects it; the content type never matters |
| ListingValidation.ValidatePhotoUrlCorrected | backend/api/serializers.py:60-75 | refused iff the URL is invalid, or it lacks an image extension and the server reports a non-image content type; "invalid URL" iff a URL is given and the validator rejects it |
| ListingValidation.NonImageUrlAccepted | backend/api/serializers.py:64-73 | a page URL answering `text/html` is accepted as written and refused by the corrected check |
| Bookings.IsFree | backend/api/serializers.py:310-322 | free iff no booking of the listing overlaps the half-open stay in a state other than cancelled or refused, the excluded id aside |
| Bookings.OverlapSymmetric | backend/api/serializers.py:312-313 | the overlap test does not depend on which stay is stored |
| Bookings.BackToBackNeverBlocks | backend/api/serializers.py:312-313 | a stay ending on the arrival day or starting on the departure day never blocks |
| Bookings.ReleasedNeverBlocks | backend/api/serializers.py:314-316 | cancelled and refused bookings never block |
| Bookings.OfListing | backend/api/serializers.py:311 | keeps exactly the bookings of one listing |
| Bookings.OtherListingsIrrelevant | backend/api/serializers.py:310-311 | the answer is the same when only the listing's own bookings are kept |
| Bookings.NonBlockingAdditionIrrelevant | backend/api/serializers.py:310-322 | storing a booking that cannot block leaves the answer unchanged |
| Bookings.ExampleOverlap | backend/api/serializers.py:310-316 | a stay on days 100 to 104 blocks 103 to 107 but not 104 to 107 |
| Bookings.AddKeepsNoDoubleBooking | backend/api/serializers.py:434-440 | storing a booking whose dates passed the availability test keeps all date-holding stays of a listing pairwise disjoint |
| Bookings.MoveKeepsNoDoubleBooking | backend/api/serializers.py:497-505 | replacing a booking by one of the same id and listing whose dates passed the test with that id excluded keeps them disjoint, whatever its state |
| BookingValidation.MissingNames | backend/api/serializers.py:270-272 | each of `alloggio_id`, `check_in` and `check_out` is reported iff it is missing, and no other name is reported |
| BookingValidation.FindListing | backend/api/serializers.py:290-296 | a found listing has the id; none is found only when no listing has it |
| BookingValidation.ValidateAvailabilityQuery | backend/api/serializers.py:268-298 | accepted iff all three fields are present, check-in < check-out, check-in is not in the past and the listing exists; the errors come in that order: missing fields, date order, past check-in, unknown listing; a missing-fields error names exactly the missing fields |
| BookingValidation.GetDisponibilita | backend/api/serializers.py:300-325 | true iff no booking of that listing overlaps the stay outside the cancelled and refused states |
| BookingValidation.ValidateCreate | backend/api/serializers.py:396-442 | accepted iff dates are ordered, not past, at most 30 nights, guests within the cap, the listing flagged available and the dates free; the error is that of the first failing check in this order; "under 1 night" can never be the outcome |
| BookingValidation.CreateKeepsNoDoubleBooking | backend/api/serializers.py:396-442 | an accepted reservation lasts 1 to 30 nights, fits the guest cap, and storing it keeps the no-double-booking invariant |
| BookingValidation.ValidateUpdate | backend/api/serializers.py:474-507 | a non-modifiable booking is refused; unchanged dates are accepted without a check; changed dates are accepted iff free with the booking's own id excluded, and otherwise refused as taken; an accepted update writes the given dates, guest count and state and keeps the stored value of each absent one |
| BookingValidation.ReplaceKeepsNoDoubleBooking | backend/api/serializers.py:494-505 | a booking rewritten on the same listing and dates, holding them only if it held them before, keeps the invariant |
| BookingValidation.UpdateKeepsNoDoubleBooking | backend/api/serializers.py:488-507 | applying an accepted update keeps the no-double-booking invariant unless it turns a booking that released its dates back into one that holds them |
| BookingValidation.UpdateAcceptsInvertedDates | backend/api/serializers.py:494-505 | swapping a booking's check-in and check-out is accepted as written |
| BookingValidation.UpdateExceedsGuestCap | backend/api/serializers.py:482-507 | any guest count is accepted and written as given |
| BookingValidation.UpdateCanReactivateIntoOverlap | backend/api/serializers.py:494-505 | if `is_modificabile` admits a cancelled booking, setting it back to pending over dates another booking holds is accepted and breaks the invariant |
| BookingValidation.ValidateUpdateCorrected | backend/api/serializers.py:474-507 | accepts only what the update check accepts; refuses besides changed dates out of order, a guest count over the listing's cap, and a reactivation onto taken dates; so an ordered booking stays ordered and a booking within the cap stays within it |
| BookingValidation.UpdateCorrectedKeepsNoDoubleBooking | backend/api/serializers.py:488-507 | every update the corrected check accepts keeps the no-double-booking invariant, whatever states `is_modificabile` admits |
| BookingValidation.ValidateGuestName | backend/api/serializers.py:455-461 | accepted iff the stripped name has at least 2 characters; the result's words are the input's words, each capitalised, joined by single spaces; the only refusal is "too short" |
| BookingValidation.GuestNameIdempotent | backend/api/serializers.py:455-461 | a normalised name normalises to itself |
| BookingValidation.ValidateEmail | backend/api/serializers.py:444-453 | accepted iff the validator accepts; the result is the address lower-cased, same length; the only refusal is "invalid e-mail" |
| BookingValidation.KeepPhoneCharsSpec | backend/api/serializers.py:466 | the cleaned number holds only digits and `+`, each as often as in the input |
| BookingValidation.KeepPhoneCharsAppend | backend/api/serializers.py:466 | cleaning distributes over concatenation, so the kept characters stay in order |
| BookingValidation.ValidatePhone | backend/api/serializers.py:463-471 | a null or empty value passes unchanged; otherwise accepted iff at least 10 digits or `+` remain, and the result is exactly those characters; the only refusal is "too short" |
| BookingValidation.PhoneIdempotent | backend/api/serializers.py:463-471 | a cleaned number passes again unchanged |
| ListingViews.KeepFlag | backend/api/views.py:117 | keeps exactly the listings with the wanted flag |
| ListingViews.FilterByDisponibile | backend/api/views.py:107-119 | no parameter leaves the listings unchanged; otherwise exactly the listings whose flag equals "parameter lower-cased is `true`" remain |
| ListingViews.KeepFlagPartitions | backend/api/views.py:117 | the `true` and `false` filters split the listings with their multiplicities |
| ListingViews.KeepFlagKeepsOrder | backend/api/models.py:38 | filtering a table in strictly increasing name order keeps that order |
| ListingViews.FilterKeepsOrder | backend/api/views.py:107-119 | the filtered listing query is still in name order |
| ListingViews.KeepFlagIdempotent | backend/api/views.py:117 | filtering twice with one parameter equals filtering once |
| ListingViews.FilterParameterReading | backend/api/views.py:117 | `TRUE` reads as `true`; `yes` and `1` select the unavailable listings |
| ListingViews.GetObject | backend/api/views.py:129 | the pk is found iff a listing has it and passes the `disponibile` filter of the same request |
| ListingViews.AvailabilityAction | backend/api/views.py:121-154 | 404 iff the pk is not found; 400 with the serializer's errors iff the query is refused; on success the flag is the listing's, the total parses to nights × nightly price, and the night count is negative |
| ListingViews.NumeroNottiIsNegated | backend/api/views.py:153 | a two-night stay is reported as -2 nights |
| ListingViews.FrontendQueryAlwaysRejected | backend/api/views.py:132-137 | a query with dates and no `alloggio_id` gets 400 "alloggio_id missing" for every existing listing |
| ListingViews.AvailabilityActionCorrected | backend/api/views.py:121-154 | with the URL's listing standing in for `alloggio_id`, a query without it succeeds iff both dates are present, ordered and not past; the night count is positive and the total is nights × price |
| ListingViews.FrontendQueryAnswered | backend/api/views.py:132-153 | with the correction, the booking page's query for future dates is answered with the stay's own night count |
| BookingForm.LeadingDigits | frontend/src/pages/BookingPage.tsx:120 | the longest prefix made of decimal digits |
| BookingForm.ParseInt | frontend/src/pages/BookingPage.tsx:120 | `NaN` iff no digit follows the leading whitespace and optional sign; otherwise the value of the leading digits, negated after a minus sign |
| BookingForm.ParseIntOfNatDigits | frontend/src/pages/BookingPage.tsx:120 | a decimal number reads back as itself whatever non-digit text follows |
| BookingForm.ParseIntOfNegatedDigits | frontend/src/pages/BookingPage.tsx:120 | a decimal number after a minus sign reads back as its negation |
| BookingForm.InitialPage | frontend/src/pages/BookingPage.tsx:22-41 | listing and dates as passed, name and e-mail empty, phone and notes null, availability unknown, totals zero, no error; the guest count as passed, or 1 when missing or zero |
| BookingForm.InitialPageConsistent | frontend/src/pages/BookingPage.tsx:23-43 | the initial page satisfies the consistency invariant |
| BookingForm.LoadListing | frontend/src/pages/BookingPage.tsx:45-70 | a held listing is kept; otherwise the fetched one is stored or the error set; the invariant is kept |
| BookingForm.Nullable | frontend/src/pages/BookingPage.tsx:120 | null iff the value is blank after `trim`; otherwise the value as typed |
| BookingForm.ApplyEdit | frontend/src/pages/BookingPage.tsx:118-121 | each edit writes its own field and no other: guests parsed, phone and notes nullable, the rest as given |
| BookingForm.HandleInputChange | frontend/src/pages/BookingPage.tsx:116-125 | editing dates or guests resets availability to unknown; other edits keep it; the consistency invariant is kept |
| BookingForm.StartVerifica | frontend/src/pages/BookingPage.tsx:72-90 | no request iff the listing or a date is missing, and then the availability becomes unknown; otherwise a request for the listing and dates the page holds |
| BookingForm.ReceiveAnswer | frontend/src/pages/BookingPage.tsx:92-111 | a positive answer sets nights and total from the request's dates and price, any other outcome zeroes them; the form is untouched; the invariant holds when the request matches the page |
| BookingForm.StaleAnswerAdmitsUncheckedDates | frontend/src/pages/BookingPage.tsx:51-55 | moving the check-out while the first request is out starts a second one; when the second's negative answer lands before the first's positive one, submit sends the new dates with their total while the page shows the old night count |
| BookingForm.ReceiveAnswerCorrected | frontend/src/pages/BookingPage.tsx:92-111 | an answer about other dates than the page's is dropped, so the invariant is always kept |
| BookingForm.VerificaDisponibilita | frontend/src/pages/BookingPage.tsx:72-114 | no API call iff listing or a date is missing, and then availability becomes unknown; a positive answer sets nights = check-out − check-in and total = nights × price; otherwise both are 0; the invariant holds afterwards |
| BookingForm.PayloadPrice | frontend/src/pages/BookingPage.tsx:139-153 | with both dates, the total parses to \|check-out − check-in\| × price; with a date missing it is `NaN` |
| BookingForm.HandleSubmit | frontend/src/pages/BookingPage.tsx:127-156 | no request iff no listing or availability not confirmed, and then the error is set; otherwise the payload carries the listing, guest name, e-mail, dates, guests, phone, notes, state `PENDENTE` and the computed total |
| BookingForm.SubmittedTotalMatchesShown | frontend/src/pages/BookingPage.tsx:95-153 | on a consistent page every submitted payload has both dates and a total equal to \|nights shown\| × price |
| BookingForm.GuestEditBlocksSubmit | frontend/src/pages/BookingPage.tsx:51-55 | after a guest-count edit, submit makes no request |
| BookingForm.GetMinCheckOut | frontend/src/pages/BookingPage.tsx:206-211 | one day after check-in, or today when check-in is empty |
| Gallery.WithGallery | frontend/src/pages/AlloggioDetail.tsx:52-63 | the photo list is never empty: own photos, else one photo from the main image, else one placeholder |
| Gallery.LoadDetail | frontend/src/pages/AlloggioDetail.tsx:34-76 | no id or a failed request shows the fallback listing; a successful load has a non-empty gallery with index 0; the index is always in range |
| Gallery.HandlePrevImage | frontend/src/pages/AlloggioDetail.tsx:79-85 | from 0 to the last photo, otherwise one back; nothing happens without photos |
| Gallery.HandleNextImage | frontend/src/pages/AlloggioDetail.tsx:87-93 | from the last photo to 0, otherwise one forward; nothing happens without photos |
| Gallery.HandleThumbnailClick | frontend/src/pages/AlloggioDetail.tsx:95-97 | the index becomes the clicked position |
| Gallery.NavigationKeepsIndexInRange | frontend/src/pages/AlloggioDetail.tsx:79-97 | previous, next and clicks on rendered thumbnails keep the index on a photo |
| Gallery.PrevNextInverse | frontend/src/pages/AlloggioDetail.tsx:79-93 | previous undoes next and next undoes previous |
| Gallery.NextTimesWraps | frontend/src/pages/AlloggioDetail.tsx:87-93 | k presses of next, up to a full turn, move the index k places with wrap-around |
| Gallery.FullTurnReturns | frontend/src/pages/AlloggioDetail.tsx:87-93 | as many presses as photos return to the starting photo |
| Gallery.MainImageSrc | frontend/src/pages/AlloggioDetail.tsx:136-138 | with photos, the current photo's URL, defined iff the index is in range; otherwise the main image or the placeholder |
| Gallery.MainImageAlwaysDefined | frontend/src/pages/AlloggioDetail.tsx:136-138 | with the index in range, a main image always exists |
| Gallery.LoadedMainImage | frontend/src/pages/AlloggioDetail.tsx:52-63 | after a successful load the main image is the first photo, else the main image, else the placeholder |
| HomePage.TruthyResults | frontend/src/pages/HomePage.tsx:61 | the `results` property when present and truthy |
| HomePage.Unwrap | frontend/src/pages/HomePage.tsx:58-67 | a bare array gives its items; a flat page its `results`; a page nested under `results` its inner `results` when that is an array, else a failure; a truthy non-array `results` fails; any other response gives an empty list |
| HomePage.UnwrapShapesAgree | frontend/src/pages/HomePage.tsx:61-67 | a doubly nested page, a nested array and a bare array give the same listings |
| HomePage.Slug | frontend/src/pages/HomePage.tsx:76 | the slug has no whitespace, is no longer than the name and empty only for the empty name; a name without whitespace is just lower-cased |
| HomePage.SlugOfWordThenRun | frontend/src/pages/HomePage.tsx:76 | a word and a whole run of whitespace become the lower-cased word and one dash, followed by the slug of the rest |
| HomePage.SlugIdempotent | frontend/src/pages/HomePage.tsx:76 | the slug of a slug is itself |
| HomePage.SlugOfCapitalizedPair | frontend/src/pages/HomePage.tsx:76 | two words that lower-case to lower-case letters, joined by a space, give those words joined by a dash |
| HomePage.SlugOfCasaIperione | frontend/src/pages/HomePage.tsx:29 | `Casa Iperione` becomes `casa-iperione` |
| HomePage.SlugOfVillaAurora | frontend/src/pages/HomePage.tsx:38 | `Villa Aurora` becomes `villa-aurora` |
| HomePage.CardImage | frontend/src/pages/HomePage.tsx:74-76 | the main image if non-empty, else the first photo's URL if non-empty, else the local image named by the slug; never empty |
| HomePage.MapCards | frontend/src/pages/HomePage.tsx:70-81 | one card per listing, in order, with id, name, position, price, guest cap and flag copied |
| HomePage.LocalImageMatchesFallback | frontend/src/pages/HomePage.tsx:25-44 | a backend listing named like a hard-coded one, without images, gets the hard-coded image path |
| HomePage.LoadAlloggi | frontend/src/pages/HomePage.tsx:50-92 | given what `getAlloggi` resolves to: the list shown is never empty; a throw shows the fallback and the error; an empty result shows the fallback without error; otherwise the mapped cards |
| HomePage.GetAlloggi | frontend/src/services/api.ts:115-135 | resolves iff the body's `results` is an array, and then to the body unchanged; any other body throws |
| HomePage.ServerPageAlwaysFallsBack | backend/api/views.py:156-164 | the list endpoint's nested page makes `getAlloggi` throw, so the home page always shows the fallback listings and the error |
| HomePage.GetAlloggiCorrected | frontend/src/services/api.ts:115-135 | agrees with `getAlloggi` wherever that resolves; resolves to a flat page holding what the home page's own unwrapping finds, whenever that finds an array |
| HomePage.CorrectedLoadShowsServerPage | frontend/src/pages/HomePage.tsx:50-92 | with the corrected call a non-empty page from the list endpoint is shown card for card without error |
| HomePage.ShownCardsComeFromResponse | frontend/src/pages/HomePage.tsx:83-88 | what is shown is the fallback or exactly the cards of the unwrapped response |

## Left out

- Network I/O is not modelled. This covers the HEAD request of the photo check, the image download of the upload serializer, and every frontend `fetch`; their results are parameters.
- The upload serializer (`validate_url_download`, `create`) is not modelled: it is network I/O.
- `validate_descrizione` is not modelled: its script/iframe stripping depends on Python regular-expression semantics.
- The reservation model is not part of this model. Its availability check is taken to be the `get_disponibilita` filter plus an optional excluded id. `is_modificabile` is an uninterpreted parameter. The states other than `PENDENTE`, `CANCELLATA` and `RIFIUTATA` are assumed.
- The reservation life cycle (confirm, refuse, pay, complete) is not modelled; its transitions are not in the modelled files.
- Concurrent creates racing past the availability test are not modelled.
- Decimal and floating-point arithmetic are replaced by integer cents. The frontend's millisecond date arithmetic with `Math.ceil` is replaced by day differences.
- Time zones are not modelled. This includes `timezone.now().date()`, `toISOString()` in `getTodayDate`/`getMinCheckOut`, and date-string parsing.
- DRF's field parsing is not modelled: date strings, integer fields and the error dictionary format. Dates arrive already parsed or absent. Errors are enum constructors rather than message texts.
- `status_view`, `api_root` and the `list` metadata wrapper are not modelled: they are health-check and plumbing code.
- Routing, settings, admin and management commands are not modelled.
- Rendering is not modelled: JSX, navigation, logging, image `onError` fallbacks and `alt` texts.
- React effect scheduling is not modelled. The caller chooses when the availability check runs; it runs only after listing or date changes.
- Text.Lower: only ASCII letters change case. Python's `lower`/`capitalize` and JavaScript's `toLowerCase` map all of Unicode.
- Text.PyStrip: Python's whitespace set is the fixed list of its `isspace` characters; no other Unicode data is used.
- BookingForm.ParseInt: the `0x` hexadecimal prefix that `parseInt` accepts without a radix is not modelled; the guest select only offers decimal numbers.
- BookingValidation.ValidateEmail: e-mail syntax is the boolean verdict of Django's validator, a parameter.
- ListingValidation.ValidatePhotoUrl: URL syntax is the boolean verdict of `URLValidator`, a parameter. The content-length limit is not modelled; it belongs to the upload serializer.
- ListingViews.GetObject: the primary key is an integer. A non-numeric key, which Django answers with 404, is not modelled.
- Listings.CreateListing: the existing table must already be in strictly increasing name order, as the database returns it.
- Listings.CreateListing: names are compared by code point; the database orders `nome` by its collation, which is not part of this model.
- BookingValidation.ValidateUpdate: the guest name, e-mail, phone and note fields of an update are not modelled, since `Booking` does not carry them. Field validators the reservation model may declare on `numero_ospiti` and `stato` are not part of this model.
- BookingValidation.UpdateKeepsNoDoubleBooking: holds only for updates that do not set a booking that released its dates back to a date-holding state without moving it; such an update can collide, as UpdateCanReactivateIntoOverlap shows.
- BookingValidation.ValidatePhone: a digit is an ASCII digit. Python's `isdigit` also accepts other Unicode digits.
- BookingForm.HandleSubmit: the browser's `required` check on the date inputs, which stops submit while a date is empty, is not modelled. The `NaN` total of PayloadPrice therefore never reaches the server from a browser.
- HomePage.LoadAlloggi: `getAlloggi`'s conversion of string prices to numbers is not modelled; prices are already cents.
- BookingForm.VerificaDisponibilita: nothing happens while the request is out. The interleaved case is StartVerifica, then edits, then ReceiveAnswer.

## Findings

| source | as written | input that shows it | evidently intended | confidence | as-written member | corrected member |
|---|---|---|---|---|---|---|
| backend/api/views.py:153 | `numero_notti` is check-in minus check-out, which is negative for every accepted query | listing 1 at 150.00, check-in day 10, check-out day 12: the total is `300.00` but the night count is -2 | check-out minus check-in, as the line's own comment says | high, not executed | ListingViews.NumeroNottiIsNegated | ListingViews.AvailabilityActionCorrected |
| backend/api/views.py:132-137 | the action validates its query with a serializer that requires `alloggio_id` (backend/api/serializers.py:270), but the booking page sends only `check_in` and `check_out` (frontend/src/services/api.ts:262-276) | `GET /api/alloggi/1/disponibilita/?check_in=…&check_out=…` for an existing listing answers 400, so the page marks the dates unavailable and submit is always refused | the listing of the URL identifies the listing being queried | high, not executed | ListingViews.FrontendQueryAlwaysRejected | ListingViews.FrontendQueryAnswered |
| backend/api/serializers.py:64-73 | the error for a non-image content type is raised inside `try: … except: pass` and discarded | URL `http://localhost/foto` whose HEAD answers `text/html` is accepted | refuse a URL without an image extension whose content type is not `image/…` | high, not executed | ListingValidation.NonImageUrlAccepted | ListingValidation.ValidatePhotoUrlCorrected |
| backend/api/serializers.py:488-507 | the update check never compares the new check-in with the new check-out | booking 1 on days 100 to 104, update to check-in 104 and check-out 100, no other booking: accepted | the date-order rule of the create check applies to updates too | medium (the reservation model may add its own constraint), not executed | BookingValidation.UpdateAcceptsInvertedDates | BookingValidation.ValidateUpdateCorrected |
| backend/api/serializers.py:482-507 | the update serializer writes `numero_ospiti` without comparing it to the listing's `numero_ospiti_max`, which the create check enforces (backend/api/serializers.py:425-429) | booking 1 for 2 guests, update with `numero_ospiti` 50: accepted | the guest cap of the create check applies to updates too | medium (the reservation model may add its own validator), not executed | BookingValidation.UpdateExceedsGuestCap | BookingValidation.ValidateUpdateCorrected |
| backend/api/serializers.py:494-505 | the availability test runs only when the dates change, while `stato` is written as given | a cancelled booking on days 100 to 104 that `is_modificabile` admits, another confirmed booking on days 101 to 103, update with `stato` `PENDENTE`: accepted, and the two overlap | a booking that starts holding dates again passes the availability test | low (depends on `is_modificabile`, which is not part of this model), not executed | BookingValidation.UpdateCanReactivateIntoOverlap | BookingValidation.ValidateUpdateCorrected |
| frontend/src/pages/BookingPage.tsx:87-104 | the answer of an availability request is applied to the page whatever the form holds when it lands | dates 100 to 104 sent; the check-out moved to 110, which sends a second request; its negative answer lands first, the positive answer for 100 to 104 last: submit sends 100 to 110 with a ten-night total while the page shows four nights | ignore an answer about dates the form no longer holds | medium, not executed | BookingForm.StaleAnswerAdmitsUncheckedDates | BookingForm.ReceiveAnswerCorrected |
| frontend/src/services/api.ts:127 | `getAlloggi` maps over `data.results`, but the list endpoint answers with DRF's page (backend/config/settings.py:87-88) wrapped once more under `results` (backend/api/views.py:156-164), so `data.results` is an object | any listing table: `getAlloggi` throws and the home page shows the two hard-coded listings with the error banner | unwrap the nested page, as frontend/src/pages/HomePage.tsx:63 tries to | high, not executed | HomePage.ServerPageAlwaysFallsBack | HomePage.GetAlloggiCorrected |
