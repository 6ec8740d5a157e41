# Acme Dental booking core, in Dafny

This project models the core of the Acme Dental chat assistant. The assistant books, finds, cancels and reschedules dental checkups through the Calendly scheduling API, and it answers FAQ questions from a fixed knowledge base. The project proves properties of that model. The modelled parts are:

- **Input validation** (`Validators`): the e-mail pattern check on the stripped address, and the `%Y-%m-%d` date check with its "no past dates" rule. Today's date is a parameter.
- **The scheduling client** (`CalendlyApi`):
  - the token check in the constructor;
  - the mapping of HTTP statuses and transport failures to the client error classes;
  - unwrapping of `collection` / `resource` payloads;
  - the memoised current-user URI;
  - the request each endpoint sends.
- **The booking service** (`BookingService`, with `BookingProperties` holding its cross-operation lemmas):
  - degraded mode when no client can be built;
  - the memoised event-type URI;
  - `get_available_times`, `create_booking`, `find_user_bookings`, `cancel_appointment` and `reschedule_appointment`, each with every validation, fallback and `except` branch.

  The scheduling client is abstracted as a provider oracle: a function from a client call to what that call returned or raised. Each operation returns its response envelope, the service state afterwards, and the list of provider calls it made, in order.
- **The knowledge base** (`KnowledgeService`): the first-match keyword scan over the category table, the canned answers, the general fallback, and the clinic and contact records.

Supporting modules:

- `Text`: Python string operations (`strip`, `lower`, `in`, `split(...)[-1]`, `replace`, `str(int)`).
- `Clock`: calendar dates, `strptime` for `%Y-%m-%d` and `%I:%M %p`, `fromisoformat`, `isoformat`, and the `strftime` renderings the service uses.
- `JsonData`: decoded JSON values with Python truthiness and `dict.get`.
- `ApiErrors`: the exception hierarchy, and which clause of an `except` chain handles a raised error.

Python's "raised" is modelled as `Result.Err`. A client error is `Api(kind, message)`. Anything else the code can raise (`KeyError`, `TypeError`, `ValueError` from parsing) is `Unexpected`, because only an `except Exception` clause catches it.

Where the design description and the code differ, the model follows the code:

- The booking URL `f"{calendly_url}?name={name}&email={email}&date={date}"` is built by plain concatenation. Nothing is URL-encoded.
- A booked time does not come back verbatim. `find_user_bookings` re-renders it with `%I:%M %p`, so "9:00 am" comes back as "09:00 AM". `BookingProperties.BookedTimeRoundTrip` proves that the two parse to the same clock time.
- `DateValidator` accepts one-digit months and days ("2026-2-5"), as `strptime` does. `create_booking` then glues the date into `fromisoformat`, which rejects that spelling with a `ValueError`. Only the final `except Exception` clause catches it, so such a booking ends in the "Unexpected error - please use booking URL" reply (`BookingProperties.ShortDateHasNoInstant`).

## Model

| member | source | states |
|---|---|---|
| Validators.ValidateEmail | acme-dental-main/src/utils/validators.py:42-53 | An empty input is "Email is required". Otherwise the verdict is valid exactly when the stripped address is local@domain.tld with the allowed characters and a letter-only top-level label of at least two letters. A valid verdict carries the success message; any other failure carries "Invalid email format". |
| Validators.ValidateAgreesWithIsValid | acme-dental-main/src/utils/validators.py:26-53 | `validate` accepts exactly the addresses `is_valid` accepts: both strip, and both reject the empty input. |
| Validators.EmailMatchIffShaped | acme-dental-main/src/utils/validators.py:12-14 | The candidate-split decision procedure (first '@', last dot after it) accepts exactly the strings that have some split matching `EMAIL_PATTERN`. |
| Validators.SplitIsCandidate | acme-dental-main/src/utils/validators.py:12-14 | Any split that matches the pattern is the one the candidate search finds. |
| Validators.CandidateMatches | acme-dental-main/src/utils/validators.py:12-14 | A well-formed candidate split makes the whole pattern match. |
| Validators.LastIndexOfIs | acme-dental-main/src/utils/validators.py:12-14 | The last occurrence of a character is the position holding it with none after it. |
| Validators.SplitHasOneAt | acme-dental-main/src/utils/validators.py:12-14 | In a matching address the '@' is the only one, and everything after the final dot is a letter. |
| Validators.AcceptedEmailShape | acme-dental-main/src/utils/validators.py:12-14 | Every address the pattern accepts has exactly one '@' and ends in a letter-only label. |
| Validators.EmailSurroundingSpaceIgnored | acme-dental-main/src/utils/validators.py:48-53 | Whitespace padding around an unpadded address never changes the verdict. |
| Validators.StripOfPadded | acme-dental-main/src/utils/validators.py:48 | `strip()` removes exactly the whitespace padding added around a text that has none at its own ends. |
| Validators.BlankEmailIsMalformed | acme-dental-main/src/utils/validators.py:42-51 | A whitespace-only address is not "required": it reaches the pattern and is "Invalid email format". |
| Validators.StripUnpadded | acme-dental-main/src/utils/validators.py:48 | A text without whitespace at either end is its own `strip()`. |
| Validators.EmailExampleTagged | acme-dental-main/tests/test_validators.py:11-20 | "user+tag@example.co.uk" is a valid address. |
| Validators.TaggedSplit | acme-dental-main/tests/test_validators.py:16 | "user+tag@example.co.uk" splits at the '@' (offset 8) and the last dot (offset 19). |
| Validators.EmailExampleNoAt | acme-dental-main/tests/test_validators.py:25 | "sav3#ff.com" is rejected. |
| Validators.EmailExampleEmptyLocal | acme-dental-main/tests/test_validators.py:27 | "@example.com" is rejected. |
| Validators.EmailExampleNoDomain | acme-dental-main/tests/test_validators.py:28 | "user@" is rejected. |
| Validators.EmailExampleNoAtWord | acme-dental-main/tests/test_validators.py:26 | "invalid" is rejected. |
| Validators.AcceptedHasNoSpace | acme-dental-main/src/utils/validators.py:12-14 | No text the pattern accepts contains a space. |
| Validators.InnerSpaceInvalid | acme-dental-main/src/utils/validators.py:26-30 | An address with a space inside and none at its ends is invalid. |
| Validators.EmailExampleSpace | acme-dental-main/tests/test_validators.py:29 | "user name@example.com" is rejected. |
| Validators.ValidateDate | acme-dental-main/src/utils/validators.py:90-105 | An empty input is "Date is required". An unparsable input gets the format hint naming `%Y-%m-%d`. A parsed date before today is "Date cannot be in the past". The verdict is valid exactly when the date parses and is not before today, and a valid date also passes the format check. |
| Validators.FormatCheckIgnoresPast | acme-dental-main/src/utils/validators.py:70-77 | The format check has no past-date rule: a well-formed date before today passes it but fails `validate`. |
| Validators.DateExampleSlashes | acme-dental-main/tests/test_validators.py:60 | "2026/02/18" is not in `%Y-%m-%d` format. |
| Validators.DateExampleDayFirst | acme-dental-main/tests/test_validators.py:61 | "18-02-2026" is not in `%Y-%m-%d` format. |
| Validators.DateExampleMonth13 | acme-dental-main/tests/test_validators.py:62 | "2026-13-01" is not in `%Y-%m-%d` format. |
| Validators.DateExampleWords | acme-dental-main/tests/test_validators.py:59 | "18th feb" is not in `%Y-%m-%d` format. |
| Validators.DateExampleUnpadded | acme-dental-main/src/utils/validators.py:70-77 | `strptime` reads the unpadded "2026-2-5" as 5 February 2026. |
| Clock.ParseYmdIsPatternMatch | acme-dental-main/src/utils/validators.py:70-77 | The `%Y-%m-%d` parser succeeds exactly when the text fits the token layout and names a real calendar date, and it then yields that date. |
| Clock.ParseYmdOfIsoDate | acme-dental-main/src/services/booking_service.py:108 | The canonical "YYYY-MM-DD" spelling of any date parses back to that date. |
| Clock.NextDay | acme-dental-main/src/services/booking_service.py:108-110 | The following calendar day: a valid date after the input with no date strictly between them. Only 9999-12-31 has none. |
| Clock.To24Hour | acme-dental-main/src/services/booking_service.py:219 | `%I` with `%p` gives an hour below 24 that is at least 12 exactly for "PM" and agrees with the 12-hour reading modulo 12. |
| Clock.Meridiem | acme-dental-main/src/services/booking_service.py:219 | `%p` accepts "am" and "pm" in any letter case and nothing else. |
| Clock.Parse12OfFormat12 | acme-dental-main/src/services/booking_service.py:115-125 | The `%I:%M %p` rendering of any clock time parses back to the same time. |
| Clock.Parse12OfPadded | acme-dental-main/src/services/booking_service.py:219 | A zero-padded hour and minute with an "AM"/"PM" marker parse to the corresponding 24-hour time. |
| Clock.Format12 | acme-dental-main/src/services/booking_service.py:115-125 | The `%I:%M %p` rendering is eight characters, "hh:mm AM" before noon and "hh:mm PM" from noon. |
| Clock.ParseIsoDateIffIsoDate | acme-dental-main/src/services/booking_service.py:220-221 | `date.fromisoformat` accepts exactly the canonical "YYYY-MM-DD" spelling of a valid date. |
| Clock.ParseIsoOfIsoFormat | acme-dental-main/src/services/booking_service.py:115-125 | An ISO datetime rendering, followed by any accepted fraction or UTC offset, parses back to the same datetime. |
| Clock.LongDate | acme-dental-main/src/services/booking_service.py:411-418 | The `%B %d, %Y` rendering is the month's name, a space, the two-digit day, ", " and the four-digit year, and nothing else. |
| ApiErrors.Handler | acme-dental-main/src/api/exceptions.py:8-75 | The clause an `except` chain runs is the first one whose class is the raised error's class or a base of it. No earlier clause catches the error, and `None` means that no clause does. |
| ApiErrors.BaseClauseShadowsSubclass | acme-dental-main/src/api/exceptions.py:17-46 | A `CalendlyAPIError` clause placed before a subclass clause means the subclass clause is never chosen. |
| CalendlyApi.NewClient | acme-dental-main/src/api/calendly_api.py:35-48 | Construction fails with an authentication error exactly when neither the argument nor the environment gives a non-empty token. The argument wins when it is non-empty. The URI memo starts empty. |
| CalendlyApi.HandleResponseClassifies | acme-dental-main/src/api/calendly_api.py:61-96 | 401, 404 and 429 raise authentication, not-found and rate-limit errors. Any other status from 400 up raises the base class. Only a non-dictionary JSON error body raises something other than a client error. A status below 400 returns the body, `{}` when empty, or raises "Invalid JSON response". |
| CalendlyApi.GenericErrorMessage | acme-dental-main/src/api/calendly_api.py:83-90 | Another error status reports "API error {code}", followed by the body's `message` or "Unknown error" when the body is a dictionary. |
| CalendlyApi.ObjectErrorDetail | acme-dental-main/src/api/calendly_api.py:85-89 | The detail of a dictionary error body is its `message` field, defaulting to "Unknown error". |
| CalendlyApi.StatusKind | acme-dental-main/src/api/calendly_api.py:77-83 | Exactly the statuses from 400 up are errors. |
| CalendlyApi.Outcome | acme-dental-main/src/api/calendly_api.py:122-140 | A timeout and a connection failure raise their own classes, another request failure raises the base class with its reason, and a delivered response is classified as above. |
| CalendlyApi.OutcomeFailuresAreClientErrors | acme-dental-main/src/api/calendly_api.py:98-140 | Everything a request raises is a `CalendlyAPIError`, except when a non-dictionary JSON error body is inspected. |
| CalendlyApi.MakeRequest | acme-dental-main/src/api/calendly_api.py:98-131 | One call sends exactly one request and leaves the client unchanged. |
| CalendlyApi.Field | acme-dental-main/src/api/calendly_api.py:153 | `data.get(key, default)`: the field when present, the default otherwise, and a raise on a non-dictionary payload. |
| CalendlyApi.GetUserUri | acme-dental-main/src/api/calendly_api.py:157-175 | A truthy memo answers without a request. Otherwise exactly one request is sent and the memo is set to the `uri` found. A returned URI is truthy and is the memo, and a raise leaves the memo falsy. |
| CalendlyApi.UserUriMemoIsStable | acme-dental-main/src/api/calendly_api.py:166-167 | After one successful lookup, every later lookup returns the same URI without any request, whatever the network does. |
| CalendlyApi.UserUriMissingRefetches | acme-dental-main/src/api/calendly_api.py:169-173 | A user resource without `uri` raises "User URI not found in response" and stores `""`, so the next lookup fetches again. |
| CalendlyApi.GetEventTypes | acme-dental-main/src/api/calendly_api.py:177-199 | An explicit user is queried as given, with `active` rendered as "true"/"false". Otherwise the memoised user URI is resolved first, a failure there is returned as is, and the last request queries the memo. The result is the last response's `collection`, or `[]` without one. |
| CalendlyApi.ScheduledEventsQuery | acme-dental-main/src/api/calendly_api.py:286-293 | The query always holds `user`, `status` and `count`, and holds `min_start_time` exactly when that value is truthy. |
| CalendlyApi.GetScheduledEvents | acme-dental-main/src/api/calendly_api.py:262-296 | With an explicit user one request carries the query. Otherwise the user URI is resolved first, a failure there is returned as is, and the last request queries the memoised URI. The result is the last response's `collection`, or `[]` without one. |
| CalendlyApi.GetAvailableTimes | acme-dental-main/src/api/calendly_api.py:201-227 | One GET with the event type and the window's start and end. The result is the response's `collection`, or `[]` without one. |
| CalendlyApi.CreateInvitee | acme-dental-main/src/api/calendly_api.py:229-260 | One POST whose body holds the event type, the start time and the invitee's e-mail and name. The result is the response's `resource`, or `{}` without one. |
| CalendlyApi.GetEventInvitees | acme-dental-main/src/api/calendly_api.py:298-312 | One GET on the event's invitees path. The result is the response's `collection`, or `[]` without one. |
| CalendlyApi.CancelEvent | acme-dental-main/src/api/calendly_api.py:314-330 | One POST on the event's cancellation path with the reason, and the decoded answer is returned unwrapped. |
| CalendlyApi.ListEndpointsUnwrapCollection | acme-dental-main/src/api/calendly_api.py:311-312 | The invitee listing answers a dictionary payload's `collection`, or `[]` without one. |
| CalendlyApi.ResourceEndpointsUnwrapResource | acme-dental-main/src/api/calendly_api.py:259-260 | Booking an invitee answers a dictionary payload's `resource`, or `{}` without one. |
| BookingService.NewService | acme-dental-main/src/services/booking_service.py:26-39 | The service has a client exactly when one was supplied or the environment holds a non-empty token. The booking link base is `CALENDLY_URL` or `""`, and the event-type memo starts empty. |
| BookingService.ResolveEventType | acme-dental-main/src/services/booking_service.py:41-61 | A truthy memo answers with no call. Without a client the answer is `None`. Otherwise event types are listed once, and a client error there is swallowed into `None`. A truthy answer is stored in the memo. Only a malformed listing raises, and it leaves the service unchanged. |
| BookingService.AvailabilityFailure | acme-dental-main/src/services/booking_service.py:134-159 | Every raised error falls back to the fixed times for the date. A rate limit carries no error text, and any other error carries its message. |
| BookingService.AvailabilityClauseIsHandler | acme-dental-main/src/services/booking_service.py:134-159 | The availability `except` chain picks the rate-limit clause, then the client-error clause, then the catch-all, as the error's class dictates. |
| BookingService.Window | acme-dental-main/src/services/booking_service.py:108-110 | The query window runs from midnight of the date to midnight of the next day. Only the last representable date has no window, where Python overflows. |
| BookingService.MapAllIsMap | acme-dental-main/src/services/booking_service.py:115-118 | The list comprehension succeeds exactly when every element converts, and then holds each element's conversion in order. |
| BookingService.RenderSlotsIsMap | acme-dental-main/src/services/booking_service.py:115-118 | The slot list is each slot's start, rendered `%I:%M %p`, in provider order. |
| BookingService.RenderFirstSlots | acme-dental-main/src/services/booking_service.py:115-118 | Only the first ten slots are rendered. |
| BookingService.FetchSlots | acme-dental-main/src/services/booking_service.py:107-125 | For a day with a successor, exactly one availability call is made for that day's window, and never an event-type listing. A raised error is passed on. A falsy answer gives no times. A truthy answer gives the rendering of its first ten slots. |
| BookingService.GetAvailableTimes | acme-dental-main/src/services/booking_service.py:63-159 | A validation error happens exactly when the date is invalid, with no call. Every non-validation failure is a fallback with the fixed times. A success lists at most ten times. Without a client no call is made. A set memo is kept, and once set no event-type listing is repeated. |
| BookingProperties.AnsweredDay | acme-dental-main/src/services/booking_service.py:77-125 | Once the event type resolves to a truthy URI, from the memo or from a first listing, the reply to a valid date is built from that day's slot lookup. Its calls are the resolution's calls followed by the lookup's, and the service is the one the resolution left. |
| BookingProperties.RenderFirstOfList | acme-dental-main/src/services/booking_service.py:115-118 | A slot list whose first ten slots are readable renders to exactly `min(n, 10)` times, the i-th being the i-th slot's start in `%I:%M %p`. |
| BookingProperties.FetchSlotsRenders | acme-dental-main/src/services/booking_service.py:107-125 | Given the day's slot list, the lookup makes one call and returns the first ten slots' start times, in the provider's order. |
| BookingProperties.LiveAnswerIsRendering | acme-dental-main/src/services/booking_service.py:63-125 | `get_available_times` succeeds with exactly the first `min(n, 10)` slot starts, rendered `%I:%M %p` in the provider's order. This holds whether the event type was memoised or had to be listed first. The calls are the resolution's calls followed by one slot lookup. |
| BookingProperties.FreshServiceListsThenLooksUp | acme-dental-main/src/services/booking_service.py:41-57 | On a fresh service the first availability query lists the event types, memoises the URI, then looks up the day, and it succeeds with the first `min(n, 10)` slots. |
| BookingProperties.EmptyAnswerSucceeds | acme-dental-main/src/services/booking_service.py:126-132 | Once the event type resolves, an empty slot list is a success with no times and the "No available slots for" message, not the fallback. |
| BookingService.AvailabilityEnvelope | acme-dental-main/src/services/booking_service.py:98-159 | The envelope succeeds exactly when slots were listed, and then carries them. Otherwise it is a fallback with the fixed times. |
| BookingService.BookingUrl | acme-dental-main/src/services/booking_service.py:199 | The link is the base followed by `?name=`, the name, `&email=`, the e-mail, `&date=` and the date, unencoded. |
| BookingService.BookingFailure | acme-dental-main/src/services/booking_service.py:241-268 | Every failure keeps the booking link. An authentication error and a rate limit get their fixed error texts, and anything else gets its own message. |
| BookingService.BookingClauseIsHandler | acme-dental-main/src/services/booking_service.py:241-268 | The booking `except` chain picks authentication, rate limit, other client error or catch-all, by the error's class. |
| BookingService.StartInstant | acme-dental-main/src/services/booking_service.py:219-221 | A start instant exists only for a parsable `%I:%M %p` time, and it is 20 characters ending in "Z". An unparsable time raises. |
| BookingService.Book | acme-dental-main/src/services/booking_service.py:219-229 | At most one call is made. When it is made it is `create_invitee` with the resolved event type, the computed start, and the e-mail and name. An unparsable start makes no call. An error raised by the call is passed on. Otherwise the result is the created invitee's `uri`, or `""` when it has none. |
| BookingService.BookValidated | acme-dental-main/src/services/booking_service.py:199-268 | Every failure carries the booking link. A success made a `create_invitee` call last. Without a client no call is made. A set memo is respected, and once set no listing is repeated. |
| BookingService.BookingEnvelope | acme-dental-main/src/services/booking_service.py:209-239 | The envelope succeeds exactly when an invitee was created, and then echoes the name, e-mail, date and time with the event URI. Otherwise it carries the booking link. |
| BookingService.CreateBooking | acme-dental-main/src/services/booking_service.py:161-268 | E-mail, then date, then a non-blank name are checked in that order, each rejection with its own message and no call. Valid input proceeds to the booking. |
| BookingService.EventUuid | acme-dental-main/src/services/booking_service.py:307 | The uuid is the text after the last '/' of the event's `uri`. A missing or non-text `uri` raises. |
| BookingService.HasInviteeIsSearch | acme-dental-main/src/services/booking_service.py:314-316 | The invitee loop answers true exactly when some invitee's address equals the e-mail up to case and every invitee before it was read and did not match. It answers false exactly when every invitee was read and none matched. |
| BookingService.HasInviteeFindsFirst | acme-dental-main/src/services/booking_service.py:314-316 | The loop answers true exactly when there is a first matching invitee with only readable, non-matching ones before it. |
| BookingService.HasInviteeNone | acme-dental-main/src/services/booking_service.py:314-316 | The loop answers false exactly when every invitee is readable and none matches. |
| BookingService.ScanInvitees | acme-dental-main/src/services/booking_service.py:312-313 | A list answer is searched. Any other answer never yields a match. |
| BookingService.ProbeUuidOutcomes | acme-dental-main/src/services/booking_service.py:309-324 | An event whose invitee lookup raised a client error is skipped. It counts as attended exactly when the lookup answered and an invitee matched. |
| BookingService.ProbeOutcomes | acme-dental-main/src/services/booking_service.py:306-324 | As above, for an event whose uri is read first. |
| BookingService.AppointmentOf | acme-dental-main/src/services/booking_service.py:314-321 | An appointment exists exactly when the event's start parses and it has a `uri`. Its date is `%Y-%m-%d` and its time `%I:%M %p` of that start. |
| BookingService.LookupClauseIsHandler | acme-dental-main/src/services/booking_service.py:333-348 | The lookup `except` chain picks the client-error clause or the catch-all. |
| BookingService.FindUserBookings | acme-dental-main/src/services/booking_service.py:270-348 | A validation error happens exactly when the e-mail is invalid, with no call. Without a client no call is made. Otherwise events are listed from `now` and each is probed. The envelope always names the e-mail, and a success counts its appointments. |
| BookingService.FindAmong | acme-dental-main/src/services/booking_service.py:305-348 | After the listing, only invitee lookups are made. A failure reports no appointments, and a success reports the count of its list. |
| BookingService.CancelledReply | acme-dental-main/src/services/booking_service.py:411-418 | The success reply exists exactly when the cancelled event's start parses, and reports it as `%B %d, %Y` and `%I:%M %p`. |
| BookingService.CancelAmong | acme-dental-main/src/services/booking_service.py:383-418 | After the listing only invitee lookups follow, then at most one cancellation, last, with the patient's reason. A success ends in that cancellation. |
| BookingService.CancelAppointment | acme-dental-main/src/services/booking_service.py:350-433 | A validation error happens exactly when the e-mail is invalid, with no call. Without a client no call is made and the result is a failure. Otherwise the live path runs, making at most one cancellation, as the last call. |
| BookingService.RescheduleAppointment | acme-dental-main/src/services/booking_service.py:435-479 | E-mail, then date, are validated with no call. A failed cancellation is returned as is. A success requires the cancellation to have succeeded and offers exactly the times availability gives for the new date. |
| BookingService.RescheduleAfter | acme-dental-main/src/services/booking_service.py:464-479 | After a cancellation, its failure is passed through unchanged, and its success yields the new date's availability. |
| BookingProperties.ScanBookingsIsFilter | acme-dental-main/src/services/booking_service.py:306-331 | The bookings scan succeeds exactly when no probe raised and every attended event is readable. It then returns the appointments of the attended events, in listing order. |
| BookingProperties.ScanBookingsProbesEveryEvent | acme-dental-main/src/services/booking_service.py:306-311 | A successful scan looks up the invitees of every event exactly once, in order. |
| BookingProperties.NoEventsNoBookings | acme-dental-main/src/services/booking_service.py:300-331 | With no upcoming events the lookup succeeds with an empty list and a count of 0, after exactly one call. |
| BookingProperties.FirstAttendingNone | acme-dental-main/src/services/booking_service.py:383-400 | The cancellation scan finds nothing exactly when every event was probed cleanly and none is attended. |
| BookingProperties.FirstAttendingSome | acme-dental-main/src/services/booking_service.py:383-398 | The scan picks event i exactly when i is attended and every earlier event was probed cleanly and is not attended. |
| BookingProperties.NothingAttendedNothingCancelled | acme-dental-main/src/services/booking_service.py:400-405 | When the address attends none of the upcoming events, the reply is "No upcoming appointments found" and no cancellation is requested. |
| BookingProperties.CancelledTheFirstAttended | acme-dental-main/src/services/booking_service.py:383-418 | A successful cancellation cancelled the first listed event the address attends, by its uuid. |
| BookingProperties.PaddedAddressNeverMatches | acme-dental-main/src/services/booking_service.py:313 | The address comparison uses the raw, unstripped input, so a whitespace-padded address never equals an unpadded stored one. |
| BookingProperties.PaddedAddressFindsNoInvitee | acme-dental-main/src/services/booking_service.py:312-316 | Such a padded address finds no invitee in any list of unpadded addresses. |
| BookingProperties.StartInstantOfCanonicalDate | acme-dental-main/src/services/booking_service.py:219-221 | For a canonical date and a parsable time, the instant sent is "YYYY-MM-DDTHH:MM:00Z", the ISO rendering of that date at that 24-hour time. |
| BookingProperties.ShortDateHasNoInstant | acme-dental-main/src/services/booking_service.py:219-221 | A date shorter than ten characters, such as an unpadded one the validator accepts, yields no start instant. |
| BookingProperties.InstantReadsBack | acme-dental-main/src/services/booking_service.py:221 | The "...Z" instant the booking sends is read back by the service's own start-time parser as the same datetime. |
| BookingProperties.BookingSendsTheStart | acme-dental-main/src/services/booking_service.py:209-229 | A successful booking resolved a truthy event type. Its last call is `create_invitee` with that event type, the computed start, the e-mail and the name. |
| BookingProperties.BookingReportsInviteeUri | acme-dental-main/src/services/booking_service.py:224-238 | A confirmed booking reports as its event URI the `uri` of the invitee that the last call created, or `""` when there is none. |
| BookingProperties.BookedTimeRoundTrip | acme-dental-main/src/services/booking_service.py:219-229 | An event created at the instant sent is reported back with the booked date and a time that parses to the booked time. |
| BookingProperties.AvailabilityMemoisesEventType | acme-dental-main/src/services/booking_service.py:53-56 | The first availability query with a non-empty listing memoises the first event type's `uri`. |
| BookingProperties.MemoSkipsListing | acme-dental-main/src/services/booking_service.py:48-49 | Once the memo is set, booking never lists event types and leaves the service unchanged. |
| BookingProperties.RescheduleSucceedsAfterCancel | acme-dental-main/src/services/booking_service.py:464-479 | With valid inputs and a successful cancellation, rescheduling succeeds, even when availability falls back, and then offers the fixed times. |
| KnowledgeService.FirstMatch | acme-dental-main/src/services/knowledge_service.py:192-197 | The scan returns the first row with a keyword in the question, and returns nothing exactly when no row has one. |
| KnowledgeService.SearchKnowledgeBase | acme-dental-main/src/services/knowledge_service.py:155-221 | Every reply has success and the knowledge-base source. The category is "general", with the composite answer, exactly when no keyword of any row occurs in the lower-cased question. Otherwise the reply is the first matching row's category and answer. |
| KnowledgeService.SearchIgnoresCase | acme-dental-main/src/services/knowledge_service.py:164 | Questions equal up to letter case get the same reply. |
| KnowledgeService.SearchOfLowered | acme-dental-main/src/services/knowledge_service.py:164 | A question and its lower-cased form get the same reply. |
| KnowledgeService.TableListsEveryCategoryOnce | acme-dental-main/src/services/knowledge_service.py:24-47 | Every answerable category sits in exactly one row of the keyword table, so each handler is reachable. |
| KnowledgeService.RowOfInvertsTable | acme-dental-main/src/services/knowledge_service.py:167-190 | No category appears in two rows. |
| KnowledgeService.FirstHitUnique | acme-dental-main/src/services/knowledge_service.py:193-197 | The first row that hits is the row the scan picks. |
| KnowledgeService.SearchOfFirstHit | acme-dental-main/src/services/knowledge_service.py:200-207 | The reply names the first matching row's category and gives its handler's answer. |
| KnowledgeService.HowLongIsDuration | acme-dental-main/tests/test_knowledge_service.py:28-33 | "How long is the appointment?" is answered as a duration question. |
| KnowledgeService.PricingQuotesPrice | acme-dental-main/tests/test_knowledge_service.py:21-26 | The pricing answer quotes the clinic's price "€60". |
| KnowledgeService.GetContactInfo | acme-dental-main/src/services/knowledge_service.py:243-253 | The contact fields are the clinic record's e-mail, phone and location. |
| KnowledgeService.GetClinicInfo | acme-dental-main/src/services/knowledge_service.py:223-241 | The reply has success, is the clinic record, and its formatted text contains the location. |
| KnowledgeService.FormattedNamesLocation | acme-dental-main/src/services/knowledge_service.py:232-240 | The rendering of any clinic record shows its location, e-mail and phone. |
| KnowledgeService.JoinContainsLine | acme-dental-main/src/services/knowledge_service.py:232-240 | Every line occurs in the joined text. |
| KnowledgeService.ContactAgreesWithClinic | acme-dental-main/tests/test_knowledge_service.py:72-78 | The contact details agree with the clinic record, and the clinic summary mentions the contact e-mail. |
| Text.Strip | acme-dental-main/src/utils/validators.py:48 | `strip()` drops a whitespace prefix and suffix and leaves a text with no whitespace at either end. |
| Text.StripOfFramed | acme-dental-main/src/utils/validators.py:48 | `strip()` keeps exactly the run between the first and the last non-whitespace character. |
| Text.ContainsIffOccurs | acme-dental-main/src/services/knowledge_service.py:195 | Python's substring test holds exactly when the needle occurs at some offset. |
| Text.NatToString | acme-dental-main/src/api/calendly_api.py:84 | `str(n)` is a digit string denoting n, with no leading zero. |
| Text.AfterLast | acme-dental-main/src/services/booking_service.py:307 | `split('/')[-1]` is the suffix after the last separator, and contains none. |
| JsonData.Get | acme-dental-main/src/api/calendly_api.py:153 | `dict.get` succeeds exactly on dictionaries, giving the field or the default. |

## Left out

- HTTP transport (`requests`, headers, timeouts, `raise_for_status`): a `Network` oracle returns what the library reported for each request.
- The `HTTPError` branch of `_make_request` (calendly_api.py:137-138): every status from 400 up is raised before `raise_for_status`, so it cannot be reached.
- The booking service talks to the client through a pure provider oracle. The same call is assumed to get the same answer within one operation.
- `os.getenv` and `datetime.now()` are parameters: the environment token and URL, `today`, and the `now` text sent as `min_start_time`.
- `reschedule_appointment`: one `today` and one `now` serve both of its inner calls. In Python they are read twice and could straddle midnight.
- `BookingNotFoundError`, `CalendlyValidationError` and `CalendlyConflictError` are never raised by this code.
- The package `__init__` re-exports, the LangGraph agent, its tools, the conversation state, the CLI entry point and the test fixtures are not part of this model.
- The membership test of the matched category in the handler table (knowledge_service.py:200) is always true here, because every table row's category has a handler (`KnowledgeService.TableListsEveryCategoryOnce`).
- Text.Lower: folds ASCII letters only; Python's `lower()` also folds non-ASCII letters.
- Clock.ParseYmd: ASCII digits only; `strptime` also accepts other Unicode decimal digits.
- Clock.ParseIso: accepts "YYYY-MM-DDTHH:MM:SS" with an optional 3- or 6-digit fraction and an optional `±HH:MM` offset, a subset of what `fromisoformat` accepts. The offset is checked but not applied, as the code only re-renders the wall-clock time.
- Clock.LongDate: zero-pads years below 1000 to four digits; glibc's `%Y` does not. Such dates are far in the past and never listed as upcoming.
- BookingService.AppointmentOf: renders the `%Y` of `%Y-%m-%d` zero-padded to four digits, as `Clock.LongDate` does, for the same reason.
- Clock.Parse12: reads the hour and minute of `%I:%M` as ASCII digits only; the `\d` of `strptime` also accepts other Unicode decimal digits.
- JsonData.Display: `str()` of lists and dictionaries, and the text of exception details (`KeyError` messages, `ValueError` messages), are abstract placeholders.
- JSON numbers are integers; floating-point values from the API are not modelled.
- BookingService.StartInstant: the start instant is computed before the booking call and passed in. Computing it cannot change the service or make a call, so the behaviour is the same.
