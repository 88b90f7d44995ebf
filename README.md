# Pet booking reservation engine — a Dafny model

This project models the reservation engine of a pet-care booking platform
(Django backend, `backend/pet_booking/`). Customers book two kinds of service
at a store:

- **grooming**: a set of services priced by the pet's size and fur, booked at a
  time of day that must not clash with the store's grooming schedule;
- **boarding**: a room type for a stay from check-in to check-out, refused
  when the room type is full at some half hour of the stay.

After booking, the store moves each reservation through a small state machine:

- `pending` → `confirmed` → `finished`;
- `pending` or `confirmed` → `cancelled`.

Finishing a reservation records an order and redeems the coupon attached to the
reservation. The model also covers:

- the store's history and risk views, with their note updates and the blacklist;
- the boarding availability summary;
- the coupon rules;
- user-id generation;
- the replace-all updates of pricing tiers and store galleries.

The database is one object, `Database.Db`, holding every table as a sequence
field in table (primary-key) order. Views that change rows are methods that
modify only the fields for the tables they write. Each method is proved equal
to a function over the old tables, and the lemmas state what the system
promises about those functions. Django's `.get()` is `Outcomes.Single` or
`Outcomes.Get` over the matching rows: no row, one row, or several.
`filter().first()` is the first match in table order. Times are integer
minutes: a date is `minute / 1440` and a time of day is `minute % 1440`.

Module layout, following the source:

- `outcomes`, `tables`, `decimal`: lookups, table filters, decimal text.
- `records`, `database`: the rows of every table and the database object.
- `slots`: grooming and boarding time markers.
- `pricing`: grooming sums and the boarding tier choice.
- `reservation_ids`: reservation ids and their kind prefix.
- `grooming_booking`, `boarding_booking`: the two create views.
- `grooming_calculation`: the grooming price calculation views.
- `store_info`: the booking page's store lookup.
- `lifecycle`: the shared state machine and the finish step.
- `grooming_management`, `boarding_management`, `legacy_management`: the three
  transition view sets.
- `notes`: store-note updates.
- `history`, `risk`: the store's history and risk views.
- `availability`: the boarding availability summary.
- `coupons`: the coupon validators, redemption and the remaining count.
- `users`: user-id generation.
- `service_catalog`: grooming services and room types with their tiers.
- `store_profile`: store creation and update with the gallery.
- `directory`: customer profiles, stores and pets.

Two generations of the grooming views exist side by side:

- `reservations/views.py` holds the older calculation and booking views.
- `reservations/views/manage_reservations.py` holds the older transitions,
  without coupons.

`GroomingBooking.Version` and the `LegacyManagement` module model them, and
lemmas relate each one to its current counterpart.

## Model

| member | source | states |
|---|---|---|
| Outcomes.Single | backend/pet_booking/reservations/views/create_reservations.py:500-508 | `.get()` succeeds exactly when one row matches and then returns it; no match is a 404 and several a 500 |
| Tables.FirstIsEarliest | backend/pet_booking/reservations/views/manage_history_reservations.py:519-548 | `.first()` returns the earliest matching row: no earlier row matches |
| Decimal.ValueOfPadded | backend/pet_booking/reservations/views/create_reservations.py:1449 | zero-padding a number to a width it fits in keeps its value when read back |
| Decimal.PaddedSuffix | backend/pet_booking/reservations/views/create_reservations.py:1449 | the last k digits of a padded number are the padding of the number mod 10^k (the "last four digits of the microseconds") |
| Slots.GroomingSlotCountNearest | backend/pet_booking/reservations/views/create_reservations.py:564 | the marker count for D minutes is 0 for D ≤ 7, at least 1 for D ≥ 8, and then the nearest whole number of quarter hours to D (within 7 minutes) |
| Slots.RoundedExtraQuartersIsNearest | backend/pet_booking/reservations/views.py:457 | the integer form of `int(round(D/15 - 1))` is the unique integer k less than 1/2 away from D/15 − 1 |
| Slots.GroomingSlotExamples | backend/pet_booking/reservations/tests.py:172-180 | 90 minutes give 6 markers, 120 give 8, 45 give 3, and a 90-minute booking at 10:00 takes 10:00 to 11:15 |
| Slots.GroomingMarkersShape | backend/pet_booking/reservations/views/create_reservations.py:577-584 | the markers start at the booked time of day and step 15 minutes around the clock, one per counted quarter |
| Slots.GroomingUnavailableTimes | backend/pet_booking/reservations/views.py:472-478 | the loop builds exactly the grooming markers |
| Slots.BoardingMarkersShape | backend/pet_booking/reservations/views/create_reservations.py:1196-1201 | boarding markers are check-in + 30·i, every one before check-out, and there are ⌈(checkout − checkin)/30⌉ of them |
| Slots.BoardingMarkersCover | backend/pet_booking/reservations/views/create_reservations.py:1196-1201 | every minute of the stay falls in the half hour of some marker |
| Slots.BoardingTimeSlots | backend/pet_booking/reservations/views/create_reservations.py:1196-1201 | the while loop builds exactly the boarding markers |
| Pricing.TierFor | backend/pet_booking/reservations/views/create_reservations.py:533-562 | the tier found has the pet's size and fur; none is found exactly when no tier matches |
| Pricing.AccumulateOutcome | backend/pet_booking/reservations/views/create_reservations.py:533-562 | the summing loop succeeds iff every part does; otherwise it fails with the first failing part's status |
| Pricing.GroomingTotalsOutcome | backend/pet_booking/reservations/views/create_reservations.py:533-562 | the grooming quote succeeds iff every selected title names one service of the store with a tier for the pet; a failure is a 404 (missing) or a 500 (ambiguous title) |
| Pricing.GroomingTotalsAddTitle | backend/pet_booking/reservations/views/create_reservations.py:533-562 | selecting one more priced title adds its tier's price and duration to the totals and its title to the list |
| Pricing.QuoteTitle | backend/pet_booking/reservations/views/create_reservations.py:534-556 | one iteration of the loop prices one title as the per-title specification does |
| Pricing.SumSelectedServices | backend/pet_booking/reservations/views/create_reservations.py:533-562 | the accumulating loop computes the grooming quote, stopping at the first failing title |
| Pricing.SpeciesTierFor | backend/pet_booking/reservations/views.py:310-316 | the first-generation calculation finds a tier only when the service is for the pet's species and has a tier for its size and fur |
| Pricing.LegacyPartDiffersOnlyOnMissingTier | backend/pet_booking/reservations/views.py:317-321 | the loop body as written and the corrected one differ exactly when the service exists but no tier matches; the corrected one then fails with 404 |
| Pricing.LegacyMissingTierPricedAtZero | backend/pet_booking/reservations/views.py:317-321 | as written, a dog's bath with no tiers is quoted at price 0 instead of failing |
| Pricing.LegacyQuoteSound | backend/pet_booking/reservations/views.py:301-327 | whenever the corrected calculation succeeds, the code as written gives the same quote |
| Pricing.QuoteLegacyTitle | backend/pet_booking/reservations/views.py:427-455 | one iteration of the first-generation booking loop prices one title as the per-title specification does: an unknown title or a missing species tier is a 404 |
| Pricing.SumLegacyParts | backend/pet_booking/reservations/views.py:425-455 | the first-generation booking loop computes the species-filtered quote, stopping at the first title that fails |
| Pricing.QuoteLegacyTitleAsWritten | backend/pet_booking/reservations/views.py:300-327 | one iteration of the first-generation calculation loop: an unknown title is a 404, several services a 500, and a missing tier adds nothing |
| Pricing.SumLegacyPartsAsWritten | backend/pet_booking/reservations/views.py:297-327 | the first-generation calculation loop computes the as-written quote of the selection |
| Pricing.LegacyCalculationVersusBooking | backend/pet_booking/reservations/views.py:300-327 | the as-written calculation fails only with 404 or 500 and succeeds iff every title names one service of the store; whenever the booking loop succeeds both agree, and the calculation succeeds where the booking fails exactly when every title is found but some has no tier for the pet |
| Pricing.LegacyQuoteAgrees | backend/pet_booking/reservations/views.py:301-327 | when every selected service is for the pet's species, the first-generation calculation prices exactly as the current one |
| Pricing.StayDays | backend/pet_booking/reservations/views/create_reservations.py:936-940 | the stay is the difference of the dates in days, at least 1 |
| Pricing.LongestFittingSpec | backend/pet_booking/reservations/views/create_reservations.py:1046-1052 | the longest fitting tier is the first of the tiers of greatest length not above the stay; none when no tier fits |
| Pricing.ShortestSpec | backend/pet_booking/reservations/views/create_reservations.py:1053-1056 | the fallback is the first of the shortest tiers |
| Pricing.ChooseTierSpec | backend/pet_booking/reservations/views/create_reservations.py:1046-1056 | a tier is chosen iff the room type has tiers, and the choice is the largest tier not longer than the stay, otherwise the smallest tier |
| Pricing.TierChoiceUnique | backend/pet_booking/reservations/views/create_reservations.py:1046-1056 | the tier-choice specification picks at most one tier |
| Pricing.CalculateBoardingCost | backend/pet_booking/reservations/views/create_reservations.py:900-1116 | a 400 when a date, time, store id or room type is missing or a date or the store id does not parse; a 404 for an unknown store; otherwise a failure exactly when the room type's tiers cannot be collected; only 400 or 404; a quote is of a room type of that store and name, with a stay of at least one day, totalling stay days × the tier's price |
| Pricing.BoardingCostUsesChosenTier | backend/pet_booking/reservations/views/create_reservations.py:974-1056 | a successful quote's tier is the one the tier-choice specification picks for the stay |
| ReservationIds.Timestamp | backend/pet_booking/reservations/views/create_reservations.py:1447-1448 | the timestamp is 14 digits |
| ReservationIds.MicrosecondTailValue | backend/pet_booking/reservations/views/create_reservations.py:1449 | the last four characters of the six-digit microseconds are the microseconds mod 10000, padded to four digits |
| ReservationIds.CreateReservationId | backend/pet_booking/reservations/views/create_reservations.py:1445-1458 | an id exists iff the service type is grooming or boarding; it is 20 characters, the kind's "GR"/"BD" prefix followed by digits |
| ReservationIds.LegacyIdIsGroomingId | backend/pet_booking/reservations/views.py:495-498 | the first-generation inline id is the current grooming id for the same instant |
| ReservationIds.KindOfId | backend/pet_booking/reservations/views/manage_history_reservations.py:255-345 | an id reads as grooming iff it starts with "GR" and as boarding iff it starts with "BD" |
| ReservationIds.KindOfCreatedId | backend/pet_booking/reservations/views/manage_history_reservations.py:206-239 | every created id is routed back to the kind it was created for |
| ReservationIds.IdRoundTrip | backend/pet_booking/reservations/views/create_reservations.py:1445-1458 | parsing a created id gives back its kind, the instant to the second and the microsecond tail |
| ReservationIds.EqualIdsSameStamp | backend/pet_booking/reservations/views/create_reservations.py:1445-1458 | two equal ids come from the same kind, second and microsecond tail |
| Directory.StoreById | backend/pet_booking/reservations/views.py:46 | the store found has the requested id; none is found iff no store has it |
| Directory.ProfilesMatching | backend/pet_booking/reservations/views/manage_grooming_reservations.py:248-252 | the profiles matched are exactly those with the customer's name and phone |
| Directory.PhoneOf | backend/pet_booking/reservations/views/create_reservations.py:500-508 | the recorded phone is empty iff the profile has none |
| GroomingBooking.Quote | backend/pet_booking/reservations/views/create_reservations.py:533-562 | the booking quote fails only with a 404 or a 500 |
| GroomingBooking.Prepare | backend/pet_booking/reservations/views/create_reservations.py:493-575 | the checks before the slot check: complete form, one profile, one store, one pet of the user, a quote, a parsed time; never a 409 |
| GroomingBooking.Occupied | backend/pet_booking/reservations/views/create_reservations.py:586-597 | a time is taken iff a schedule row of the store has that date and time of day |
| GroomingBooking.IdFor | backend/pet_booking/reservations/views.py:495-498 | the first generation uses the inline grooming id and the current one `create_reservation_id` |
| GroomingBooking.PlanBooking | backend/pet_booking/reservations/views/create_reservations.py:493-575 | the view's lookups and pricing loop compute the preparation specification |
| GroomingBooking.SettleBooking | backend/pet_booking/reservations/views/create_reservations.py:577-647 | the marker, conflict and id steps compute the settle specification |
| GroomingBooking.CreateReservation | backend/pet_booking/reservations/views/create_reservations.py:478-647 | the view answers as the booking specification and appends the new reservation, and only then |
| GroomingBooking.ConflictIffMarkerTaken | backend/pet_booking/reservations/views/create_reservations.py:586-597 | a prepared booking is refused with 409 iff one of its markers is taken on that date |
| GroomingBooking.BookedReservationFacts | backend/pet_booking/reservations/views/create_reservations.py:599-617 | a booked reservation is pending with an empty store note, and holds the customer, pet, store, quote and booked time; no marker of it was taken |
| GroomingBooking.BookedIdPrefix | backend/pet_booking/reservations/views/create_reservations.py:1445-1458 | a booked grooming reservation's id starts with "GR" and routes back to grooming |
| GroomingBooking.NoPhoneNoBooking | backend/pet_booking/reservations/views/create_reservations.py:619-641 | a customer without a phone cannot book: the serializer refuses the empty phone |
| GroomingBooking.LegacyBookingAgrees | backend/pet_booking/reservations/views.py:351-546 | for a "grooming" request where every catalog service has the species of the named pet, the first-generation booking gives the current one's answer, with the same id and a recorded price of 0 |
| GroomingBooking.LegacyPlanAgrees | backend/pet_booking/reservations/views.py:425-455 | both generations prepare a booking alike |
| GroomingBooking.LegacySettleAgrees | backend/pet_booking/reservations/views.py:472-498 | both generations settle a booking alike, up to the id |
| GroomingBooking.MarkerRows | backend/pet_booking/reservations/models.py:26-40 | one schedule row per marker, keyed by store, date and time of day |
| GroomingBooking.RecordedMarkersBlockOverlap | backend/pet_booking/reservations/views/create_reservations.py:586-597 | once a booking's markers are in the schedule, any later booking that shares one of them on that date is refused |
| BoardingBooking.Instant | backend/pet_booking/reservations/views/create_reservations.py:1171-1180 | a parsed instant has exactly the given date and time of day |
| BoardingBooking.Prepare | backend/pet_booking/reservations/views/create_reservations.py:1141-1236 | the checks before the capacity check: complete form, one profile, one store, parsed dates with check-out after check-in, one room type |
| BoardingBooking.Occupancy | backend/pet_booking/reservations/views/create_reservations.py:1239-1250 | the count at a marker is 0 iff no schedule row of the store and room type is at that instant |
| BoardingBooking.PlanStay | backend/pet_booking/reservations/views/create_reservations.py:1141-1236 | the view's checks compute the preparation specification |
| BoardingBooking.SettleStay | backend/pet_booking/reservations/views/create_reservations.py:1239-1267 | the capacity loop and row creation compute the settle specification |
| BoardingBooking.CreateBoardingReservation | backend/pet_booking/reservations/views/create_reservations.py:1123-1284 | the view answers as the booking specification and appends the new reservation, and only then |
| BoardingBooking.NoPickUpIsIncomplete | backend/pet_booking/reservations/views/create_reservations.py:1141-1145 | a request without pick-up is a 400 |
| BoardingBooking.RefusedIffFull | backend/pet_booking/reservations/views/create_reservations.py:1239-1250 | a prepared stay is refused with 400 iff at some marker the room type's occupancy is already at its room count |
| BoardingBooking.BookedStayFacts | backend/pet_booking/reservations/views/create_reservations.py:1252-1267 | a booked stay is pending with an empty store note, for the customer's profile, the store name, the room type of that store and the parsed dates with check-out after check-in; its id is new and routes back to the requested kind |
| BoardingBooking.BookedStayHasRoom | backend/pet_booking/reservations/views/create_reservations.py:1239-1250 | at every marker of a booked stay the room type had a free room |
| BoardingBooking.OccupancyAppend | backend/pet_booking/reservations/models.py:65-73 | occupancy counts add up over concatenated schedules |
| BoardingBooking.OwnRowsOccupyOnce | backend/pet_booking/reservations/views/create_reservations.py:1196-1201 | a stay's own schedule rows occupy each of its markers once |
| BoardingBooking.RecordedStayKeepsCapacity | backend/pet_booking/reservations/views/create_reservations.py:1239-1250 | with a booked stay's rows added to the schedule, no marker exceeds the room count: capacity is never exceeded |
| GroomingCalculation.CalculateGroomingCost | backend/pet_booking/reservations/views/create_reservations.py:390-471 | a 400 exactly for a missing store id, pet data or selection, or an incomplete pet; a 500 for a malformed or unknown store id; otherwise it fails exactly when the pricing loop fails, with the loop's failure; a quote names the store and the selection's price |
| GroomingCalculation.CalculationAgreesWithBooking | backend/pet_booking/reservations/views/create_reservations.py:429-457 | the current calculation quotes exactly what the current booking records; the first-generation calculation agrees with its booking whenever the booking's quote succeeds, and differs exactly when every title is found but some has no tier for the pet |
| GroomingCalculation.CalculationFailures | backend/pet_booking/reservations/views.py:300-327 | the pricing loop fails only with 404 or 500; the current one succeeds iff every title is priced, the first-generation one iff every title names one service |
| GroomingCalculation.CalculateCost | backend/pet_booking/reservations/views.py:242-341 | the view with its loop computes the calculation specification, the first-generation loop as written |
| StoreInfo.ListedIffOccupied | backend/pet_booking/reservations/views.py:72-81 | a time is listed as unavailable iff the booking view would find it occupied |
| StoreInfo.ServiceTitles | backend/pet_booking/reservations/views.py:49-50 | the titles listed are exactly those of the store's grooming services |
| StoreInfo.StoreDataAsWritten | backend/pet_booking/reservations/views.py:98-107 | as written, an unknown store is answered with a 500 |
| StoreInfo.StoreData | backend/pet_booking/reservations/views.py:28-107 | 400 iff no store id, 404 iff no store has it, 500 iff it is not a number; the page shows that store and its titles |
| StoreInfo.ListedTimesAreTaken | backend/pet_booking/reservations/views.py:72-81 | the page lists exactly the times a grooming booking today would be refused for |
| StoreInfo.UnknownStoreAnswersServerError | backend/pet_booking/reservations/views.py:46 | the code as written and the corrected view differ on an unknown store alone: 500 against 404 |
| StoreInfo.UnknownStoreExample | backend/pet_booking/reservations/views.py:98-107 | store 2 requested with only store 1 present: 500 as written, 404 corrected |
| StoreInfo.UnavailableTimes | backend/pet_booking/reservations/views.py:72-81 | the loop collects the times of today's schedule rows |
| StoreInfo.GetStoreData | backend/pet_booking/reservations/views.py:28-107 | the view computes the corrected store-page specification |
| Lifecycle.Target | backend/pet_booking/reservations/views/manage_grooming_reservations.py:134-229 | each action's target is a legal move from its required status, and ranks above it |
| Lifecycle.LegalMovesForward | backend/pet_booking/reservations/views/manage_grooming_reservations.py:134-229 | a legal move goes forward in pending < confirmed < finished/cancelled and never leaves a terminal status |
| Lifecycle.Advance | backend/pet_booking/reservations/views/manage_grooming_reservations.py:144-160 | a move sets the status to the action's target, overwrites the store note only on a confirm with a note, and keeps every other field |
| Lifecycle.Locate | backend/pet_booking/reservations/views/manage_grooming_reservations.py:144-146 | the row found has the id and the required status; none is found iff no row has both |
| Lifecycle.UniqueIdsLocateAtMostOne | backend/pet_booking/reservations/models.py:4 | with unique reservation ids the lookup never finds several rows |
| Lifecycle.Transit | backend/pet_booking/reservations/views/manage_grooming_reservations.py:134-229 | an empty id is a 400 and no row in the required status a 404, both changing nothing; a success moves exactly that row to the target |
| Lifecycle.TransitMovesLegally | backend/pet_booking/reservations/views/manage_grooming_reservations.py:134-229 | a transition changes only the reservation with that id, by a legal move; finished and cancelled rows never change |
| Lifecycle.NoMoveTwice | backend/pet_booking/reservations/views/manage_grooming_reservations.py:170-229 | after a successful move of a reservation with a unique id, any action requiring the old status is a 404 |
| Lifecycle.TransitKeepsIds | backend/pet_booking/reservations/models.py:4 | transitions keep every id and so keep ids unique |
| Lifecycle.OrderFor | backend/pet_booking/reservations/views/manage_grooming_reservations.py:267-285 | the order carries the customer, the reservation's price, no blacklist flag and a reference of the right kind |
| Lifecycle.FinishRequest | backend/pet_booking/reservations/views/manage_grooming_reservations.py:232-344 | nothing is written unless the reservation is confirmed, the customer unique and the order valid; then the reservation is finished, one order appended and the coupon redeemed |
| Lifecycle.FinishRequestAsWritten | backend/pet_booking/reservations/views/manage_grooming_reservations.py:267-281 | as written, a current desk never completes a finish and leaves the tables as they were; the older desk finishes as the corrected request does |
| Lifecycle.CurrentFinishRefusedAtSerializer | backend/pet_booking/reservations/views/manage_boarding_reservations.py:318-332 | every current-desk finish that the corrected request would commit is answered 400 as written, and nothing is committed |
| Lifecycle.FinishReferenceExample | backend/pet_booking/reservations/views/manage_grooming_reservations.py:267-277 | a confirmed reservation with one customer profile and a valid order: corrected, it is finished; as written the grooming desk answers 400 |
| Lifecycle.FinishCustomerErrors | backend/pet_booking/reservations/views/manage_grooming_reservations.py:248-265 | no profile for the name and phone is a 404 and several a 400, with nothing written |
| Lifecycle.FinishOrderCustomer | backend/pet_booking/reservations/views/manage_grooming_reservations.py:267-285 | an invalid order is a 400 before any change; otherwise the saved order belongs to the profile's user and carries the reservation's price |
| Lifecycle.FinishMovesLegally | backend/pet_booking/reservations/views/manage_grooming_reservations.py:232-285 | finishing changes only the reservation with that id, from confirmed to finished |
| Lifecycle.FinishNotRepeatable | backend/pet_booking/reservations/views/manage_grooming_reservations.py:232-246 | a finished reservation cannot be finished again: the second request is a 404 that writes nothing |
| Lifecycle.GroomingEnd | backend/pet_booking/reservations/views/manage_reservations.py:153-155 | the end falls at the start's time of day plus the period, after every schedule marker the booking reserved, and within 7 minutes of the end of the last marker's quarter |
| Lifecycle.BoardingNights | backend/pet_booking/reservations/views/manage_boarding_reservations.py:359-361 | the reported duration is the difference of the dates, never negative for a well-ordered stay |
| GroomingManagement.Move | backend/pet_booking/reservations/views/manage_grooming_reservations.py:134-229 | a grooming transition does on the table exactly what the transition specification says |
| GroomingManagement.ConfirmReservation | backend/pet_booking/reservations/views/manage_grooming_reservations.py:134-167 | confirms only a pending reservation, storing the given note |
| GroomingManagement.CancelReservation | backend/pet_booking/reservations/views/manage_grooming_reservations.py:170-198 | cancels only a pending reservation |
| GroomingManagement.CancelConfirmedReservation | backend/pet_booking/reservations/views/manage_grooming_reservations.py:201-229 | cancels only a confirmed reservation |
| GroomingManagement.FinishReservation | backend/pet_booking/reservations/views/manage_grooming_reservations.py:232-344 | finishing writes the reservations, orders and coupons as the finish specification says and answers with its tally |
| BoardingManagement.Move | backend/pet_booking/reservations/views/manage_boarding_reservations.py:186-281 | a boarding transition does on the table exactly what the transition specification says |
| BoardingManagement.ConfirmReservation | backend/pet_booking/reservations/views/manage_boarding_reservations.py:186-219 | confirms only a pending stay, storing the given note |
| BoardingManagement.CancelReservation | backend/pet_booking/reservations/views/manage_boarding_reservations.py:222-250 | cancels only a pending stay |
| BoardingManagement.CancelConfirmedReservation | backend/pet_booking/reservations/views/manage_boarding_reservations.py:253-281 | cancels only a confirmed stay |
| BoardingManagement.FinishReservation | backend/pet_booking/reservations/views/manage_boarding_reservations.py:284-390 | finishing a stay writes as the finish specification says |
| LegacyManagement.ConfirmReservation | backend/pet_booking/reservations/views/manage_reservations.py:327-355 | confirms only a pending reservation and keeps its store note |
| LegacyManagement.FinishReservation | backend/pet_booking/reservations/views/manage_reservations.py:420-495 | finishes as the finish specification says, with no coupon tally |
| Notes.SetNote | backend/pet_booking/reservations/views/manage_grooming_reservations.py:100-127 | a note update fails with 404 iff no row has the id, changing nothing; a success overwrites that row's note |
| Notes.SetNoteOnlyNotes | backend/pet_booking/reservations/views/manage_grooming_reservations.py:113-116 | a note update changes no field other than store notes |
| Notes.SetNoteIdempotent | backend/pet_booking/reservations/views/manage_grooming_reservations.py:100-127 | writing the same note twice is writing it once |
| Notes.TableNoteRequest | backend/pet_booking/reservations/views/manage_grooming_reservations.py:100-127 | a request the serializer refuses is a 400 that changes nothing; otherwise the note is set |
| Notes.UpdateGroomingNote | backend/pet_booking/reservations/views/manage_reservations.py:82-110 | the grooming note endpoints (both generations) update the table as the note request specification says |
| Notes.UpdateBoardingNote | backend/pet_booking/reservations/views/manage_boarding_reservations.py:152-178 | the boarding note endpoint updates the table as the note request specification says |
| Notes.StaffNoteVerdict | backend/pet_booking/reservations/views/manage_history_reservations.py:176-186 | the validator accepts a 1-to-20-character id of a grooming reservation and a note of at most 1000 characters |
| Notes.StaffNoteRequest | backend/pet_booking/reservations/views/manage_history_reservations.py:192-239 | a failed request changes nothing, at most one table changes, and a success sets the note of the row with that id |
| Notes.BoardingNoteNeedsGroomingId | backend/pet_booking/reservations/views/manage_risk_reservations.py:160-170 | a "BD" id no grooming reservation carries is refused with 400 and nothing changes |
| Notes.StaffNoteRoutesByPrefix | backend/pet_booking/reservations/views/manage_risk_reservations.py:191-224 | a successful update changes only the note of that id in the table its prefix names |
| Notes.UpdateStoreNote | backend/pet_booking/reservations/views/manage_risk_reservations.py:177-224 | the history and risk note endpoints update both tables as the dispatch specification says |
| History.FinishedOfStore | backend/pet_booking/reservations/views/manage_history_reservations.py:38-52 | the query keeps exactly the store's finished reservations |
| History.NewestFirst | backend/pet_booking/reservations/views/manage_history_reservations.py:42-52 | the order is newest first, the reverse of creation order |
| History.ListQuery | backend/pet_booking/reservations/views/manage_history_reservations.py:54-72 | a service type naming the other kind or a missing store id is a 400; otherwise an unknown store is exactly the 404 and a known store always succeeds, with its finished reservations newest first |
| History.LatestFinishedComesFirst | backend/pet_booking/reservations/views/manage_history_reservations.py:42-52 | a reservation finished last heads its store's list |
| History.OthersDoNotShow | backend/pet_booking/reservations/views/manage_history_reservations.py:38-52 | a reservation that is not a finished one of the store leaves the list as it was |
| History.HistoryListIsFinishedOfStore | backend/pet_booking/reservations/views/manage_history_reservations.py:54-90 | the list shows exactly the store's finished reservations of its kind |
| History.ListHistory | backend/pet_booking/reservations/views/manage_history_reservations.py:79-90 | the row loop builds the history list specification |
| History.FirstOrderFor | backend/pet_booking/reservations/views/manage_history_reservations.py:519-532 | the order found is the first one referring to the reservation; none iff no order does |
| History.ReservationDetails | backend/pet_booking/reservations/views/manage_history_reservations.py:245-345 | success exactly for a non-empty id of a known kind naming one finished reservation of its table, and for a stay a referring order; an empty or unprefixed id is a 400, no finished row a 404, and several rows or a finished stay without an order a 500 |
| History.BoardingDetailsPetOfCustomer | backend/pet_booking/reservations/views/manage_history_reservations.py:293-339 | a breed shown in boarding details is that of a pet of the order's customer with the reservation's pet name |
| History.BlacklistRequest | backend/pet_booking/reservations/views/manage_history_reservations.py:503-560 | success exactly for a non-empty id of a known kind naming one reservation with a referring order; then only the first referring order gets the blacklist flag (a field the order model lacks; see Logical shape) and is answered; an unknown reservation or no referring order is a 404 that changes nothing |
| History.BlacklistIdempotent | backend/pet_booking/reservations/views/manage_history_reservations.py:519-548 | blacklisting twice leaves the orders as blacklisting once |
| History.AddToBlacklist | backend/pet_booking/reservations/views/manage_history_reservations.py:503-560 | the view writes the orders as the blacklist specification says |
| Risk.RiskListMirrorsHistory | backend/pet_booking/reservations/views/manage_risk_reservations.py:38-90 | the risk list answers as the history list and lists the same finished reservations in the same order, each flagged |
| Risk.ListRisk | backend/pet_booking/reservations/views/manage_risk_reservations.py:52-90 | the row loop builds the risk list specification |
| Availability.UsedRooms | backend/pet_booking/reservations/views/manage_boarding_reservations.py:77-99 | the usage of a room type is 0 iff no confirmed stay of the store spans today in it |
| Availability.Remaining | backend/pet_booking/reservations/views/manage_boarding_reservations.py:115-135 | remaining is capacity minus usage, floored at 0 |
| Availability.LinesReportFreeCapacity | backend/pet_booking/reservations/views/manage_boarding_reservations.py:106-135 | the lines are exactly the store's room types of the species, each with its free capacity |
| Availability.StayTakesOneUnit | backend/pet_booking/reservations/views/manage_boarding_reservations.py:77-99 | one more confirmed stay spanning today lowers the remaining count by one while any is left |
| Availability.AvailabilityRequest | backend/pet_booking/reservations/views/manage_boarding_reservations.py:54-145 | no store id is a 400, an unknown store or one without room types exactly the 404, and every other request succeeds; the answer names the store, lists its cat and dog room types with their free capacity and counts its pending and confirmed stays, which together never exceed the table |
| Availability.PendingAndConfirmedBounded | backend/pet_booking/reservations/views/manage_boarding_reservations.py:85-93 | the pending and confirmed counts together are at most the number of stays |
| Availability.RoomAvailability | backend/pet_booking/reservations/views/manage_boarding_reservations.py:54-145 | the view's usage loop computes the availability specification |
| Coupons.ClaimVerdict | backend/pet_booking/coupon/serializers.py:19-34 | a claim is accepted exactly for a user id of valid length, of a known user, who holds no coupon; every refusal is a validation error |
| Coupons.ClaimKeepsOnePerUser | backend/pet_booking/coupon/models.py:12-18 | issuing a coupon to an accepted claimant keeps one coupon per user, and a second claim is refused |
| Coupons.AttachVerdict | backend/pet_booking/coupon/serializers.py:37-59 | accepted exactly for bounded ids of a known user with exactly one not-used coupon; otherwise a validation error, or a 500 when the user has several not-used coupons |
| Coupons.AttachNeverAmbiguous | backend/pet_booking/coupon/serializers.py:53-57 | with one coupon per user, the attach lookup never finds several coupons |
| Coupons.CompleteVerdict | backend/pet_booking/coupon/serializers.py:62-73 | accepted exactly for bounded ids and exactly one not-used coupon attached to the reservation; otherwise a validation error, or a 500 when several are attached |
| Coupons.Redeem | backend/pet_booking/reservations/views/manage_grooming_reservations.py:288-296 | when exactly one coupon belongs to the reservation it alone is marked used with the order id; otherwise nothing changes |
| Coupons.SecondCompletionRejected | backend/pet_booking/coupon/serializers.py:67-73 | once the reservation's coupon is redeemed, every further completion for it is refused |
| Coupons.RedeemOnlyUses | backend/pet_booking/reservations/views/manage_boarding_reservations.py:339-347 | redemption touches only the reservation's coupons and never un-uses one |
| Coupons.RemainingCoupons | backend/pet_booking/coupon/views.py:10-11 | remaining is 84 minus the number of used coupons |
| Coupons.UnusedCouponsIgnored | backend/pet_booking/coupon/views.py:10 | a not-used coupon does not change the remaining count |
| Coupons.UsingOneLowersRemainingByOne | backend/pet_booking/coupon/views.py:10-12 | marking one more coupon used lowers the remaining count by exactly one |
| Coupons.RemainingNegativePastLimit | backend/pet_booking/coupon/views.py:11 | past 84 used coupons the remaining count is negative |
| Coupons.StoreUsedCoupons | backend/pet_booking/reservations/views/manage_grooming_reservations.py:300-303 | the store's used coupons are exactly those used and credited to its id |
| Coupons.CouponTallyAsWritten | backend/pet_booking/reservations/views/manage_grooming_reservations.py:298-306 | as written, the revenue is 50 per used coupon, and a missing store ends in a 500 |
| Coupons.CouponTallyFor | backend/pet_booking/reservations/views/manage_boarding_reservations.py:349-357 | corrected: the revenue is 50 per used coupon; a missing store tallies zero, and only several stores with the name fail |
| Coupons.TallyCorrectionOnlyForMissingStore | backend/pet_booking/reservations/views/manage_grooming_reservations.py:298-306 | the two tallies differ exactly when no store has the reservation's store name |
| Coupons.MissingStoreBreaksTally | backend/pet_booking/reservations/views/manage_grooming_reservations.py:305-306 | a reservation of a store named "Whiskers" with only "Paws" present: 500 as written, zero tally corrected |
| Records.IssuedCoupon | backend/pet_booking/coupon/models.py:19-47 | a new coupon is not used, belongs to its user and is linked to no store, reservation or order |
| Records.OrderKindIsGroomingIff | backend/pet_booking/reservations/models.py:106-108 | an order reads as grooming iff its grooming reference is set |
| Users.RolePrefix | backend/pet_booking/users/models.py:24-32 | the prefix is M, S, A for member, store, admin and X for any other role |
| Users.GeneratedId | backend/pet_booking/users/models.py:33-34 | a generated id is the role's prefix followed by the decimal seconds |
| Users.IdAfterSave | backend/pet_booking/users/models.py:31-34 | an id is generated only when it is empty and a role is set; otherwise it is kept |
| Users.User.constructor | backend/pet_booking/users/models.py:14-15 | a user starts with the given id and role |
| Users.User.Save | backend/pet_booking/users/models.py:30-35 | saving keeps the role and sets the id as the save rule says |
| Users.GeneratedIdRoundTrip | backend/pet_booking/users/models.py:33-34 | a generated id reads back as its role's prefix and the seconds |
| Users.SaveKeepsId | backend/pet_booking/users/models.py:31-35 | later saves never overwrite an id |
| Users.SaveWithRoleGivesId | backend/pet_booking/users/models.py:31-34 | a save with a role always leaves an id |
| Users.GeneratedIdsDistinct | backend/pet_booking/users/models.py:32-34 | two generated ids are equal iff they have the same prefix and the same second |
| Database.Db.constructor | backend/pet_booking/reservations/models.py:3-108 | the database starts with the given tables |
| ServiceCatalog.DurationMin | backend/pet_booking/services/serializers.py:52-54 | the minimum duration is None iff there are no tiers, otherwise a tier's duration not above any other |
| ServiceCatalog.DurationMax | backend/pet_booking/services/serializers.py:56-58 | the maximum duration is None iff there are no tiers, otherwise a tier's duration not below any other |
| ServiceCatalog.DurationRange | backend/pet_booking/services/serializers.py:52-58 | both exist together, and then the minimum is at most the maximum |
| ServiceCatalog.UpdatedServiceShape | backend/pet_booking/services/serializers.py:71-79 | an update keeps the service's store, overwrites each supplied field and leaves exactly the submitted tiers |
| ServiceCatalog.UpdateServiceIdempotent | backend/pet_booking/services/serializers.py:71-79 | repeating an update changes nothing more |
| ServiceCatalog.CreateGroomingService | backend/pet_booking/services/serializers.py:64-69 | creating appends one service carrying one tier per submitted pricing |
| ServiceCatalog.UpdateGroomingService | backend/pet_booking/services/serializers.py:71-79 | updating replaces only that service, by its updated form |
| ServiceCatalog.UpdatedRoomShape | backend/pet_booking/services/serializers.py:26-34 | a room-type update keeps its store, overwrites each supplied field and leaves exactly the submitted tiers |
| ServiceCatalog.CreateRoomType | backend/pet_booking/services/serializers.py:19-24 | creating appends one room type carrying one tier per submitted pricing |
| ServiceCatalog.UpdateRoomType | backend/pet_booking/services/serializers.py:26-34 | updating replaces only that room type, by its updated form |
| StoreProfile.ValidateImage | backend/pet_booking/stores/serializers.py:24-28 | an image is refused iff its store already has 9 or more |
| StoreProfile.CapKeepsAtMostNine | backend/pet_booking/stores/serializers.py:24-28 | an accepted image leaves the store with at most 9; a refusal means it has 9 |
| StoreProfile.NestedImagesUncapped | backend/pet_booking/stores/serializers.py:24-28 | images arriving without a store are never refused by the cap |
| StoreProfile.CreateStore | backend/pet_booking/stores/serializers.py:41-46 | creating adds the store under the next id and one image per submitted url, changing nothing else |
| StoreProfile.CreatedStoreGallery | backend/pet_booking/stores/serializers.py:41-46 | a new store's gallery is exactly the submitted urls; other galleries are unchanged |
| StoreProfile.UpdateStore | backend/pet_booking/stores/serializers.py:48-69 | updating patches only that store and replaces its gallery as the replacement specification says |
| StoreProfile.ReplaceGallery | backend/pet_booking/stores/serializers.py:56-67 | the delete-then-recreate loops compute the replacement specification |
| StoreProfile.ReplacedGallery | backend/pet_booking/stores/serializers.py:56-67 | with images supplied, the gallery becomes the JSON urls followed by the files; otherwise every image is kept |
| StoreProfile.UpdateKeepsOtherGalleries | backend/pet_booking/stores/serializers.py:56-67 | an update never changes another store's gallery |
| StoreProfile.PatchedStoreShape | backend/pet_booking/stores/serializers.py:50-53 | each supplied field is overwritten and the rest kept |

## Left out

- Concurrency: every view is one atomic step over the tables. The race between
  the slot check and the insert is not modelled.
- Clock: `datetime.now()`, `time.time()` and today's date are parameters.
  `strptime` is a parameter too: a malformed date or time is `None` and answers
  400.
- Request parsing: DRF's field handling (whitespace trimming, type coercion) is
  not modelled. A request field is `Absent` (missing or empty), `Malformed` or
  `Given`. In the grooming calculation and the boarding cost calculation a
  store id that is not a number is `Malformed` (a 500 and a 400). Elsewhere,
  in the grooming and boarding bookings, the history and risk lists and the
  availability view, a store id is taken to be a number (`Option<nat>`). A
  non-numeric one makes the key lookup raise `ValueError`, which those views
  answer with a 500. That case is not modelled.
- Order validation: whether `OrdersSerializer` accepts the rest of the order
  is a boolean parameter of the finish views. Its serializer is not part of
  this model. Only its refusal of a text reservation reference is modelled
  (Lifecycle.ReferenceAccepted).
- Note serializer: in the per-table note endpoints, whether the serializer
  accepts the request is a parameter. The serializer they import is not part
  of this model.
- Presentation: pagination, `.values(...)` projections and response formatting
  are not modelled. Nor are the listing views (all, pending, upcoming, details
  and customer-info lists). Also left out:
  - `get_store_data_userside` and `get_store_info_storeside` (create_reservations.py:25-258);
  - `get_room_types`;
  - the pet-info endpoints;
  - the user's pets shown by `get_store_data`.
- Logical shape: the views use fields the Django models lack. These include
  `store_name` on schedule rows, `total_price`, `grooming_period` and
  `pet_size` on reservations, `blacklist` on orders (so, as written, the
  blacklist flag and the finish views' unset flag are not stored), and the
  room-type and pricing classes that the views import under other names. The
  model carries the fields the views use. Boarding room types are one
  datatype with their tiers. Three readings follow
  from this:
  - `GroomingServicePricing` has no species column (services/models.py:45-50),
    yet the first-generation views filter tiers on it (views.py:312, 438).
    The model reads the species of the tier's service (Pricing.SpeciesTierFor).
  - The boarding details read `boarding_durations` and `pick_up_service`
    (manage_history_reservations.py:325-326). The model carries both on the
    boarding row.
  - Room types are matched store-wide by name and species, with no separate
    boarding-service layer (create_reservations.py:953-1024, 1213-1222). The
    cost calculation collects the tiers of the first match
    (Pricing.CollectedTiers); the booking answers 404 when no room type
    matches and 500 when several do (BoardingBooking.Prepare).
- Schedules: no create path inserts schedule rows. Both schedules are given
  state that the booking views only read.
- Broken store-side create paths: `create_reservation_storeside` and
  `create_reservation_storesides` (create_reservations.py:650-796, 1287-1443)
  fail on every request before writing anything. They are not modelled.
- Legacy cancellations: the first-generation `cancel_reservation` and
  `cancel_confirmed_reservation` (manage_reservations.py:358-417) behave
  exactly as GroomingManagement.CancelReservation and
  GroomingManagement.CancelConfirmedReservation, which model them.
- GroomingBooking.RowOf: the first-generation row records the grooming period
  and the pet size, as the current one does. The older view's row dictionary
  (views.py:501-515) has neither, so those two columns are the model's reading
  of that row.
- Lifecycle.FinishRequest: models the corrected finish. The order refers to
  the reservation's primary key, and a missing store tallies no coupons.
  As written, the current desks are refused by the order serializer
  (Lifecycle.FinishRequestAsWritten, see Findings).
- GroomingManagement.FinishReservation: computes the corrected finish
  (Lifecycle.FinishRequest), with the corrected coupon tally
  (Coupons.CouponTallyFor). As written, every request it would complete is
  answered 400 (Lifecycle.CurrentFinishRefusedAtSerializer). The 500 of a
  missing store is modelled as Coupons.CouponTallyAsWritten.
- BoardingManagement.FinishReservation: computes the corrected finish, as
  GroomingManagement.FinishReservation does. As written, the boarding desk's
  order reference is refused in the same way.
- BoardingBooking.RowOf: the boarding row records a price of 0 because
  `create_reservation_usersides` stores none. It records the request's
  pick-up flag, which is true on every accepted request, although the view's
  row dictionary leaves it out and the boarding model has no such column. The
  finish view reads both values.
- BoardingBooking.CreateBoardingReservation: the row goes in through
  `objects.create`, which checks no column lengths, so no length limit is
  modelled for it.
- StoreProfile.ValidateImage: the image serializer declares its store
  read-only (stores/serializers.py:18), so `attrs.get('store')` is None on
  every path and the cap never fires anywhere in the program
  (StoreProfile.NestedImagesUncapped). The cap is modelled but inert.
- Store fields: stores carry only their name and phone. Other profile columns
  (opening hours, address and the like) are plain copies.
- User ids: two users of the same role saved in the same second would get the
  same id. The unique constraint makes the second save fail; that failure is
  not modelled.
- Enumerations: size, fur and species strings outside the model's choices are
  carried as `OtherSize`, `FurOther` and `Unlisted`. They are not rejected.
  Duration units (`DurationUnit`) have no such variant: only the model's
  choices are represented.
- GroomingCalculation.CalculateGroomingCost: an unknown store is a 500, as
  written. `get_object_or_404` raises inside the view's only, generic handler,
  and the view has no handler that shows it meant a 404.
- Notification service and frontend: these are I/O and UI.
- Outdated tests: reservations/tests.py targets endpoints that are not in
  this code. Only its slot counts are used (Slots.GroomingSlotExamples).

## Findings

| source | as written | input that shows it | evidently intended | confidence | as-written member | corrected member |
|---|---|---|---|---|---|---|
| backend/pet_booking/reservations/views.py:317-321 | a selected service with no tier for the pet's species, size and fur builds a 404 response but does not return it, so the service adds 0 to the price | a dog, service "bath" with no tiers, selection ["bath"]: quote of price 0 | the missing tier aborts the calculation with 404, as the current view does | high (not executed) | Pricing.LegacyMissingTierPricedAtZero | Pricing.LegacyQuoteSound |
| backend/pet_booking/reservations/views/manage_grooming_reservations.py:298-306 | when no store has the reservation's store name, the handler sets only `used_coupons_count`, and reading `used_coupons_total_revenue` afterwards raises, so the view answers 500 after the reservation, order and coupon are saved | finish a confirmed reservation of store "Whiskers" when only store "Paws" exists | a missing store tallies no coupons and no revenue | medium (not executed); reached only once the order reference below is corrected | Coupons.MissingStoreBreaksTally | Coupons.TallyCorrectionOnlyForMissingStore |
| backend/pet_booking/reservations/views/manage_grooming_reservations.py:267-277 | the current grooming and boarding desks (also manage_boarding_reservations.py:318-328) pass the text `reservation_id` as the order's reservation key, which refers to the integer primary key, so the order serializer refuses it and every finish is answered 400 before anything is saved | finish the confirmed reservation "GR202508151030001234" of customer "Ann", who has one profile, at store "Paws" | the order refers to the reservation's primary key, as the older desk passes (manage_reservations.py:455-461), and the finish completes | high (not executed) | Lifecycle.FinishReferenceExample | Lifecycle.FinishRequest |
| backend/pet_booking/reservations/views.py:46 | `get_object_or_404` raises `Http404`, which the `except Store.DoesNotExist` clause does not catch, so an unknown store is answered by the generic handler with 500 | store id 2 when only store 1 exists | an unknown store is a 404, as the dedicated handler says | medium (not executed) | StoreInfo.UnknownStoreExample | StoreInfo.UnknownStoreAnswersServerError |
