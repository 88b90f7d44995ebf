/**
 * The customer-side grooming booking: the current view and the first-generation
 * one. Both read the customer, the store and the pet, quote the selected
 * services, turn the booked date and time into quarter-hour markers, refuse the
 * booking with a 409 when the store's schedule already holds one of them, and
 * otherwise save a pending reservation with a freshly generated id.
 *
 * The schedule is read, never written: neither view inserts schedule rows.
 */
module GroomingBooking {
  import opened Outcomes
  import opened Records
  import opened Directory
  import opened Slots
  import opened Pricing
  import opened ReservationIds
  import opened Database

  /** The current view, or the first-generation view with its species-filtered
      quote (durations only) and its inline "GR" id. */
  datatype Version = Current | Legacy

  /** The request as the view reads it. An absent or empty string is "", an
      absent store id None; the date is a day number and the time minutes after
      midnight, once parsed. */
  datatype GroomingForm = GroomingForm(
    storeName: string,
    storeId: Option<nat>,
    userId: string,
    serviceType: string,
    petName: string,
    services: seq<string>,
    pickUp: bool,
    date: Field<int>,
    time: Field<int>,
    customerNote: string)

  /** The view's `all([...])` test over the required fields. */
  predicate Complete(f: GroomingForm)
  {
    f.storeName != "" && f.storeId.Some? && f.userId != "" && f.petName != ""
    && |f.services| > 0 && !f.date.Absent? && !f.time.Absent?
  }

  /** The quote loop of either view. */
  function Quote(version: Version, catalog: seq<GroomingService>, storeId: nat, titles: seq<string>, pet: Pet): (r: Outcome<GroomingQuote>)
    ensures r.Fail? ==> r.failure == NotFound || r.failure == InternalError
  {
    var parts := match version
      case Current => ServiceParts(catalog, storeId, titles, pet.size, pet.furAmount)
      case Legacy => LegacyParts(catalog, storeId, titles, pet.species, pet.size, pet.furAmount);
    AccumulateOutcome(parts);
    Accumulate(parts)
  }

  /** Everything the view settles before it looks at the schedule. */
  datatype Plan = Plan(profile: CustomerProfile, store: StoreRow, pet: Pet, quote: GroomingQuote, date: int, start: int)

  lemma SplitMinute(date: int, time: int)
    requires 0 <= time < MinutesPerDay
    ensures DateOf(date * MinutesPerDay + time) == date
    ensures TimeOfDay(date * MinutesPerDay + time) == time
  {
  }

  /** Required fields, then the customer's one profile, the one store of that
      name and the customer's one pet of that name (none is a 404, several a
      500), the quote, and the date and time. */
  function Prepare(profiles: seq<CustomerProfile>, stores: seq<StoreRow>, pets: seq<Pet>,
                   catalog: seq<GroomingService>, version: Version, f: GroomingForm): (r: Outcome<Plan>)
    ensures r.Fail? ==> r.failure != Conflict
    ensures r.Success? ==> (Complete(f)
      && r.value.profile in profiles && r.value.profile.userId == f.userId
      && r.value.store in stores && r.value.store.storeName == f.storeName
      && r.value.pet in pets && r.value.pet.userId == f.userId && r.value.pet.name == f.petName
      && Quote(version, catalog, f.storeId.value, f.services, r.value.pet) == Success(r.value.quote)
      && f.date == Given(r.value.date) && f.time.Given?
      && DateOf(r.value.start) == r.value.date && TimeOfDay(r.value.start) == f.time.value)
  {
    if !Complete(f) then Fail(BadRequest)
    else
      match Single(ProfilesOfUser(profiles, f.userId))
      case Fail(e) => Fail(e)
      case Success(profile) =>
        match Single(StoresNamed(stores, f.storeName))
        case Fail(e) => Fail(e)
        case Success(store) =>
          match Single(PetsNamed(pets, f.userId, f.petName))
          case Fail(e) => Fail(e)
          case Success(pet) =>
            match Quote(version, catalog, f.storeId.value, f.services, pet)
            case Fail(e) => Fail(e)
            case Success(q) =>
              if f.date.Malformed? || f.time.Malformed? || !(0 <= f.time.value < MinutesPerDay) then Fail(BadRequest)
              else
                SplitMinute(f.date.value, f.time.value);
                Success(Plan(profile, store, pet, q, f.date.value, f.date.value * MinutesPerDay + f.time.value))
  }

  /** `GroomingSchedules.objects.filter(store_name, date, unavailable_time).exists()`. */
  function Occupied(slots: seq<GroomingScheduleRow>, storeName: string, date: int, time: int): (b: bool)
    ensures b <==> exists s :: s in slots && s.storeName == storeName && s.date == date && s.time == time
  {
    if |slots| == 0 then false
    else
      var s := slots[0];
      (s.storeName == storeName && s.date == date && s.time == time) || Occupied(slots[1..], storeName, date, time)
  }

  /** Some marker of the booking is already in the store's schedule for the date. */
  predicate Clash(slots: seq<GroomingScheduleRow>, storeName: string, date: int, markers: seq<int>)
  {
    exists i :: 0 <= i < |markers| && Occupied(slots, storeName, date, markers[i])
  }

  /** The id the view generates: from the service type, or always "GR". */
  function IdFor(version: Version, serviceType: string, now: Clock): (id: Option<string>)
    requires ValidClock(now)
    ensures version == Legacy ==> id == Some(LegacyReservationId(now))
    ensures version == Current ==> id == CreateReservationId(serviceType, now)
  {
    match version
    case Current => CreateReservationId(serviceType, now)
    case Legacy => Some(LegacyReservationId(now))
  }

  /** The first-generation view computes no price; the saved price is 0. */
  function RecordedPrice(version: Version, q: GroomingQuote): int
  {
    if version == Current then q.price else 0
  }

  /** The reservation the view hands to its serializer. */
  function RowOf(id: string, version: Version, f: GroomingForm, p: Plan): Reservation
  {
    Reservation(id, f.storeName, p.profile.fullName, PhoneOf(p.profile), p.pet.name, f.pickUp, f.customerNote, "",
                Pending, RecordedPrice(version, p.quote),
                GroomingDetail(f.services, p.pet.species, p.pet.breed, p.pet.size, p.start, p.quote.duration))
  }

  /** A required character field of at most `max` characters. */
  predicate Fits(s: string, max: nat)
  {
    0 < |s| <= max
  }

  /** The grooming reservation serializer: the model's character fields are
      required, non-blank and bounded, and the id is unique in the table. */
  predicate RowAccepted(rows: seq<Reservation>, x: Reservation)
  {
    Fits(x.reservationId, 20) && Fits(x.storeName, 50) && Fits(x.userName, 20) && Fits(x.userPhone, 15)
    && Fits(x.petName, 10) && x.detail.GroomingDetail? && Fits(x.detail.petBreed, 10)
    && forall y :: y in rows ==> y.reservationId != x.reservationId
  }

  /** After planning: the schedule check, the id and the serializer. */
  function Settle(groomings: seq<Reservation>, slots: seq<GroomingScheduleRow>, version: Version, f: GroomingForm,
                  now: Clock, p: Plan): Outcome<Reservation>
    requires ValidClock(now)
  {
    if Clash(slots, f.storeName, p.date, GroomingMarkers(p.start, p.quote.duration)) then Fail(Conflict)
    else
      match IdFor(version, f.serviceType, now)
      case None => Fail(BadRequest)
      case Some(id) =>
        var x := RowOf(id, version, f, p);
        if RowAccepted(groomings, x) then Success(x) else Fail(BadRequest)
  }

  /** The whole booking request: the reservation saved, or why there is none. */
  function Book(groomings: seq<Reservation>, slots: seq<GroomingScheduleRow>, profiles: seq<CustomerProfile>,
                stores: seq<StoreRow>, pets: seq<Pet>, catalog: seq<GroomingService>,
                version: Version, f: GroomingForm, now: Clock): Outcome<Reservation>
    requires ValidClock(now)
  {
    match Prepare(profiles, stores, pets, catalog, version, f)
    case Fail(e) => Fail(e)
    case Success(p) => Settle(groomings, slots, version, f, now, p)
  }

  /** The lookups, the quote loop and the parsing of the view. */
  method PlanBooking(db: Db, version: Version, f: GroomingForm) returns (r: Outcome<Plan>)
    ensures r == Prepare(db.profiles, db.stores, db.pets, db.groomingServices, version, f)
  {
    if !Complete(f) {
      return Fail(BadRequest);
    }
    var profile := Single(ProfilesOfUser(db.profiles, f.userId));
    if profile.Fail? {
      return Fail(profile.failure);
    }
    var store := Single(StoresNamed(db.stores, f.storeName));
    if store.Fail? {
      return Fail(store.failure);
    }
    var pet := Single(PetsNamed(db.pets, f.userId, f.petName));
    if pet.Fail? {
      return Fail(pet.failure);
    }
    var quote: Outcome<GroomingQuote>;
    if version == Current {
      quote := SumSelectedServices(db.groomingServices, f.storeId.value, f.services, pet.value.size, pet.value.furAmount);
    } else {
      quote := SumLegacyParts(db.groomingServices, f.storeId.value, f.services, pet.value.species, pet.value.size, pet.value.furAmount);
    }
    assert quote == Quote(version, db.groomingServices, f.storeId.value, f.services, pet.value);
    if quote.Fail? {
      return Fail(quote.failure);
    }
    if f.date.Malformed? || f.time.Malformed? || !(0 <= f.time.value < MinutesPerDay) {
      return Fail(BadRequest);
    }
    var date := f.date.value;
    r := Success(Plan(profile.value, store.value, pet.value, quote.value, date, date * MinutesPerDay + f.time.value));
  }

  /** The booking endpoint on the database: the same steps, with the quote and
      marker loops and an early return at the first occupied marker. */
  method CreateReservation(db: Db, version: Version, f: GroomingForm, now: Clock) returns (r: Outcome<Reservation>)
    requires ValidClock(now)
    modifies db`groomings
    ensures r == Book(old(db.groomings), db.groomingSlots, db.profiles, db.stores, db.pets, db.groomingServices, version, f, now)
    ensures db.groomings == if r.Success? then old(db.groomings) + [r.value] else old(db.groomings)
  {
    var planned := PlanBooking(db, version, f);
    if planned.Fail? {
      return Fail(planned.failure);
    }
    r := SettleBooking(db, version, f, now, planned.value);
    if r.Success? {
      db.groomings := db.groomings + [r.value];
    }
  }

  /** The marker loop, the id and the serializer, for a planned booking. */
  method SettleBooking(db: Db, version: Version, f: GroomingForm, now: Clock, p: Plan) returns (r: Outcome<Reservation>)
    requires ValidClock(now)
    ensures r == Settle(db.groomings, db.groomingSlots, version, f, now, p)
  {
    var markers := GroomingUnavailableTimes(p.start, p.quote.duration);
    for k := 0 to |markers|
      invariant forall j :: 0 <= j < k ==> !Occupied(db.groomingSlots, f.storeName, p.date, markers[j])
    {
      if Occupied(db.groomingSlots, f.storeName, p.date, markers[k]) {
        assert Clash(db.groomingSlots, f.storeName, p.date, markers);
        return Fail(Conflict);
      }
    }
    assert !Clash(db.groomingSlots, f.storeName, p.date, markers);
    var id := IdFor(version, f.serviceType, now);
    if id.None? {
      return Fail(BadRequest);
    }
    var x := RowOf(id.value, version, f, p);
    if !RowAccepted(db.groomings, x) {
      return Fail(BadRequest);
    }
    r := Success(x);
  }

  // ---------------------------------------------------------------------------
  // Properties
  // ---------------------------------------------------------------------------

  /** A 409 comes from the schedule and from nothing else: the booking is refused
      with a conflict exactly when the request is otherwise in order up to the
      schedule check and one of its markers is already taken on that date. */
  lemma ConflictIffMarkerTaken(groomings: seq<Reservation>, slots: seq<GroomingScheduleRow>, profiles: seq<CustomerProfile>,
                               stores: seq<StoreRow>, pets: seq<Pet>, catalog: seq<GroomingService>,
                               version: Version, f: GroomingForm, now: Clock)
    requires ValidClock(now)
    ensures Book(groomings, slots, profiles, stores, pets, catalog, version, f, now) == Fail(Conflict) <==>
      (Prepare(profiles, stores, pets, catalog, version, f).Success?
       && var p := Prepare(profiles, stores, pets, catalog, version, f).value;
       exists i :: 0 <= i < GroomingSlotCount(p.quote.duration)
         && Occupied(slots, f.storeName, p.date, GroomingMarkers(p.start, p.quote.duration)[i]))
  {
  }

  /** What a saved booking is: pending with an empty store note, for the
      customer's profile (whose phone is set) and the named store and pet, at
      the requested date and time, lasting the quoted minutes, under a 20
      character id no reservation of the table has, and with none of its
      markers in the schedule. */
  lemma BookedReservationFacts(groomings: seq<Reservation>, slots: seq<GroomingScheduleRow>, profiles: seq<CustomerProfile>,
                               stores: seq<StoreRow>, pets: seq<Pet>, catalog: seq<GroomingService>,
                               version: Version, f: GroomingForm, now: Clock)
    requires ValidClock(now)
    requires Book(groomings, slots, profiles, stores, pets, catalog, version, f, now).Success?
    ensures var x := Book(groomings, slots, profiles, stores, pets, catalog, version, f, now).value;
      var p := Prepare(profiles, stores, pets, catalog, version, f).value;
      && x.status == Pending && x.storeNote == "" && x.storeName == f.storeName
      && p.profile in profiles && p.profile.userId == f.userId
      && x.userName == p.profile.fullName && p.profile.phone == Some(x.userPhone) && x.userPhone != ""
      && p.pet in pets && x.petName == f.petName
      && x.detail.GroomingDetail? && x.detail.period == p.quote.duration
      && DateOf(x.detail.start) == f.date.value && TimeOfDay(x.detail.start) == f.time.value
      && |x.reservationId| == 20
      && (forall y :: y in groomings ==> y.reservationId != x.reservationId)
      && (forall t :: t in GroomingMarkers(x.detail.start, x.detail.period) ==> !Occupied(slots, f.storeName, p.date, t))
  {
    var x := Book(groomings, slots, profiles, stores, pets, catalog, version, f, now).value;
    var p := Prepare(profiles, stores, pets, catalog, version, f).value;
    var id := IdFor(version, f.serviceType, now).value;
    assert x == RowOf(id, version, f, p);
    if version == Legacy {
      LegacyIdIsGroomingId(now);
    }
  }

  /** The id's prefix: always "GR" in the first-generation view; in the current
      one the prefix of the requested service type, so a "boarding" request is
      saved in the grooming table under a "BD" id. */
  lemma BookedIdPrefix(groomings: seq<Reservation>, slots: seq<GroomingScheduleRow>, profiles: seq<CustomerProfile>,
                       stores: seq<StoreRow>, pets: seq<Pet>, catalog: seq<GroomingService>,
                       version: Version, f: GroomingForm, now: Clock)
    requires ValidClock(now)
    requires Book(groomings, slots, profiles, stores, pets, catalog, version, f, now).Success?
    ensures var id := Book(groomings, slots, profiles, stores, pets, catalog, version, f, now).value.reservationId;
      KindOfId(id) == (if version == Legacy then Some(Grooming) else KindNamed(f.serviceType))
  {
    if version == Legacy {
      LegacyIdIsGroomingId(now);
      KindOfCreatedId("grooming", now);
    } else {
      KindOfCreatedId(f.serviceType, now);
    }
  }

  /** A customer whose profile has no phone can never book: the saved phone is
      empty and the serializer refuses it. */
  lemma NoPhoneNoBooking(groomings: seq<Reservation>, slots: seq<GroomingScheduleRow>, profiles: seq<CustomerProfile>,
                         stores: seq<StoreRow>, pets: seq<Pet>, catalog: seq<GroomingService>,
                         version: Version, f: GroomingForm, now: Clock)
    requires ValidClock(now)
    requires forall p :: p in profiles && p.userId == f.userId ==> p.phone.None?
    ensures !Book(groomings, slots, profiles, stores, pets, catalog, version, f, now).Success?
  {
    if Book(groomings, slots, profiles, stores, pets, catalog, version, f, now).Success? {
      BookedReservationFacts(groomings, slots, profiles, stores, pets, catalog, version, f, now);
    }
  }

  /** Where every service of the catalog is for the booked pet's species, the
      first-generation booking of a "grooming" request is the current one, save
      that it records no price. */
  lemma LegacyBookingAgrees(groomings: seq<Reservation>, slots: seq<GroomingScheduleRow>, profiles: seq<CustomerProfile>,
                            stores: seq<StoreRow>, pets: seq<Pet>, catalog: seq<GroomingService>,
                            f: GroomingForm, now: Clock)
    requires ValidClock(now)
    requires f.serviceType == "grooming"
    requires forall s, q :: s in catalog && q in pets && q.userId == f.userId && q.name == f.petName ==> s.species == q.species
    ensures Book(groomings, slots, profiles, stores, pets, catalog, Legacy, f, now) ==
      match Book(groomings, slots, profiles, stores, pets, catalog, Current, f, now)
      case Fail(e) => Fail(e)
      case Success(x) => Success(x.(totalPrice := 0))
  {
    LegacyPlanAgrees(profiles, stores, pets, catalog, f);
    var p := Prepare(profiles, stores, pets, catalog, Current, f);
    if p.Success? {
      LegacySettleAgrees(groomings, slots, f, now, p.value);
    }
  }

  /** Under the same hypothesis both views plan the same booking. */
  lemma LegacyPlanAgrees(profiles: seq<CustomerProfile>, stores: seq<StoreRow>, pets: seq<Pet>,
                         catalog: seq<GroomingService>, f: GroomingForm)
    requires forall s, q :: s in catalog && q in pets && q.userId == f.userId && q.name == f.petName ==> s.species == q.species
    ensures Prepare(profiles, stores, pets, catalog, Legacy, f) == Prepare(profiles, stores, pets, catalog, Current, f)
  {
    if Complete(f) {
      var pick := Single(PetsNamed(pets, f.userId, f.petName));
      if pick.Success? {
        var pet := pick.value;
        assert pet in PetsNamed(pets, f.userId, f.petName);
        LegacyQuoteAgrees(catalog, f.storeId.value, f.services, pet.species, pet.size, pet.furAmount);
        assert Quote(Legacy, catalog, f.storeId.value, f.services, pet) == Quote(Current, catalog, f.storeId.value, f.services, pet);
      }
    }
  }

  /** For a "grooming" request the two views settle a plan alike, up to the price. */
  lemma LegacySettleAgrees(groomings: seq<Reservation>, slots: seq<GroomingScheduleRow>, f: GroomingForm, now: Clock, p: Plan)
    requires ValidClock(now)
    requires f.serviceType == "grooming"
    ensures Settle(groomings, slots, Legacy, f, now, p) ==
      match Settle(groomings, slots, Current, f, now, p)
      case Fail(e) => Fail(e)
      case Success(x) => Success(x.(totalPrice := 0))
  {
    LegacyIdIsGroomingId(now);
    var id := LegacyReservationId(now);
    assert RowOf(id, Legacy, f, p) == RowOf(id, Current, f, p).(totalPrice := 0);
  }

  /** The schedule rows that would record a booking's markers. */
  function MarkerRows(id: string, storeName: string, date: int, markers: seq<int>): (rows: seq<GroomingScheduleRow>)
    ensures |rows| == |markers|
    ensures forall i :: 0 <= i < |markers| ==> rows[i] == GroomingScheduleRow(id, storeName, date, markers[i])
  {
    seq(|markers|, i requires 0 <= i < |markers| => GroomingScheduleRow(id, storeName, date, markers[i]))
  }

  /** What the schedule check guards against: had a saved booking's markers been
      recorded, a later request for the same store and date sharing one of them
      would be refused with a 409. */
  lemma RecordedMarkersBlockOverlap(groomings: seq<Reservation>, slots: seq<GroomingScheduleRow>, profiles: seq<CustomerProfile>,
                                    stores: seq<StoreRow>, pets: seq<Pet>, catalog: seq<GroomingService>,
                                    version: Version, f: GroomingForm, now: Clock,
                                    version2: Version, f2: GroomingForm, now2: Clock)
    requires ValidClock(now) && ValidClock(now2)
    requires Book(groomings, slots, profiles, stores, pets, catalog, version, f, now).Success?
    requires Prepare(profiles, stores, pets, catalog, version2, f2).Success?
    requires f2.storeName == f.storeName && f2.date == f.date
    requires var x := Book(groomings, slots, profiles, stores, pets, catalog, version, f, now).value;
      var p2 := Prepare(profiles, stores, pets, catalog, version2, f2).value;
      exists t :: t in GroomingMarkers(p2.start, p2.quote.duration) && t in GroomingMarkers(x.detail.start, x.detail.period)
    ensures var x := Book(groomings, slots, profiles, stores, pets, catalog, version, f, now).value;
      var recorded := slots + MarkerRows(x.reservationId, f.storeName, f.date.value, GroomingMarkers(x.detail.start, x.detail.period));
      Book(groomings + [x], recorded, profiles, stores, pets, catalog, version2, f2, now2) == Fail(Conflict)
  {
    var x := Book(groomings, slots, profiles, stores, pets, catalog, version, f, now).value;
    var p := Prepare(profiles, stores, pets, catalog, version, f).value;
    var p2 := Prepare(profiles, stores, pets, catalog, version2, f2).value;
    assert x == RowOf(IdFor(version, f.serviceType, now).value, version, f, p);
    var mine := GroomingMarkers(x.detail.start, x.detail.period);
    var theirs := GroomingMarkers(p2.start, p2.quote.duration);
    var recorded := slots + MarkerRows(x.reservationId, f.storeName, f.date.value, mine);
    var t :| t in theirs && t in mine;
    var i :| 0 <= i < |theirs| && theirs[i] == t;
    var j :| 0 <= j < |mine| && mine[j] == t;
    assert recorded[|slots| + j] in recorded;
    assert Occupied(recorded, f.storeName, p2.date, theirs[i]);
  }
}
