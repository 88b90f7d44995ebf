/**
 * The customer-side boarding booking: read the customer and the store, parse the
 * stay, find the store's room type, and refuse the stay when, at any half-hour
 * marker of it, the schedule already holds as many rows for that room type as
 * the type has rooms; otherwise save a pending reservation.
 *
 * The reservation is saved with `objects.create`, which runs no serializer: a
 * missing id or an id already in the table fails in the database, a 500.
 */
module BoardingBooking {
  import opened Outcomes
  import opened Records
  import opened Directory
  import opened Slots
  import opened Pricing
  import opened ReservationIds
  import opened Database

  /** The request as the view reads it; dates are day numbers and times minutes
      after midnight, once parsed. */
  datatype BoardingForm = BoardingForm(
    storeName: string,
    storeId: Option<nat>,
    userId: string,
    serviceType: string,
    petName: string,
    roomType: string,
    pickUp: bool,
    checkinDate: Field<int>,
    checkinTime: Field<int>,
    checkoutDate: Field<int>,
    checkoutTime: Field<int>,
    customerNote: string)

  /** The view's `all([...])` test. It includes the pick-up flag, so a request
      without pick-up is refused as incomplete. */
  predicate Complete(f: BoardingForm)
  {
    f.storeName != "" && f.storeId.Some? && f.userId != "" && f.petName != "" && f.pickUp && f.roomType != ""
    && !f.checkinDate.Absent? && !f.checkinTime.Absent? && !f.checkoutDate.Absent? && !f.checkoutTime.Absent?
  }

  /** `datetime.combine` of a parsed date and time, or None when either does not
      parse. */
  function Instant(date: Field<int>, time: Field<int>): (m: Option<int>)
    ensures m.Some? ==> date.Given? && time.Given? && DateOf(m.value) == date.value && TimeOfDay(m.value) == time.value
  {
    if date.Given? && time.Given? && 0 <= time.value < MinutesPerDay then
      Some(date.value * MinutesPerDay + time.value)
    else None
  }

  /** `BoardingService.objects.filter(store_id=...).exists()`. */
  predicate OffersBoarding(roomTypes: seq<RoomType>, storeId: nat)
  {
    exists rt :: rt in roomTypes && rt.storeId == storeId
  }

  /** What the view settles before it counts occupancy. */
  datatype Plan = Plan(profile: CustomerProfile, store: StoreRow, checkin: int, checkout: int, room: RoomType)

  /** Required fields, the customer's one profile and the one store of that name
      (none is a 404, several a 500), the stay (unparseable, or not ending after
      it starts, is a 400), and the store's room type of the requested name
      (none, or no boarding at all, is a 404; several a 500). */
  function Prepare(profiles: seq<CustomerProfile>, stores: seq<StoreRow>, roomTypes: seq<RoomType>, f: BoardingForm): (r: Outcome<Plan>)
    ensures r.Success? ==> (Complete(f)
      && r.value.profile in profiles && r.value.profile.userId == f.userId
      && r.value.store in stores && r.value.store.storeName == f.storeName
      && r.value.checkin < r.value.checkout
      && Instant(f.checkinDate, f.checkinTime) == Some(r.value.checkin)
      && Instant(f.checkoutDate, f.checkoutTime) == Some(r.value.checkout)
      && r.value.room in roomTypes && r.value.room.storeId == f.storeId.value && r.value.room.name == f.roomType)
  {
    if !Complete(f) then Fail(BadRequest)
    else
      match Single(ProfilesOfUser(profiles, f.userId))
      case Fail(e) => Fail(e)
      case Success(profile) =>
        match Single(StoresNamed(stores, f.storeName))
        case Fail(e) => Fail(e)
        case Success(store) =>
          var checkin := Instant(f.checkinDate, f.checkinTime);
          var checkout := Instant(f.checkoutDate, f.checkoutTime);
          if checkin.None? || checkout.None? || checkout.value <= checkin.value then Fail(BadRequest)
          else if !OffersBoarding(roomTypes, f.storeId.value) then Fail(NotFound)
          else
            var rooms := RoomTypesNamed(roomTypes, f.storeId.value, f.roomType, None);
            match Single(rooms)
            case Fail(e) => Fail(e)
            case Success(room) =>
              assert room in rooms;
              Success(Plan(profile, store, checkin.value, checkout.value, room))
  }

  /** `BoardingSchedules.objects.filter(store_name, room_type, unavailable_time).count()`. */
  function Occupancy(slots: seq<BoardingScheduleRow>, storeName: string, roomType: string, at: int): (n: nat)
    ensures n <= |slots|
    ensures n == 0 <==> forall s :: s in slots ==> !(s.storeName == storeName && s.roomType == roomType && s.at == at)
  {
    if |slots| == 0 then 0
    else
      var s := slots[0];
      Occupancy(slots[1..], storeName, roomType, at) + (if s.storeName == storeName && s.roomType == roomType && s.at == at then 1 else 0)
  }

  /** Some marker of the stay already holds as many rows as the room type has rooms. */
  predicate Full(slots: seq<BoardingScheduleRow>, storeName: string, roomType: string, markers: seq<int>, roomCount: int)
  {
    exists i :: 0 <= i < |markers| && Occupancy(slots, storeName, roomType, markers[i]) >= roomCount
  }

  /** The reservation the view creates. The model has no price or pick-up
      column, so the recorded price is 0 and the pick-up flag the request's. */
  function RowOf(id: string, f: BoardingForm, p: Plan): Reservation
  {
    Reservation(id, f.storeName, p.profile.fullName, PhoneOf(p.profile), f.petName, f.pickUp, f.customerNote, "",
                Pending, 0, BoardingDetail(f.roomType, p.checkin, p.checkout))
  }

  /** Whether a reservation id is already taken in the table. */
  predicate IdTaken(rows: seq<Reservation>, id: string)
  {
    exists y :: y in rows && y.reservationId == id
  }

  /** After planning: the occupancy check and the insert. */
  function Settle(boardings: seq<Reservation>, slots: seq<BoardingScheduleRow>, f: BoardingForm, now: Clock, p: Plan): Outcome<Reservation>
    requires ValidClock(now)
  {
    if Full(slots, f.storeName, f.roomType, BoardingMarkers(p.checkin, p.checkout), p.room.roomCount) then Fail(BadRequest)
    else
      match CreateReservationId(f.serviceType, now)
      case None => Fail(InternalError)
      case Some(id) => if IdTaken(boardings, id) then Fail(InternalError) else Success(RowOf(id, f, p))
  }

  /** The whole booking request. */
  function Book(boardings: seq<Reservation>, slots: seq<BoardingScheduleRow>, profiles: seq<CustomerProfile>,
                stores: seq<StoreRow>, roomTypes: seq<RoomType>, f: BoardingForm, now: Clock): Outcome<Reservation>
    requires ValidClock(now)
  {
    match Prepare(profiles, stores, roomTypes, f)
    case Fail(e) => Fail(e)
    case Success(p) => Settle(boardings, slots, f, now, p)
  }

  /** The lookups and the parsing of the view. */
  method PlanStay(db: Db, f: BoardingForm) returns (r: Outcome<Plan>)
    ensures r == Prepare(db.profiles, db.stores, db.roomTypes, f)
  {
    if !Complete(f) {
      return Fail(BadRequest);
    }
    var profile := Single(ProfilesOfUser(db.profiles, f.userId));
    if profile.Fail? {
      return Fail(profile.failure);
    }
    var store := Single(StoresNamed(db.stores, f.storeName));
    if store.Fail? {
      return Fail(store.failure);
    }
    var checkin := Instant(f.checkinDate, f.checkinTime);
    var checkout := Instant(f.checkoutDate, f.checkoutTime);
    if checkin.None? || checkout.None? || checkout.value <= checkin.value {
      return Fail(BadRequest);
    }
    if !OffersBoarding(db.roomTypes, f.storeId.value) {
      return Fail(NotFound);
    }
    var room := Single(RoomTypesNamed(db.roomTypes, f.storeId.value, f.roomType, None));
    if room.Fail? {
      return Fail(room.failure);
    }
    r := Success(Plan(profile.value, store.value, checkin.value, checkout.value, room.value));
  }

  /** The marker loop, the occupancy loop and the insert, for a planned stay. */
  method SettleStay(db: Db, f: BoardingForm, now: Clock, p: Plan) returns (r: Outcome<Reservation>)
    requires ValidClock(now)
    ensures r == Settle(db.boardings, db.boardingSlots, f, now, p)
  {
    var slots := BoardingTimeSlots(p.checkin, p.checkout);
    for k := 0 to |slots|
      invariant forall j :: 0 <= j < k ==> Occupancy(db.boardingSlots, f.storeName, f.roomType, slots[j]) < p.room.roomCount
    {
      var occupied := Occupancy(db.boardingSlots, f.storeName, f.roomType, slots[k]);
      if occupied >= p.room.roomCount {
        assert Full(db.boardingSlots, f.storeName, f.roomType, slots, p.room.roomCount);
        return Fail(BadRequest);
      }
    }
    assert !Full(db.boardingSlots, f.storeName, f.roomType, slots, p.room.roomCount);
    var id := CreateReservationId(f.serviceType, now);
    if id.None? || IdTaken(db.boardings, id.value) {
      return Fail(InternalError);
    }
    r := Success(RowOf(id.value, f, p));
  }

  /** The booking endpoint on the database. */
  method CreateBoardingReservation(db: Db, f: BoardingForm, now: Clock) returns (r: Outcome<Reservation>)
    requires ValidClock(now)
    modifies db`boardings
    ensures r == Book(old(db.boardings), db.boardingSlots, db.profiles, db.stores, db.roomTypes, f, now)
    ensures db.boardings == if r.Success? then old(db.boardings) + [r.value] else old(db.boardings)
  {
    var planned := PlanStay(db, f);
    if planned.Fail? {
      return Fail(planned.failure);
    }
    r := SettleStay(db, f, now, planned.value);
    if r.Success? {
      db.boardings := db.boardings + [r.value];
    }
  }

  // ---------------------------------------------------------------------------
  // Properties
  // ---------------------------------------------------------------------------

  /** Declining pick-up counts as a missing field: such a request is always a 400. */
  lemma NoPickUpIsIncomplete(boardings: seq<Reservation>, slots: seq<BoardingScheduleRow>, profiles: seq<CustomerProfile>,
                             stores: seq<StoreRow>, roomTypes: seq<RoomType>, f: BoardingForm, now: Clock)
    requires ValidClock(now)
    requires !f.pickUp
    ensures Book(boardings, slots, profiles, stores, roomTypes, f, now) == Fail(BadRequest)
  {
  }

  /** Once the stay is planned, a 400 means a full room type and nothing else. */
  lemma RefusedIffFull(boardings: seq<Reservation>, slots: seq<BoardingScheduleRow>, profiles: seq<CustomerProfile>,
                       stores: seq<StoreRow>, roomTypes: seq<RoomType>, f: BoardingForm, now: Clock)
    requires ValidClock(now)
    requires Prepare(profiles, stores, roomTypes, f).Success?
    ensures var p := Prepare(profiles, stores, roomTypes, f).value;
      Book(boardings, slots, profiles, stores, roomTypes, f, now) == Fail(BadRequest) <==>
        exists i :: 0 <= i < |BoardingMarkers(p.checkin, p.checkout)|
          && Occupancy(slots, f.storeName, f.roomType, BoardingMarkers(p.checkin, p.checkout)[i]) >= p.room.roomCount
  {
    var p := Prepare(profiles, stores, roomTypes, f).value;
    var markers := BoardingMarkers(p.checkin, p.checkout);
    assert Book(boardings, slots, profiles, stores, roomTypes, f, now) == Settle(boardings, slots, f, now, p);
    if Full(slots, f.storeName, f.roomType, markers, p.room.roomCount) {
      assert Settle(boardings, slots, f, now, p) == Fail(BadRequest);
    } else {
      var id := CreateReservationId(f.serviceType, now);
      assert Settle(boardings, slots, f, now, p) ==
        if id.None? || IdTaken(boardings, id.value) then Fail(InternalError) else Success(RowOf(id.value, f, p));
    }
  }

  /** What a saved stay is: pending with an empty store note, for the customer's
      profile, in the store's room type of that name, ending after it starts,
      and under an id of the requested kind new to the table. */
  lemma BookedStayFacts(boardings: seq<Reservation>, slots: seq<BoardingScheduleRow>, profiles: seq<CustomerProfile>,
                        stores: seq<StoreRow>, roomTypes: seq<RoomType>, f: BoardingForm, now: Clock)
    requires ValidClock(now)
    requires Book(boardings, slots, profiles, stores, roomTypes, f, now).Success?
    ensures var x := Book(boardings, slots, profiles, stores, roomTypes, f, now).value;
      var p := Prepare(profiles, stores, roomTypes, f).value;
      && x.status == Pending && x.storeNote == "" && x.pickUp
      && x.storeName == f.storeName && x.userName == p.profile.fullName && p.profile.userId == f.userId
      && x.detail == BoardingDetail(f.roomType, p.checkin, p.checkout) && p.checkin < p.checkout
      && p.room in roomTypes && p.room.storeId == f.storeId.value && p.room.name == f.roomType
      && !IdTaken(boardings, x.reservationId)
      && KindOfId(x.reservationId) == KindNamed(f.serviceType)
  {
    KindOfCreatedId(f.serviceType, now);
  }

  /** The half hour of the stay holding instant `t` had a room unit free. */
  predicate FreeAt(slots: seq<BoardingScheduleRow>, storeName: string, roomType: string, markers: seq<int>, roomCount: int, t: int)
  {
    exists m :: m in markers && m <= t < m + BoardingStep && Occupancy(slots, storeName, roomType, m) < roomCount
  }

  /** A saved stay found a free room unit in every half hour from check-in to
      check-out. */
  lemma BookedStayHasRoom(boardings: seq<Reservation>, slots: seq<BoardingScheduleRow>, profiles: seq<CustomerProfile>,
                          stores: seq<StoreRow>, roomTypes: seq<RoomType>, f: BoardingForm, now: Clock)
    requires ValidClock(now)
    requires Book(boardings, slots, profiles, stores, roomTypes, f, now).Success?
    ensures var p := Prepare(profiles, stores, roomTypes, f).value;
      forall t :: p.checkin <= t < p.checkout ==>
        FreeAt(slots, f.storeName, f.roomType, BoardingMarkers(p.checkin, p.checkout), p.room.roomCount, t)
  {
    var p := Prepare(profiles, stores, roomTypes, f).value;
    var ms := BoardingMarkers(p.checkin, p.checkout);
    assert !Full(slots, f.storeName, f.roomType, ms, p.room.roomCount);
    forall t | p.checkin <= t < p.checkout
      ensures FreeAt(slots, f.storeName, f.roomType, ms, p.room.roomCount, t)
    {
      BoardingMarkersCover(p.checkin, p.checkout, t);
      var i :| 0 <= i < |ms| && ms[i] <= t < ms[i] + BoardingStep;
      assert ms[i] in ms;
    }
  }

  /** The schedule rows that would record a stay's markers. */
  function MarkerRows(id: string, storeName: string, roomType: string, markers: seq<int>): (rows: seq<BoardingScheduleRow>)
    ensures |rows| == |markers|
    ensures forall i :: 0 <= i < |markers| ==> rows[i] == BoardingScheduleRow(id, storeName, roomType, markers[i])
  {
    seq(|markers|, i requires 0 <= i < |markers| => BoardingScheduleRow(id, storeName, roomType, markers[i]))
  }

  lemma {:induction false} OccupancyAppend(a: seq<BoardingScheduleRow>, b: seq<BoardingScheduleRow>, storeName: string, roomType: string, at: int)
    ensures Occupancy(a + b, storeName, roomType, at) == Occupancy(a, storeName, roomType, at) + Occupancy(b, storeName, roomType, at)
  {
    if |a| > 0 {
      assert (a + b)[1..] == a[1..] + b;
      OccupancyAppend(a[1..], b, storeName, roomType, at);
    } else {
      assert a + b == b;
    }
  }

  /** A stay's own rows hold one row at each of its markers and none elsewhere:
      the markers are 30 minutes apart, so none repeats. */
  lemma {:induction false} OwnRowsOccupyOnce(id: string, storeName: string, roomType: string, checkin: int, checkout: int, at: int)
    ensures Occupancy(MarkerRows(id, storeName, roomType, BoardingMarkers(checkin, checkout)), storeName, roomType, at)
      == if at in BoardingMarkers(checkin, checkout) then 1 else 0
    decreases checkout - checkin
  {
    var ms := BoardingMarkers(checkin, checkout);
    var rows := MarkerRows(id, storeName, roomType, ms);
    if checkin < checkout {
      var rest := BoardingMarkers(checkin + BoardingStep, checkout);
      assert ms == [checkin] + rest;
      OwnRowsOccupyOnce(id, storeName, roomType, checkin + BoardingStep, checkout, at);
      assert rows[1..] == MarkerRows(id, storeName, roomType, rest);
      BoardingMarkersShape(checkin + BoardingStep, checkout);
      assert checkin !in rest;
    } else {
      assert rows == [];
    }
  }

  /** What the occupancy check guards against: had a saved stay's markers been
      recorded, a schedule within the room type's capacity at every instant
      would still be within it. */
  lemma RecordedStayKeepsCapacity(boardings: seq<Reservation>, slots: seq<BoardingScheduleRow>, profiles: seq<CustomerProfile>,
                                  stores: seq<StoreRow>, roomTypes: seq<RoomType>, f: BoardingForm, now: Clock, at: int)
    requires ValidClock(now)
    requires Book(boardings, slots, profiles, stores, roomTypes, f, now).Success?
    requires Occupancy(slots, f.storeName, f.roomType, at) <= Prepare(profiles, stores, roomTypes, f).value.room.roomCount
    ensures var x := Book(boardings, slots, profiles, stores, roomTypes, f, now).value;
      var p := Prepare(profiles, stores, roomTypes, f).value;
      var recorded := slots + MarkerRows(x.reservationId, f.storeName, f.roomType, BoardingMarkers(p.checkin, p.checkout));
      Occupancy(recorded, f.storeName, f.roomType, at) <= p.room.roomCount
  {
    var x := Book(boardings, slots, profiles, stores, roomTypes, f, now).value;
    var p := Prepare(profiles, stores, roomTypes, f).value;
    var ms := BoardingMarkers(p.checkin, p.checkout);
    OccupancyAppend(slots, MarkerRows(x.reservationId, f.storeName, f.roomType, ms), f.storeName, f.roomType, at);
    OwnRowsOccupyOnce(x.reservationId, f.storeName, f.roomType, p.checkin, p.checkout, at);
    if at in ms {
      var i :| 0 <= i < |ms| && ms[i] == at;
      assert !Full(slots, f.storeName, f.roomType, ms, p.room.roomCount);
    }
  }
}
