/**
 * Today's room availability of a boarding store: per room type of the store,
 * the capacity, how much of it confirmed stays spanning today occupy, and what
 * is left; together with the store's pending and confirmed totals. "Today" is
 * a parameter (a day number).
 */
module Availability {
  import opened Outcomes
  import opened Records
  import opened Directory
  import opened Database

  /** A confirmed stay of the store in the room type whose check-in day is on
      or before today and whose check-out day is on or after it. */
  predicate InUseOn(x: Reservation, storeName: string, roomType: string, today: int)
  {
    x.storeName == storeName && x.status == Confirmed && x.detail.BoardingDetail?
    && x.detail.roomType == roomType && DateOf(x.detail.checkin) <= today <= DateOf(x.detail.checkout)
  }

  /** The per-room-type count the database groups for today. */
  function UsedRooms(rows: seq<Reservation>, storeName: string, roomType: string, today: int): (n: nat)
    ensures n <= |rows|
    ensures n == 0 <==> forall x :: x in rows ==> !InUseOn(x, storeName, roomType, today)
  {
    if |rows| == 0 then 0
    else UsedRooms(rows[1..], storeName, roomType, today) + (if InUseOn(rows[0], storeName, roomType, today) then 1 else 0)
  }

  lemma {:induction false} UsedRoomsSnoc(rows: seq<Reservation>, x: Reservation, storeName: string, roomType: string, today: int)
    ensures UsedRooms(rows + [x], storeName, roomType, today)
      == UsedRooms(rows, storeName, roomType, today) + (if InUseOn(x, storeName, roomType, today) then 1 else 0)
  {
    if |rows| == 0 {
      assert rows + [x] == [x];
      assert [x][1..] == [];
    } else {
      assert (rows + [x])[1..] == rows[1..] + [x];
      UsedRoomsSnoc(rows[1..], x, storeName, roomType, today);
    }
  }

  /** Whether a store id belongs to a store of the given name. */
  predicate StoreIdNamed(stores: seq<StoreRow>, storeId: nat, name: string)
  {
    exists s :: s in stores && s.id == storeId && s.storeName == name
  }

  /** `BoardingService.objects.filter(store_id__store_name=name)`: the room
      types of every store with that name, in table order. */
  function RoomTypesOfStore(stores: seq<StoreRow>, roomTypes: seq<RoomType>, name: string): (r: seq<RoomType>)
    ensures |r| <= |roomTypes|
    ensures forall t :: t in r <==> t in roomTypes && StoreIdNamed(stores, t.storeId, name)
  {
    if |roomTypes| == 0 then []
    else
      var rest := RoomTypesOfStore(stores, roomTypes[1..], name);
      if StoreIdNamed(stores, roomTypes[0].storeId, name) then [roomTypes[0]] + rest else rest
  }

  /** What a room type holds: cat rooms take several pets each, a dog room one. */
  function Capacity(t: RoomType): int
  {
    if t.species == Cat then t.roomCount * t.petAvailableAmount else t.roomCount
  }

  /** Free capacity, never negative. */
  function Remaining(capacity: int, used: nat): (n: int)
    ensures n >= 0
    ensures used <= capacity ==> n + used == capacity
    ensures used >= capacity ==> n == 0
  {
    if capacity - used > 0 then capacity - used else 0
  }

  /** One line of the answer. */
  datatype RoomLine =
    | CatLine(roomType: string, totalCount: int, petAvailableCount: int, totalSlots: int, usedSlots: nat, remainingSlots: int)
    | DogLine(roomType: string, totalCount: int, usedCount: nat, remainingCount: int)

  function LineFor(t: RoomType, used: nat): RoomLine
  {
    if t.species == Cat then CatLine(t.name, t.roomCount, t.petAvailableAmount, Capacity(t), used, Remaining(Capacity(t), used))
    else DogLine(t.name, t.roomCount, used, Remaining(Capacity(t), used))
  }

  /** The lines of one species, in the order of the room types. Room types of
      any other species are not listed. */
  function Lines(types: seq<RoomType>, rows: seq<Reservation>, storeName: string, today: int, species: Species): (r: seq<RoomLine>)
    ensures |r| <= |types|
  {
    if |types| == 0 then []
    else
      var t := types[|types| - 1];
      Lines(types[..|types| - 1], rows, storeName, today, species)
        + (if t.species == species then [LineFor(t, UsedRooms(rows, storeName, t.name, today))] else [])
  }

  /** A listed line reports exactly the capacity of its room type and what the
      stays of today leave of it, and every room type of the species is listed. */
  lemma {:induction false} LinesReportFreeCapacity(types: seq<RoomType>, rows: seq<Reservation>, storeName: string, today: int, species: Species)
    requires species == Cat || species == Dog
    ensures forall l :: l in Lines(types, rows, storeName, today, species) ==> exists t :: (t in types && t.species == species
      && t.name == l.roomType && l == LineFor(t, UsedRooms(rows, storeName, t.name, today))
      && (species == Cat <==> l.CatLine?))
    ensures forall t :: t in types && t.species == species ==>
      LineFor(t, UsedRooms(rows, storeName, t.name, today)) in Lines(types, rows, storeName, today, species)
  {
    if |types| > 0 {
      var front := types[..|types| - 1];
      LinesReportFreeCapacity(front, rows, storeName, today, species);
      forall t | t in types && t.species == species
        ensures LineFor(t, UsedRooms(rows, storeName, t.name, today)) in Lines(types, rows, storeName, today, species)
      {
        if t != types[|types| - 1] {
          var k :| 0 <= k < |types| && types[k] == t;
          assert t == front[k];
        }
      }
      forall l | l in Lines(types, rows, storeName, today, species)
        ensures exists t :: (t in types && t.species == species
          && t.name == l.roomType && l == LineFor(t, UsedRooms(rows, storeName, t.name, today))
          && (species == Cat <==> l.CatLine?))
      {
        if l in Lines(front, rows, storeName, today, species) {
          var t :| t in front && t.species == species && t.name == l.roomType
            && l == LineFor(t, UsedRooms(rows, storeName, t.name, today)) && (species == Cat <==> l.CatLine?);
          assert t in types;
        } else {
          assert types[|types| - 1] in types;
        }
      }
    }
  }

  /** One more confirmed stay of a room type spanning today takes exactly one
      unit of what was free; a stay that does not span today takes nothing. */
  lemma StayTakesOneUnit(t: RoomType, rows: seq<Reservation>, x: Reservation, storeName: string, today: int)
    requires Remaining(Capacity(t), UsedRooms(rows, storeName, t.name, today)) > 0
    ensures var before := Remaining(Capacity(t), UsedRooms(rows, storeName, t.name, today));
      var after := Remaining(Capacity(t), UsedRooms(rows + [x], storeName, t.name, today));
      after == (if InUseOn(x, storeName, t.name, today) then before - 1 else before)
  {
    UsedRoomsSnoc(rows, x, storeName, t.name, today);
  }

  /** The number of reservations of the store with one status. */
  function StatusCount(rows: seq<Reservation>, storeName: string, status: ReservationStatus): (n: nat)
    ensures n <= |rows|
    ensures n == 0 <==> forall x :: x in rows ==> !(x.storeName == storeName && x.status == status)
  {
    if |rows| == 0 then 0
    else StatusCount(rows[1..], storeName, status) + (if rows[0].storeName == storeName && rows[0].status == status then 1 else 0)
  }

  datatype Summary = Summary(storeName: string, today: int, cats: seq<RoomLine>, dogs: seq<RoomLine>,
                             pendingCount: nat, confirmedCount: nat)

  /** The availability request: a missing store id is a 400, an unknown store
      or a store without room types a 404. */
  function AvailabilityRequest(stores: seq<StoreRow>, roomTypes: seq<RoomType>, boardings: seq<Reservation>,
                               storeId: Option<nat>, today: int): (r: Outcome<Summary>)
    ensures storeId.None? <==> r == Fail(BadRequest)
    ensures r == Fail(NotFound) <==> (storeId.Some? && (StoreById(stores, storeId.value).None?
      || forall t :: t in roomTypes ==> !StoreIdNamed(stores, t.storeId, StoreById(stores, storeId.value).value.storeName)))
    ensures storeId.Some? && r != Fail(NotFound) ==> r.Success?
    ensures r.Success? ==> r.value.pendingCount + r.value.confirmedCount <= |boardings|
    ensures r.Success? ==> (storeId.Some? && StoreById(stores, storeId.value).Some?
      && r.value.storeName == StoreById(stores, storeId.value).value.storeName && r.value.today == today)
    ensures r.Success? ==> (r.value.cats == Lines(RoomTypesOfStore(stores, roomTypes, r.value.storeName), boardings, r.value.storeName, today, Cat)
      && r.value.dogs == Lines(RoomTypesOfStore(stores, roomTypes, r.value.storeName), boardings, r.value.storeName, today, Dog))
    ensures r.Success? ==> (r.value.pendingCount == StatusCount(boardings, r.value.storeName, Pending)
      && r.value.confirmedCount == StatusCount(boardings, r.value.storeName, Confirmed))
  {
    if storeId.None? then Fail(BadRequest)
    else
      match StoreById(stores, storeId.value)
      case None => Fail(NotFound)
      case Some(s) =>
        var types := RoomTypesOfStore(stores, roomTypes, s.storeName);
        if |types| == 0 then Fail(NotFound)
        else
          assert types[0] in types;
          PendingAndConfirmedBounded(boardings, s.storeName);
          Success(Summary(s.storeName, today,
                          Lines(types, boardings, s.storeName, today, Cat),
                          Lines(types, boardings, s.storeName, today, Dog),
                          StatusCount(boardings, s.storeName, Pending),
                          StatusCount(boardings, s.storeName, Confirmed)))
  }

  lemma {:induction false} PendingAndConfirmedBounded(rows: seq<Reservation>, storeName: string)
    ensures StatusCount(rows, storeName, Pending) + StatusCount(rows, storeName, Confirmed) <= |rows|
  {
    if |rows| > 0 {
      PendingAndConfirmedBounded(rows[1..], storeName);
    }
  }

  /** The availability endpoint: one pass over the store's room types, sorting
      each into the cat or the dog lines. */
  method RoomAvailability(db: Db, storeId: Option<nat>, today: int) returns (r: Outcome<Summary>)
    ensures r == AvailabilityRequest(db.stores, db.roomTypes, db.boardings, storeId, today)
  {
    if storeId.None? {
      return Fail(BadRequest);
    }
    var store := StoreById(db.stores, storeId.value);
    if store.None? {
      return Fail(NotFound);
    }
    var name := store.value.storeName;
    var types := RoomTypesOfStore(db.stores, db.roomTypes, name);
    if |types| == 0 {
      return Fail(NotFound);
    }
    var cats: seq<RoomLine> := [];
    var dogs: seq<RoomLine> := [];
    for k := 0 to |types|
      invariant cats == Lines(types[..k], db.boardings, name, today, Cat)
      invariant dogs == Lines(types[..k], db.boardings, name, today, Dog)
    {
      assert types[..k + 1][..k] == types[..k];
      var t := types[k];
      var used := UsedRooms(db.boardings, name, t.name, today);
      if t.species == Cat {
        cats := cats + [LineFor(t, used)];
      } else if t.species == Dog {
        dogs := dogs + [LineFor(t, used)];
      }
    }
    assert types[..|types|] == types;
    r := Success(Summary(name, today, cats, dogs,
                         StatusCount(db.boardings, name, Pending), StatusCount(db.boardings, name, Confirmed)));
  }
}
