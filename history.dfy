/**
 * The store's history views: the lists of finished reservations, the details of
 * one finished reservation, and putting the customer of a reservation on the
 * blacklist through its order.
 */
module History {
  import opened Outcomes
  import opened Records
  import opened Lifecycle
  import opened ReservationIds
  import opened Directory
  import opened Database

  // ---------------------------------------------------------------------------
  // Lists
  // ---------------------------------------------------------------------------

  /** `filter(status='finished', store_name=name)`, in table (creation) order. */
  function FinishedOfStore(rows: seq<Reservation>, storeName: string): (r: seq<Reservation>)
    ensures |r| <= |rows|
    ensures forall x :: x in r <==> x in rows && x.status == Finished && x.storeName == storeName
  {
    if |rows| == 0 then []
    else
      var rest := FinishedOfStore(rows[1..], storeName);
      if rows[0].status == Finished && rows[0].storeName == storeName then [rows[0]] + rest else rest
  }

  lemma {:induction false} FinishedOfStoreSnoc(rows: seq<Reservation>, x: Reservation, storeName: string)
    ensures FinishedOfStore(rows + [x], storeName) ==
      FinishedOfStore(rows, storeName) + (if x.status == Finished && x.storeName == storeName then [x] else [])
  {
    if |rows| == 0 {
      assert rows + [x] == [x];
      assert [x][1..] == [];
    } else {
      assert (rows + [x])[1..] == rows[1..] + [x];
      FinishedOfStoreSnoc(rows[1..], x, storeName);
    }
  }

  /** `order_by('-created_at')`: later rows first. */
  function NewestFirst(rows: seq<Reservation>): (r: seq<Reservation>)
    ensures |r| == |rows|
    ensures forall i :: 0 <= i < |rows| ==> r[i] == rows[|rows| - 1 - i]
  {
    if |rows| == 0 then []
    else [rows[|rows| - 1]] + NewestFirst(rows[..|rows| - 1])
  }

  /** The query behind both list endpoints. A `service_type` naming the other kind
      and a missing `store_id` are 400s, an unknown store a 404. An empty
      `serviceType` stands for an absent parameter. */
  function ListQuery(kind: ServiceKind, stores: seq<StoreRow>, rows: seq<Reservation>, serviceType: string, storeId: Option<nat>): (r: Outcome<seq<Reservation>>)
    ensures serviceType != "" && KindNamed(serviceType) != Some(kind) ==> r == Fail(BadRequest)
    ensures r.Fail? && r.failure != BadRequest ==> r.failure == NotFound && storeId.Some? && StoreById(stores, storeId.value).None?
    ensures r.Success? ==> (storeId.Some? && StoreById(stores, storeId.value).Some?
      && r.value == NewestFirst(FinishedOfStore(rows, StoreById(stores, storeId.value).value.storeName)))
    ensures (serviceType == "" || KindNamed(serviceType) == Some(kind)) && storeId.None? ==> r == Fail(BadRequest)
    ensures (serviceType == "" || KindNamed(serviceType) == Some(kind)) && storeId.Some? ==>
      (StoreById(stores, storeId.value).None? <==> r == Fail(NotFound)) && (StoreById(stores, storeId.value).Some? ==> r.Success?)
  {
    if serviceType != "" && KindNamed(serviceType) != Some(kind) then Fail(BadRequest)
    else if storeId.None? then Fail(BadRequest)
    else
      match StoreById(stores, storeId.value)
      case None => Fail(NotFound)
      case Some(s) => Success(NewestFirst(FinishedOfStore(rows, s.storeName)))
  }

  /** A reservation finished last heads its store's list, ahead of every earlier
      one in their own newest-first order. */
  lemma LatestFinishedComesFirst(rows: seq<Reservation>, x: Reservation, storeName: string)
    requires x.status == Finished && x.storeName == storeName
    ensures NewestFirst(FinishedOfStore(rows + [x], storeName)) == [x] + NewestFirst(FinishedOfStore(rows, storeName))
  {
    FinishedOfStoreSnoc(rows, x, storeName);
    var f := FinishedOfStore(rows, storeName);
    assert (f + [x])[..|f|] == f;
  }

  /** A reservation that is not a finished one of the store leaves the list as
      it was. */
  lemma OthersDoNotShow(rows: seq<Reservation>, x: Reservation, storeName: string)
    requires !(x.status == Finished && x.storeName == storeName)
    ensures NewestFirst(FinishedOfStore(rows + [x], storeName)) == NewestFirst(FinishedOfStore(rows, storeName))
  {
    FinishedOfStoreSnoc(rows, x, storeName);
    assert FinishedOfStore(rows, storeName) + [] == FinishedOfStore(rows, storeName);
  }

  /** The day a reservation is listed under: the grooming appointment or the
      boarding check-in. */
  function ListedDate(d: Detail): int
  {
    match d
    case GroomingDetail(_, _, _, _, start, _) => DateOf(start)
    case BoardingDetail(_, checkin, _) => DateOf(checkin)
  }

  /** One row of a history list. Boarding rows have no breed. */
  datatype HistoryRow = HistoryRow(reservationId: string, userName: string, userPhone: string, petName: string,
                                   petBreed: Option<string>, date: int, kind: ServiceKind, status: ReservationStatus)

  function HistoryRowOf(kind: ServiceKind, r: Reservation): HistoryRow
  {
    var breed := if kind == Grooming && r.detail.GroomingDetail? then Some(r.detail.petBreed) else None;
    HistoryRow(r.reservationId, r.userName, r.userPhone, r.petName, breed, ListedDate(r.detail), kind, r.status)
  }

  function HistoryRows(kind: ServiceKind, page: seq<Reservation>): (r: seq<HistoryRow>)
    ensures |r| == |page| && forall j :: 0 <= j < |page| ==> r[j] == HistoryRowOf(kind, page[j])
  {
    seq(|page|, j requires 0 <= j < |page| => HistoryRowOf(kind, page[j]))
  }

  /** The history list of one kind. */
  function HistoryList(kind: ServiceKind, stores: seq<StoreRow>, rows: seq<Reservation>, serviceType: string, storeId: Option<nat>): Outcome<seq<HistoryRow>>
  {
    match ListQuery(kind, stores, rows, serviceType, storeId)
    case Fail(f) => Fail(f)
    case Success(page) => Success(HistoryRows(kind, page))
  }

  /** The history list shows exactly the store's finished reservations of its
      kind: every listed row is a finished reservation of the store, and every
      finished reservation of the store is listed. */
  lemma HistoryListIsFinishedOfStore(kind: ServiceKind, stores: seq<StoreRow>, rows: seq<Reservation>, serviceType: string, storeId: Option<nat>)
    requires HistoryList(kind, stores, rows, serviceType, storeId).Success?
    ensures var listed := HistoryList(kind, stores, rows, serviceType, storeId).value;
      var name := StoreById(stores, storeId.value).value.storeName;
      (forall h :: h in listed ==> (h.status == Finished && h.kind == kind
        && exists x :: x in rows && x.status == Finished && x.storeName == name && h == HistoryRowOf(kind, x)))
      && (forall x :: x in rows && x.status == Finished && x.storeName == name ==> HistoryRowOf(kind, x) in listed)
  {
    var name := StoreById(stores, storeId.value).value.storeName;
    assert HistoryList(kind, stores, rows, serviceType, storeId).value == HistoryRows(kind, NewestFirst(FinishedOfStore(rows, name)));
    FinishedRowsListed(kind, rows, name);
  }

  /** The rows built from the newest-first page of a store's finished
      reservations are exactly the rows of those reservations. */
  lemma FinishedRowsListed(kind: ServiceKind, rows: seq<Reservation>, name: string)
    ensures var listed := HistoryRows(kind, NewestFirst(FinishedOfStore(rows, name)));
      (forall h :: h in listed ==> (h.status == Finished && h.kind == kind
        && exists x :: x in rows && x.status == Finished && x.storeName == name && h == HistoryRowOf(kind, x)))
      && (forall x :: x in rows && x.status == Finished && x.storeName == name ==> HistoryRowOf(kind, x) in listed)
  {
    var page := NewestFirst(FinishedOfStore(rows, name));
    NewestFirstSameElements(FinishedOfStore(rows, name));
    RowsOfPage(kind, page);
  }

  /** Reordering newest first keeps the same reservations. */
  lemma NewestFirstSameElements(rows: seq<Reservation>)
    ensures forall x :: x in NewestFirst(rows) <==> x in rows
  {
    var r := NewestFirst(rows);
    forall x | x in rows
      ensures x in r
    {
      var k :| 0 <= k < |rows| && rows[k] == x;
      assert r[|rows| - 1 - k] == x;
    }
  }

  /** The rows built from a page are exactly the rows of its reservations. */
  lemma RowsOfPage(kind: ServiceKind, page: seq<Reservation>)
    ensures forall h :: h in HistoryRows(kind, page) ==> exists x :: x in page && h == HistoryRowOf(kind, x)
    ensures forall x :: x in page ==> HistoryRowOf(kind, x) in HistoryRows(kind, page)
  {
    var listed := HistoryRows(kind, page);
    forall h | h in listed
      ensures exists x :: x in page && h == HistoryRowOf(kind, x)
    {
      var j :| 0 <= j < |listed| && listed[j] == h;
      assert page[j] in page;
    }
    forall x | x in page
      ensures HistoryRowOf(kind, x) in listed
    {
      var k :| 0 <= k < |page| && page[k] == x;
      assert listed[k] == HistoryRowOf(kind, x);
    }
  }

  /** The rows of the kind's own table. */
  function TableOf(kind: ServiceKind, groomings: seq<Reservation>, boardings: seq<Reservation>): seq<Reservation>
  {
    if kind == Grooming then groomings else boardings
  }

  /** The history list endpoint: run the query, then build one row per
      reservation of the page. */
  method ListHistory(db: Db, kind: ServiceKind, serviceType: string, storeId: Option<nat>) returns (r: Outcome<seq<HistoryRow>>)
    ensures r == HistoryList(kind, db.stores, TableOf(kind, db.groomings, db.boardings), serviceType, storeId)
  {
    var query := ListQuery(kind, db.stores, TableOf(kind, db.groomings, db.boardings), serviceType, storeId);
    if query.Fail? {
      return Fail(query.failure);
    }
    var page := query.value;
    var data: seq<HistoryRow> := [];
    for k := 0 to |page|
      invariant |data| == k
      invariant forall j :: 0 <= j < k ==> data[j] == HistoryRowOf(kind, page[j])
    {
      data := data + [HistoryRowOf(kind, page[k])];
    }
    assert data == HistoryRows(kind, page);
    r := Success(data);
  }

  // ---------------------------------------------------------------------------
  // Details
  // ---------------------------------------------------------------------------

  /** Whether an order refers to a reservation of the given kind. */
  predicate RefersTo(o: Order, kind: ServiceKind, id: string)
  {
    if kind == Grooming then o.groomingRef == Some(id) else o.boardingRef == Some(id)
  }

  /** `Orders.objects.filter(reservation_...=reservation).first()`, as a position. */
  function FirstOrderFor(orders: seq<Order>, kind: ServiceKind, id: string, from: nat): (r: Option<nat>)
    requires from <= |orders|
    ensures r.Some? ==> (from <= r.value < |orders| && RefersTo(orders[r.value], kind, id)
      && forall j :: from <= j < r.value ==> !RefersTo(orders[j], kind, id))
    ensures r.None? ==> forall j :: from <= j < |orders| ==> !RefersTo(orders[j], kind, id)
    decreases |orders| - from
  {
    if from == |orders| then None
    else if RefersTo(orders[from], kind, id) then Some(from)
    else FirstOrderFor(orders, kind, id, from + 1)
  }

  /** Details of one finished reservation. A boarding reservation also reports
      the breed and size of the customer's pet of that name, found through the
      user of its first order. */
  datatype Details =
    | GroomingDetails(reservation: Reservation)
    | BoardingDetails(reservation: Reservation, petBreed: Option<string>, petSize: Option<PetSize>)

  /** The details endpoint. A finished boarding reservation without an order
      makes the view read a field of nothing, which is a 500. */
  function ReservationDetails(groomings: seq<Reservation>, boardings: seq<Reservation>, orders: seq<Order>, pets: seq<Pet>, id: string): (r: Outcome<Details>)
    ensures r.Success? ==> r.value.reservation.reservationId == id && r.value.reservation.status == Finished
    ensures r.Success? ==> (r.value.GroomingDetails? <==> KindOfId(id) == Some(Grooming))
    ensures r.Success? ==> KindOfId(id).Some? && r.value.reservation in TableOf(KindOfId(id).value, groomings, boardings)
    ensures id == "" || KindOfId(id).None? ==> r == Fail(BadRequest)
    ensures KindOfId(id).Some? && (forall x :: x in TableOf(KindOfId(id).value, groomings, boardings) ==> !(x.reservationId == id && x.status == Finished))
      ==> r == Fail(NotFound)
    ensures r.Success? <==> (id != "" && KindOfId(id).Some? && Locate(TableOf(KindOfId(id).value, groomings, boardings), id, Finished).One?
      && (KindOfId(id) == Some(Boarding) ==> FirstOrderFor(orders, Boarding, id, 0).Some?))
    ensures (id != "" && KindOfId(id) == Some(Boarding) && Locate(boardings, id, Finished).One?
             && FirstOrderFor(orders, Boarding, id, 0).None?) ==> r == Fail(InternalError)
    ensures id != "" && KindOfId(id).Some? && Locate(TableOf(KindOfId(id).value, groomings, boardings), id, Finished).Many? ==>
      r == Fail(InternalError)
  {
    if id == "" then Fail(BadRequest)
    else
      match KindOfId(id)
      case None => Fail(BadRequest)
      case Some(Grooming) =>
        (match Locate(groomings, id, Finished)
         case Missing => Fail(NotFound)
         case Many => Fail(InternalError)
         case One(i) => Success(GroomingDetails(groomings[i])))
      case Some(Boarding) =>
        match Locate(boardings, id, Finished)
        case Missing => Fail(NotFound)
        case Many => Fail(InternalError)
        case One(i) =>
          match FirstOrderFor(orders, Boarding, id, 0)
          case None => Fail(InternalError)
          case Some(k) =>
            var named := PetsNamed(pets, orders[k].userId, boardings[i].petName);
            if |named| == 0 then Success(BoardingDetails(boardings[i], None, None))
            else Success(BoardingDetails(boardings[i], Some(named[0].breed), Some(named[0].size)))
  }

  /** The pet facts shown for a boarding reservation belong to a pet of the
      ordering user with the reservation's pet name. */
  lemma BoardingDetailsPetOfCustomer(groomings: seq<Reservation>, boardings: seq<Reservation>, orders: seq<Order>, pets: seq<Pet>, id: string)
    requires ReservationDetails(groomings, boardings, orders, pets, id).Success?
    requires ReservationDetails(groomings, boardings, orders, pets, id).value.BoardingDetails?
    ensures var d := ReservationDetails(groomings, boardings, orders, pets, id).value;
      d.petBreed.Some? ==> exists p, o :: (p in pets && o in orders && RefersTo(o, Boarding, id) && p.userId == o.userId
        && p.name == d.reservation.petName && p.breed == d.petBreed.value)
  {
    var d := ReservationDetails(groomings, boardings, orders, pets, id).value;
    var i := Locate(boardings, id, Finished).row;
    var k := FirstOrderFor(orders, Boarding, id, 0).value;
    var named := PetsNamed(pets, orders[k].userId, boardings[i].petName);
    if |named| > 0 {
      assert named[0] in named;
      assert orders[k] in orders;
    }
  }

  // ---------------------------------------------------------------------------
  // Blacklist
  // ---------------------------------------------------------------------------

  datatype BlacklistReply = BlacklistReply(outcome: Outcome<Order>, orders: seq<Order>)

  /** Blacklisting a reservation's customer: route by prefix, require the
      reservation (none is a 404), then flag its first order (none is a 404). */
  function BlacklistRequest(groomings: seq<Reservation>, boardings: seq<Reservation>, orders: seq<Order>, id: string): (r: BlacklistReply)
    ensures r.outcome.Fail? ==> r.orders == orders
    ensures id == "" || KindOfId(id).None? ==> r.outcome == Fail(BadRequest)
    ensures r.outcome.Success? <==>
      (id != "" && KindOfId(id).Some?
       && LocateId(TableOf(KindOfId(id).value, groomings, boardings), id).One?
       && FirstOrderFor(orders, KindOfId(id).value, id, 0).Some?)
    ensures r.outcome.Success? ==> var k := FirstOrderFor(orders, KindOfId(id).value, id, 0).value;
      RefersTo(orders[k], KindOfId(id).value, id)
      && r.orders == orders[k := orders[k].(blacklist := true)] && r.outcome.value == r.orders[k]
    ensures id != "" && KindOfId(id).Some? && LocateId(TableOf(KindOfId(id).value, groomings, boardings), id).Missing? ==>
      r == BlacklistReply(Fail(NotFound), orders)
    ensures (id != "" && KindOfId(id).Some? && LocateId(TableOf(KindOfId(id).value, groomings, boardings), id).One?
             && FirstOrderFor(orders, KindOfId(id).value, id, 0).None?) ==> r == BlacklistReply(Fail(NotFound), orders)
    ensures KindOfId(id).Some? && (forall o :: o in orders ==> !RefersTo(o, KindOfId(id).value, id)) ==> r.outcome.Fail?
  {
    if id == "" then BlacklistReply(Fail(BadRequest), orders)
    else
      match KindOfId(id)
      case None => BlacklistReply(Fail(BadRequest), orders)
      case Some(kind) =>
        match LocateId(TableOf(kind, groomings, boardings), id)
        case Missing => BlacklistReply(Fail(NotFound), orders)
        case Many => BlacklistReply(Fail(InternalError), orders)
        case One(_) =>
          match FirstOrderFor(orders, kind, id, 0)
          case None => BlacklistReply(Fail(NotFound), orders)
          case Some(k) =>
            var flagged := orders[k].(blacklist := true);
            BlacklistReply(Success(flagged), orders[k := flagged])
  }

  /** Blacklisting again changes nothing and still succeeds. */
  lemma BlacklistIdempotent(groomings: seq<Reservation>, boardings: seq<Reservation>, orders: seq<Order>, id: string)
    requires BlacklistRequest(groomings, boardings, orders, id).outcome.Success?
    ensures var once := BlacklistRequest(groomings, boardings, orders, id);
      BlacklistRequest(groomings, boardings, once.orders, id) == once
  {
    var kind := KindOfId(id).value;
    var once := BlacklistRequest(groomings, boardings, orders, id);
    var k := FirstOrderFor(orders, kind, id, 0).value;
    assert once.orders == orders[k := orders[k].(blacklist := true)];
    SameRefsSameFirst(orders, once.orders, kind, id, 0);
  }

  lemma {:induction false} SameRefsSameFirst(a: seq<Order>, b: seq<Order>, kind: ServiceKind, id: string, from: nat)
    requires |a| == |b| && from <= |a|
    requires forall j :: 0 <= j < |a| ==> a[j].groomingRef == b[j].groomingRef && a[j].boardingRef == b[j].boardingRef
    ensures FirstOrderFor(a, kind, id, from) == FirstOrderFor(b, kind, id, from)
    decreases |a| - from
  {
    if from < |a| {
      SameRefsSameFirst(a, b, kind, id, from + 1);
    }
  }

  /** The blacklist endpoint on the database: flag the order in place. */
  method AddToBlacklist(db: Db, id: string) returns (r: Outcome<Order>)
    modifies db`orders
    ensures BlacklistReply(r, db.orders) == BlacklistRequest(db.groomings, db.boardings, old(db.orders), id)
  {
    if id == "" {
      return Fail(BadRequest);
    }
    var kind := KindOfId(id);
    if kind.None? {
      return Fail(BadRequest);
    }
    var found := LocateId(TableOf(kind.value, db.groomings, db.boardings), id);
    if found.Missing? {
      return Fail(NotFound);
    }
    if found.Many? {
      return Fail(InternalError);
    }
    var first := FirstOrderFor(db.orders, kind.value, id, 0);
    if first.None? {
      return Fail(NotFound);
    }
    var k := first.value;
    var order := db.orders[k];
    order := order.(blacklist := true);
    db.orders := db.orders[k := order];
    r := Success(order);
  }
}
