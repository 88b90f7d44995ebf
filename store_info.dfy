/**
 * The booking page's store lookup (`get_store_data`): the store, the titles of
 * its grooming services, and the times already taken in its grooming schedule
 * today.
 */
module StoreInfo {
  import opened Outcomes
  import opened Records
  import opened Database
  import opened Directory
  import GroomingBooking

  /** The `unavailable_time` of every schedule row of the store on `today`, in
      table order. The column is not nullable and a time of day is always
      truthy in Python, so the view's `if` never skips a row. */
  function TimesOn(slots: seq<GroomingScheduleRow>, storeName: string, today: int): (r: seq<int>)
    ensures |r| <= |slots|
  {
    if |slots| == 0 then []
    else
      var last := slots[|slots| - 1];
      TimesOn(slots[..|slots| - 1], storeName, today) + (if last.storeName == storeName && last.date == today then [last.time] else [])
  }

  /** A time is listed exactly when the booking view would find it occupied, so
      the page shows as taken precisely the times a booking would be refused. */
  lemma {:induction false} ListedIffOccupied(slots: seq<GroomingScheduleRow>, storeName: string, today: int, t: int)
    ensures t in TimesOn(slots, storeName, today) <==> GroomingBooking.Occupied(slots, storeName, today, t)
    decreases |slots|
  {
    if |slots| > 0 {
      var init := slots[..|slots| - 1];
      var last := slots[|slots| - 1];
      assert slots == init + [last];
      ListedIffOccupied(init, storeName, today, t);
      if t in TimesOn(slots, storeName, today) && !(t in TimesOn(init, storeName, today)) {
        assert last in slots;
      }
      if GroomingBooking.Occupied(slots, storeName, today, t) {
        var s :| s in slots && s.storeName == storeName && s.date == today && s.time == t;
        if s != last {
          assert s in init;
        }
      }
    }
  }

  /** `[service.service_title for service in GroomingService.objects.filter(store_id=...)]`. */
  function ServiceTitles(catalog: seq<GroomingService>, storeId: nat): (r: seq<string>)
    ensures |r| <= |catalog|
    ensures forall t :: t in r <==> exists s :: s in catalog && s.storeId == storeId && s.title == t
  {
    if |catalog| == 0 then []
    else
      var rest := ServiceTitles(catalog[1..], storeId);
      assert forall s :: s in catalog <==> s == catalog[0] || s in catalog[1..];
      if catalog[0].storeId == storeId then [catalog[0].title] + rest else rest
  }

  /** What the view answers with, besides the user's pets. */
  datatype StorePage = StorePage(store: StoreRow, serviceTitles: seq<string>, unavailableTimes: seq<int>)

  /** The view with the status an unknown store gets left open: no `store_id` (or
      an empty one) is a 400; one that is not a number makes the id lookup raise
      into the generic handler, a 500. */
  function Answer(stores: seq<StoreRow>, catalog: seq<GroomingService>, slots: seq<GroomingScheduleRow>,
                  storeId: Field<nat>, today: int, unknownStore: Failure): Outcome<StorePage>
  {
    match storeId
    case Absent => Fail(BadRequest)
    case Malformed => Fail(InternalError)
    case Given(id) =>
      match StoreById(stores, id)
      case None => Fail(unknownStore)
      case Some(s) => Success(StorePage(s, ServiceTitles(catalog, id), TimesOn(slots, s.storeName, today)))
  }

  /** The view as written: `get_object_or_404` raises `Http404`, which the
      `except Store.DoesNotExist` clause does not catch, so the generic handler
      answers an unknown store with a 500. */
  function StoreDataAsWritten(stores: seq<StoreRow>, catalog: seq<GroomingService>, slots: seq<GroomingScheduleRow>,
                              storeId: Field<nat>, today: int): (r: Outcome<StorePage>)
    ensures storeId.Given? && StoreById(stores, storeId.value).None? ==> r == Fail(InternalError)
  {
    Answer(stores, catalog, slots, storeId, today, InternalError)
  }

  /** The view as its handlers intend: an unknown store is a 404. */
  function StoreData(stores: seq<StoreRow>, catalog: seq<GroomingService>, slots: seq<GroomingScheduleRow>,
                     storeId: Field<nat>, today: int): (r: Outcome<StorePage>)
    ensures r == Fail(BadRequest) <==> storeId.Absent?
    ensures r == Fail(NotFound) <==> storeId.Given? && forall s :: s in stores ==> s.id != storeId.value
    ensures r == Fail(InternalError) <==> storeId.Malformed?
    ensures r.Success? ==> storeId.Given? && r.value.store in stores && r.value.store.id == storeId.value
    ensures r.Success? ==> forall t :: t in r.value.serviceTitles <==>
      exists s :: s in catalog && s.storeId == storeId.value && s.title == t
  {
    Answer(stores, catalog, slots, storeId, today, NotFound)
  }

  /** The times the page lists are exactly the ones a grooming booking at the
      store today would be refused for. */
  lemma ListedTimesAreTaken(stores: seq<StoreRow>, catalog: seq<GroomingService>, slots: seq<GroomingScheduleRow>,
                            storeId: Field<nat>, today: int, t: int)
    requires StoreData(stores, catalog, slots, storeId, today).Success?
    ensures var d := StoreData(stores, catalog, slots, storeId, today).value;
      t in d.unavailableTimes <==> GroomingBooking.Occupied(slots, d.store.storeName, today, t)
  {
    var d := StoreData(stores, catalog, slots, storeId, today).value;
    ListedIffOccupied(slots, d.store.storeName, today, t);
  }

  /** The code as written and the corrected view differ on an unknown store alone:
      500 against 404. */
  lemma UnknownStoreAnswersServerError(stores: seq<StoreRow>, catalog: seq<GroomingService>, slots: seq<GroomingScheduleRow>,
                                       storeId: Field<nat>, today: int)
    ensures var unknown := storeId.Given? && StoreById(stores, storeId.value).None?;
      && (unknown ==> StoreDataAsWritten(stores, catalog, slots, storeId, today) == Fail(InternalError)
                      && StoreData(stores, catalog, slots, storeId, today) == Fail(NotFound))
      && (!unknown ==> StoreDataAsWritten(stores, catalog, slots, storeId, today) == StoreData(stores, catalog, slots, storeId, today))
  {
  }

  /** A request for store 2 when only store 1 exists gets a 500 from the code as
      written. */
  lemma UnknownStoreExample()
    ensures StoreDataAsWritten([StoreRow(1, "A", "")], [], [], Given(2), 0) == Fail(InternalError)
    ensures StoreData([StoreRow(1, "A", "")], [], [], Given(2), 0) == Fail(NotFound)
  {
  }

  /** The view's loop over today's schedule rows. */
  method UnavailableTimes(db: Db, storeName: string, today: int) returns (times: seq<int>)
    ensures times == TimesOn(db.groomingSlots, storeName, today)
  {
    times := [];
    for k := 0 to |db.groomingSlots|
      invariant times == TimesOn(db.groomingSlots[..k], storeName, today)
    {
      var row := db.groomingSlots[k];
      assert db.groomingSlots[..k + 1][..k] == db.groomingSlots[..k];
      if row.storeName == storeName && row.date == today {
        times := times + [row.time];
      }
    }
    assert db.groomingSlots[..|db.groomingSlots|] == db.groomingSlots;
  }

  /** `get_store_data`, with today's date as a parameter and the corrected status
      for an unknown store. */
  method GetStoreData(db: Db, storeId: Field<nat>, today: int) returns (r: Outcome<StorePage>)
    ensures r == StoreData(db.stores, db.groomingServices, db.groomingSlots, storeId, today)
  {
    if storeId.Absent? {
      return Fail(BadRequest);
    }
    if storeId.Malformed? {
      return Fail(InternalError);
    }
    var store := StoreById(db.stores, storeId.value);
    if store.None? {
      return Fail(NotFound);
    }
    var times := UnavailableTimes(db, store.value.storeName, today);
    r := Success(StorePage(store.value, ServiceTitles(db.groomingServices, storeId.value), times));
  }
}
