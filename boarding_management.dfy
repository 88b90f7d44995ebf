/**
 * The store's boarding reservation management endpoints: the same four moves
 * as the grooming desk, performed on the boarding table; the order saved on
 * finishing refers to the boarding reservation.
 */
module BoardingManagement {
  import opened Outcomes
  import opened Records
  import opened Decimal
  import opened Directory
  import opened Coupons
  import opened Lifecycle
  import opened Database

  /** Look up the (id, required status) row and move it along the action. */
  method Move(db: Db, id: string, a: Action) returns (r: Outcome<Reservation>)
    requires !a.Finish?
    modifies db`boardings
    ensures Step(r, db.boardings) == Transit(old(db.boardings), id, a)
  {
    if id == "" {
      return Fail(BadRequest);
    }
    var found := Locate(db.boardings, id, Required(a));
    match found
    case Missing => r := Fail(NotFound);
    case Many => r := Fail(InternalError);
    case One(i) =>
      var reservation := Advance(db.boardings[i], a);
      db.boardings := db.boardings[i := reservation];
      r := Success(reservation);
  }

  /** `confirm`: pending to confirmed, the store note replaced by the request's
      (an absent note is the empty string). */
  method ConfirmReservation(db: Db, id: string, storeNote: string) returns (r: Outcome<Reservation>)
    modifies db`boardings
    ensures Step(r, db.boardings) == Transit(old(db.boardings), id, Confirm(Some(storeNote)))
    ensures r.Success? ==> r.value.status == Confirmed && r.value.storeNote == storeNote && r.value.reservationId == id
  {
    r := Move(db, id, Confirm(Some(storeNote)));
  }

  /** `cancel`: pending to cancelled. */
  method CancelReservation(db: Db, id: string) returns (r: Outcome<Reservation>)
    modifies db`boardings
    ensures Step(r, db.boardings) == Transit(old(db.boardings), id, Cancel)
    ensures r.Success? ==> r.value.status == Cancelled && r.value.reservationId == id
  {
    r := Move(db, id, Cancel);
  }

  /** `cancel-confirmed`: confirmed to cancelled. */
  method CancelConfirmedReservation(db: Db, id: string) returns (r: Outcome<Reservation>)
    modifies db`boardings
    ensures Step(r, db.boardings) == Transit(old(db.boardings), id, CancelConfirmed)
    ensures r.Success? ==> r.value.status == Cancelled && r.value.reservationId == id
  {
    r := Move(db, id, CancelConfirmed);
  }

  /** `complete`: find the confirmed reservation and its customer, save the
      finished status and the order, redeem the reservation's coupon with the
      order id and report the store's coupon tally. */
  method FinishReservation(db: Db, id: string, orderValid: bool) returns (r: Outcome<Receipt>)
    modifies db`boardings, db`orders, db`nextOrderId, db`coupons
    ensures FinishReply(r, Books(db.boardings, db.orders, db.nextOrderId, db.coupons))
      == FinishRequest(BoardingDesk, old(Books(db.boardings, db.orders, db.nextOrderId, db.coupons)),
                       db.profiles, db.stores, id, orderValid)
  {
    if id == "" {
      return Fail(BadRequest);
    }
    var found := Locate(db.boardings, id, Confirmed);
    if found.Missing? {
      return Fail(NotFound);
    }
    if found.Many? {
      return Fail(InternalError);
    }
    var i := found.row;
    var reservation := db.boardings[i];
    var customer := Get(ProfilesMatching(db.profiles, reservation.userName, reservation.userPhone));
    if customer.Missing? {
      return Fail(NotFound);
    }
    if customer.Many? {
      return Fail(BadRequest);
    }
    if !orderValid {
      return Fail(BadRequest);
    }
    var done := Advance(reservation, Finish);
    db.boardings := db.boardings[i := done];
    var order := OrderFor(BoardingDesk, db.nextOrderId, reservation, customer.row.userId);
    db.orders := db.orders + [order];
    db.nextOrderId := db.nextOrderId + 1;
    var attached := Get(IndicesFor(db.coupons, id, 0));
    if attached.One? {
      var k := attached.row;
      db.coupons := db.coupons[k := db.coupons[k].(status := Used, orderId := Some(Show(order.id)))];
    }
    var tally := CouponTallyFor(db.stores, db.coupons, reservation.storeName);
    if tally.Fail? {
      return Fail(tally.failure);
    }
    r := Success(Receipt(order, done, Some(tally.value)));
  }
}
