/**
 * The older grooming management viewset. Confirming leaves the store note
 * alone, and finishing saves the order without touching coupons or reporting
 * a coupon tally. Its cancel endpoints behave exactly like
 * GroomingManagement.CancelReservation and CancelConfirmedReservation on the
 * same table.
 */
module LegacyManagement {
  import opened Outcomes
  import opened Records
  import opened Directory
  import opened Lifecycle
  import opened Database
  import GroomingManagement

  /** `confirm`: pending to confirmed; the store note is kept. */
  method ConfirmReservation(db: Db, id: string) returns (r: Outcome<Reservation>)
    modifies db`groomings
    ensures Step(r, db.groomings) == Transit(old(db.groomings), id, Confirm(None))
    ensures r.Success? ==> (r.value.status == Confirmed && r.value.reservationId == id
      && exists i :: (0 <= i < |old(db.groomings)| && old(db.groomings)[i].reservationId == id
        && r.value == old(db.groomings)[i].(status := Confirmed)))
  {
    r := GroomingManagement.Move(db, id, Confirm(None));
  }

  /** `finish`: the grooming desk's finish without the coupon steps. */
  method FinishReservation(db: Db, id: string, orderValid: bool) returns (r: Outcome<Receipt>)
    modifies db`groomings, db`orders, db`nextOrderId
    ensures FinishReply(r, Books(db.groomings, db.orders, db.nextOrderId, db.coupons))
      == FinishRequest(LegacyDesk, old(Books(db.groomings, db.orders, db.nextOrderId, db.coupons)),
                       db.profiles, db.stores, id, orderValid)
    ensures r.Success? ==> r.value.tally == None
  {
    if id == "" {
      return Fail(BadRequest);
    }
    var found := Locate(db.groomings, id, Confirmed);
    if found.Missing? {
      return Fail(NotFound);
    }
    if found.Many? {
      return Fail(InternalError);
    }
    var i := found.row;
    var reservation := db.groomings[i];
    var customer := Get(ProfilesMatching(db.profiles, reservation.userName, reservation.userPhone));
    if customer.Missing? {
      return Fail(NotFound);
    }
    if customer.Many? {
      return Fail(BadRequest);
    }
    if !orderValid {
      return Fail(BadRequest);
    }
    var done := Advance(reservation, Finish);
    db.groomings := db.groomings[i := done];
    var order := OrderFor(LegacyDesk, db.nextOrderId, reservation, customer.row.userId);
    db.orders := db.orders + [order];
    db.nextOrderId := db.nextOrderId + 1;
    r := Success(Receipt(order, done, None));
  }
}
