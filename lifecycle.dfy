/**
 * The reservation state machine shared by the grooming, boarding and older
 * grooming management views: pending -> confirmed -> finished, and pending or
 * confirmed -> cancelled. Each move looks the reservation up by (id, expected
 * status); finishing also resolves the customer, records an order, redeems the
 * reservation's coupon and reports the store's coupon tally.
 *
 * These functions describe a whole request over the affected tables; the
 * management modules perform the same request step by step on a `Db`.
 */
module Lifecycle {
  import opened Outcomes
  import opened Records
  import opened Decimal
  import opened Directory
  import opened Coupons
  import opened Slots

  datatype Action =
    | Confirm(note: Option<string>)   // `None`: the older view leaves the note alone
    | Cancel
    | CancelConfirmed
    | Finish

  /** The status the lookup of each action filters on. */
  function Required(a: Action): ReservationStatus
  {
    match a
    case Confirm(_) => Pending
    case Cancel => Pending
    case CancelConfirmed => Confirmed
    case Finish => Confirmed
  }

  /** The four moves of the state machine. */
  predicate Legal(from: ReservationStatus, to: ReservationStatus)
  {
    (from == Pending && to == Confirmed) || (from == Pending && to == Cancelled)
    || (from == Confirmed && to == Cancelled) || (from == Confirmed && to == Finished)
  }

  /** How far along a reservation is; cancelled and finished are both final. */
  function Rank(s: ReservationStatus): nat
  {
    match s
    case Pending => 0
    case Confirmed => 1
    case Cancelled => 2
    case Finished => 2
  }

  predicate Terminal(s: ReservationStatus) { s == Cancelled || s == Finished }

  /** The status an action leaves behind: always a legal move forward. */
  function Target(a: Action): (s: ReservationStatus)
    ensures Legal(Required(a), s)
    ensures Rank(s) > Rank(Required(a))
  {
    match a
    case Confirm(_) => Confirmed
    case Cancel => Cancelled
    case CancelConfirmed => Cancelled
    case Finish => Finished
  }

  /** Every legal move goes forward, and nothing leaves a final status. */
  lemma LegalMovesForward(from: ReservationStatus, to: ReservationStatus)
    ensures Legal(from, to) ==> Rank(from) < Rank(to) && !Terminal(from)
  {
  }

  /** The record after the action: the status moves, a confirmation with a note
      overwrites the store note, and nothing else changes. */
  function Advance(r: Reservation, a: Action): (s: Reservation)
    ensures s.status == Target(a)
    ensures s.storeNote == (if a.Confirm? && a.note.Some? then a.note.value else r.storeNote)
    ensures s.(status := r.status, storeNote := r.storeNote) == r
  {
    if a.Confirm? && a.note.Some? then r.(status := Target(a), storeNote := a.note.value)
    else r.(status := Target(a))
  }

  /** Positions of the rows with a reservation id and a status, from `from` on. */
  function MatchingIndices(rows: seq<Reservation>, id: string, status: ReservationStatus, from: nat): (r: seq<nat>)
    requires from <= |rows|
    ensures forall k :: 0 <= k < |r| ==> from <= r[k] < |rows| && rows[r[k]].reservationId == id && rows[r[k]].status == status
    ensures forall i :: from <= i < |rows| && rows[i].reservationId == id && rows[i].status == status ==> i in r
    decreases |rows| - from
  {
    if from == |rows| then []
    else
      var rest := MatchingIndices(rows, id, status, from + 1);
      if rows[from].reservationId == id && rows[from].status == status then [from] + rest else rest
  }

  /** `objects.get(reservation_id=id, status=status)`, as a row position. */
  function Locate(rows: seq<Reservation>, id: string, status: ReservationStatus): (r: Lookup<nat>)
    ensures r.One? ==> r.row < |rows| && rows[r.row].reservationId == id && rows[r.row].status == status
    ensures r.Missing? <==> forall i :: 0 <= i < |rows| ==> !(rows[i].reservationId == id && rows[i].status == status)
  {
    var ix := MatchingIndices(rows, id, status, 0);
    assert |ix| > 0 ==> ix[0] in ix;
    Get(ix)
  }

  /** Positions of the rows with a reservation id, whatever their status. */
  function IdIndices(rows: seq<Reservation>, id: string, from: nat): (r: seq<nat>)
    requires from <= |rows|
    ensures forall k :: 0 <= k < |r| ==> from <= r[k] < |rows| && rows[r[k]].reservationId == id
    ensures forall i :: from <= i < |rows| && rows[i].reservationId == id ==> i in r
    decreases |rows| - from
  {
    if from == |rows| then []
    else
      var rest := IdIndices(rows, id, from + 1);
      if rows[from].reservationId == id then [from] + rest else rest
  }

  /** `objects.get(reservation_id=id)`, as a row position. */
  function LocateId(rows: seq<Reservation>, id: string): (r: Lookup<nat>)
    ensures r.One? ==> r.row < |rows| && rows[r.row].reservationId == id
    ensures r.Missing? <==> forall i :: 0 <= i < |rows| ==> rows[i].reservationId != id
  {
    var ix := IdIndices(rows, id, 0);
    assert |ix| > 0 ==> ix[0] in ix;
    Get(ix)
  }

  /** Reservation ids are unique within a table. */
  predicate UniqueIds(rows: seq<Reservation>)
  {
    forall i, j :: 0 <= i < j < |rows| ==> rows[i].reservationId != rows[j].reservationId
  }

  /** With unique ids the lookup never finds two rows. */
  lemma UniqueIdsLocateAtMostOne(rows: seq<Reservation>, id: string, status: ReservationStatus)
    requires UniqueIds(rows)
    ensures !Locate(rows, id, status).Many?
  {
    AtMostOneMatch(rows, id, status, 0);
  }

  lemma {:induction false} AtMostOneMatch(rows: seq<Reservation>, id: string, status: ReservationStatus, from: nat)
    requires UniqueIds(rows) && from <= |rows|
    ensures |MatchingIndices(rows, id, status, from)| <= 1
    decreases |rows| - from
  {
    if from < |rows| {
      if rows[from].reservationId == id && rows[from].status == status {
        NoMatchesFrom(rows, id, status, from + 1);
      } else {
        AtMostOneMatch(rows, id, status, from + 1);
      }
    }
  }

  lemma {:induction false} NoMatchesFrom(rows: seq<Reservation>, id: string, status: ReservationStatus, from: nat)
    requires from <= |rows|
    requires forall j :: from <= j < |rows| ==> rows[j].reservationId != id
    ensures MatchingIndices(rows, id, status, from) == []
    decreases |rows| - from
  {
    if from < |rows| {
      NoMatchesFrom(rows, id, status, from + 1);
    }
  }

  /** The result of one request: its outcome and the table afterwards. */
  datatype Step = Step(outcome: Outcome<Reservation>, rows: seq<Reservation>)

  /** Confirm, cancel or cancel a confirmed reservation: an empty id is a 400, a
      missing (id, status) pair a 404; otherwise exactly that row moves on. */
  function Transit(rows: seq<Reservation>, id: string, a: Action): (r: Step)
    requires !a.Finish?
    ensures r.outcome.Fail? ==> r.rows == rows
    ensures r.outcome == Fail(BadRequest) <==> id == ""
    ensures r.outcome == Fail(NotFound) <==>
      id != "" && forall i :: 0 <= i < |rows| ==> !(rows[i].reservationId == id && rows[i].status == Required(a))
    ensures r.outcome.Success? ==> exists i :: (0 <= i < |rows| && rows[i].reservationId == id && rows[i].status == Required(a)
      && r.rows == rows[i := Advance(rows[i], a)] && r.outcome.value == r.rows[i])
  {
    if id == "" then Step(Fail(BadRequest), rows)
    else
      match Locate(rows, id, Required(a))
      case Missing => Step(Fail(NotFound), rows)
      case Many => Step(Fail(InternalError), rows)
      case One(i) => Step(Success(Advance(rows[i], a)), rows[i := Advance(rows[i], a)])
  }

  /** A transition only ever moves a row along a legal edge, and leaves final
      rows where they are. */
  lemma TransitMovesLegally(rows: seq<Reservation>, id: string, a: Action, k: nat)
    requires !a.Finish? && k < |rows|
    ensures |Transit(rows, id, a).rows| == |rows|
    ensures Transit(rows, id, a).rows[k] == rows[k]
      || (Legal(rows[k].status, Transit(rows, id, a).rows[k].status) && rows[k].reservationId == id)
    ensures Terminal(rows[k].status) ==> Transit(rows, id, a).rows[k] == rows[k]
  {
  }

  /** Confirming is not repeatable: once a reservation with a unique id has been
      confirmed, confirming it again finds no pending row. The same holds for
      every other move, since none returns to its own starting status. */
  lemma NoMoveTwice(rows: seq<Reservation>, id: string, a: Action, b: Action)
    requires !a.Finish? && !b.Finish? && UniqueIds(rows)
    requires Transit(rows, id, a).outcome.Success? && Required(b) == Required(a)
    ensures Transit(Transit(rows, id, a).rows, id, b).outcome == Fail(NotFound)
  {
    var after := Transit(rows, id, a).rows;
    var i :| 0 <= i < |rows| && rows[i].reservationId == id && rows[i].status == Required(a)
      && after == rows[i := Advance(rows[i], a)];
    forall k | 0 <= k < |after|
      ensures !(after[k].reservationId == id && after[k].status == Required(b))
    {
      if k != i {
        assert rows[k].reservationId != rows[i].reservationId by {
          if k < i {} else {}
        }
      }
    }
  }

  /** Transitions keep ids (and so their uniqueness). */
  lemma TransitKeepsIds(rows: seq<Reservation>, id: string, a: Action)
    requires !a.Finish?
    ensures |Transit(rows, id, a).rows| == |rows|
    ensures forall k :: 0 <= k < |rows| ==> Transit(rows, id, a).rows[k].reservationId == rows[k].reservationId
    ensures UniqueIds(rows) ==> UniqueIds(Transit(rows, id, a).rows)
  {
  }

  // ---------------------------------------------------------------------------
  // Finishing
  // ---------------------------------------------------------------------------

  /** The three management desks differ only in what finishing records. */
  datatype Desk =
    | GroomingDesk   // order refers to the grooming reservation; coupons redeemed
    | BoardingDesk   // order refers to the boarding reservation; coupons redeemed
    | LegacyDesk     // older grooming view: order only, coupons untouched

  /** The tables a finish request writes. */
  datatype Books = Books(rows: seq<Reservation>, orders: seq<Order>, nextOrderId: nat, coupons: seq<Coupon>)

  /** What a successful finish reports. The coupon tally is absent at the older
      desk. */
  datatype Receipt = Receipt(order: Order, finished: Reservation, tally: Option<CouponTally>)

  /** The order saved for a finished reservation: it carries the reservation's
      total price, is not blacklisted, and refers to the reservation through the
      desk's own reference column. */
  function OrderFor(desk: Desk, id: nat, r: Reservation, userId: string): (o: Order)
    ensures o.id == id && o.userId == userId && o.totalPrice == r.totalPrice && !o.blacklist
    ensures desk.BoardingDesk? ==> o.groomingRef == None && o.boardingRef == Some(r.reservationId)
    ensures !desk.BoardingDesk? ==> o.groomingRef == Some(r.reservationId) && o.boardingRef == None
  {
    if desk.BoardingDesk? then Order(id, None, Some(r.reservationId), userId, r.totalPrice, false)
    else Order(id, Some(r.reservationId), None, userId, r.totalPrice, false)
  }

  /** The answer to a finish request together with the tables afterwards. A
      failure before the status is saved leaves every table alone; a failure of
      the coupon tally comes after the save and keeps what was written. */
  datatype FinishReply = FinishReply(outcome: Outcome<Receipt>, books: Books)

  /** Whether the request got as far as saving the finished status and order. */
  predicate Committed(books: Books, after: Books)
  {
    after.nextOrderId == books.nextOrderId + 1
  }

  /** A finish request with the two defects of the current finish views
      corrected: the order names its reservation in the form the order's
      foreign key accepts (the reservation's primary key, as the older desk
      passes it), and a store name no store has tallies no coupons. `orderValid`
      is the order serializer's verdict on the other fields. The views as
      written are FinishRequestAsWritten and Coupons.CouponTallyAsWritten. */
  function FinishRequest(desk: Desk, books: Books, profiles: seq<CustomerProfile>, stores: seq<StoreRow>,
                         id: string, orderValid: bool): (r: FinishReply)
    ensures !Committed(books, r.books) ==> r.books == books && r.outcome.Fail?
    ensures r.outcome.Success? ==> Committed(books, r.books)
    ensures Committed(books, r.books) ==>
      exists i :: 0 <= i < |books.rows| && books.rows[i].reservationId == id && books.rows[i].status == Confirmed
        && r.books.rows == books.rows[i := Advance(books.rows[i], Finish)]
        && |r.books.orders| == |books.orders| + 1 && r.books.orders[..|books.orders|] == books.orders
        && r.books.orders[|books.orders|].id == books.nextOrderId
        && r.books.orders[|books.orders|].totalPrice == books.rows[i].totalPrice
        && !r.books.orders[|books.orders|].blacklist
    ensures Committed(books, r.books) ==>
      r.books.coupons == (if desk.LegacyDesk? then books.coupons else Redeem(books.coupons, id, Show(books.nextOrderId)))
    ensures Committed(books, r.books) <==>
      id != "" && orderValid && exists i :: (0 <= i < |books.rows| && books.rows[i].reservationId == id && books.rows[i].status == Confirmed
        && Locate(books.rows, id, Confirmed) == One(i)
        && |ProfilesMatching(profiles, books.rows[i].userName, books.rows[i].userPhone)| == 1)
  {
    if id == "" then FinishReply(Fail(BadRequest), books)
    else
      match Locate(books.rows, id, Confirmed)
      case Missing => FinishReply(Fail(NotFound), books)
      case Many => FinishReply(Fail(InternalError), books)
      case One(i) =>
        var r := books.rows[i];
        match Get(ProfilesMatching(profiles, r.userName, r.userPhone))
        case Missing => FinishReply(Fail(NotFound), books)
        case Many => FinishReply(Fail(BadRequest), books)
        case One(p) =>
          if !orderValid then FinishReply(Fail(BadRequest), books)
          else
            var done := Advance(r, Finish);
            var order := OrderFor(desk, books.nextOrderId, r, p.userId);
            var coupons := if desk.LegacyDesk? then books.coupons else Redeem(books.coupons, id, Show(order.id));
            var after := Books(books.rows[i := done], books.orders + [order], books.nextOrderId + 1, coupons);
            if desk.LegacyDesk? then FinishReply(Success(Receipt(order, done, None)), after)
            else
              match CouponTallyFor(stores, coupons, r.storeName)
              case Fail(f) => FinishReply(Fail(f), after)
              case Success(t) => FinishReply(Success(Receipt(order, done, Some(t))), after)
  }

  /** Whether the desk's order data names its reservation in a form the order
      serializer's foreign-key fields accept. Those fields refer to the
      reservation's integer primary key. The older desk passes that key; the
      current desks pass the request's `reservation_id` text ("GR..."/"BD..."),
      which the key field refuses as being of the wrong type. */
  predicate ReferenceAccepted(desk: Desk)
  {
    desk.LegacyDesk?
  }

  /** A finish request as the views are written: the order serializer refuses
      the current desks' text reference, so its verdict is `orderValid` only at
      the older desk. */
  function FinishRequestAsWritten(desk: Desk, books: Books, profiles: seq<CustomerProfile>, stores: seq<StoreRow>,
                                  id: string, orderValid: bool): (r: FinishReply)
    ensures !desk.LegacyDesk? ==> r.books == books && r.outcome.Fail?
    ensures desk.LegacyDesk? ==> r == FinishRequest(desk, books, profiles, stores, id, orderValid)
  {
    FinishRequest(desk, books, profiles, stores, id, orderValid && ReferenceAccepted(desk))
  }

  /** As written, every current-desk request that the corrected finish would
      complete is answered 400 instead, before anything is written: no
      reservation is finished, no order saved and no coupon redeemed there. */
  lemma CurrentFinishRefusedAtSerializer(desk: Desk, books: Books, profiles: seq<CustomerProfile>, stores: seq<StoreRow>,
                                         id: string, orderValid: bool)
    requires !desk.LegacyDesk?
    ensures Committed(books, FinishRequest(desk, books, profiles, stores, id, orderValid).books) ==>
      FinishRequestAsWritten(desk, books, profiles, stores, id, orderValid) == FinishReply(Fail(BadRequest), books)
    ensures !Committed(books, FinishRequestAsWritten(desk, books, profiles, stores, id, orderValid).books)
  {
    if Committed(books, FinishRequest(desk, books, profiles, stores, id, orderValid).books) {
      var i :| 0 <= i < |books.rows| && books.rows[i].reservationId == id && books.rows[i].status == Confirmed
        && Locate(books.rows, id, Confirmed) == One(i)
        && |ProfilesMatching(profiles, books.rows[i].userName, books.rows[i].userPhone)| == 1;
      FinishCustomerErrors(desk, books, profiles, stores, id, false, i);
    }
  }

  /** The input that shows it: a confirmed grooming reservation whose customer
      has exactly one profile, with an otherwise valid order. The corrected
      finish completes it; as written the grooming desk answers 400. */
  lemma FinishReferenceExample()
    ensures var r := Reservation("GR20250815103000" + "1234", "Paws", "Ann", "0911", "Momo", false, "", "", Confirmed, 600,
                                 GroomingDetail(["bath"], Dog, "poodle", Medium, 600, 45));
      var books := Books([r], [], 1, []);
      var profiles := [CustomerProfile("M1", "Ann", Some("0911"))];
      var stores := [StoreRow(1, "Paws", "0200")];
      && FinishRequestAsWritten(GroomingDesk, books, profiles, stores, r.reservationId, true) == FinishReply(Fail(BadRequest), books)
      && FinishRequest(GroomingDesk, books, profiles, stores, r.reservationId, true).outcome.Success?
  {
    var r := Reservation("GR20250815103000" + "1234", "Paws", "Ann", "0911", "Momo", false, "", "", Confirmed, 600,
                         GroomingDetail(["bath"], Dog, "poodle", Medium, 600, 45));
    var books := Books([r], [], 1, []);
    var profiles := [CustomerProfile("M1", "Ann", Some("0911"))];
    var stores := [StoreRow(1, "Paws", "0200")];
    assert MatchingIndices(books.rows, r.reservationId, Confirmed, 1) == [];
    assert Locate(books.rows, r.reservationId, Confirmed) == One(0);
    assert ProfilesMatching(profiles[1..], "Ann", "0911") == [];
    assert ProfilesMatching(profiles, "Ann", "0911") == profiles;
    assert StoresNamed(stores[1..], "Paws") == [];
    assert StoresNamed(stores, "Paws") == stores;
  }

  /** The customer lookup decides the answer when the reservation is found: no
      profile is a 404, several a 400, and in both cases nothing is written. */
  lemma FinishCustomerErrors(desk: Desk, books: Books, profiles: seq<CustomerProfile>, stores: seq<StoreRow>,
                             id: string, orderValid: bool, i: nat)
    requires id != "" && Locate(books.rows, id, Confirmed) == One(i)
    ensures var n := |ProfilesMatching(profiles, books.rows[i].userName, books.rows[i].userPhone)|;
      var r := FinishRequest(desk, books, profiles, stores, id, orderValid);
      (n == 0 ==> r == FinishReply(Fail(NotFound), books))
      && (n > 1 ==> r == FinishReply(Fail(BadRequest), books))
      && (n == 1 && !orderValid ==> r == FinishReply(Fail(BadRequest), books))
  {
  }

  /** The saved order's customer is the one profile with the reservation's name
      and phone. */
  lemma FinishOrderCustomer(desk: Desk, books: Books, profiles: seq<CustomerProfile>, stores: seq<StoreRow>,
                            id: string, orderValid: bool)
    requires Committed(books, FinishRequest(desk, books, profiles, stores, id, orderValid).books)
    ensures var r := FinishRequest(desk, books, profiles, stores, id, orderValid);
      var o := r.books.orders[|books.orders|];
      exists p :: p in profiles && p.userId == o.userId
        && exists k :: (0 <= k < |books.rows| && books.rows[k].reservationId == id
          && p.fullName == books.rows[k].userName && p.phone == Some(books.rows[k].userPhone))
  {
    var i := Locate(books.rows, id, Confirmed).row;
    var r := books.rows[i];
    var m := ProfilesMatching(profiles, r.userName, r.userPhone);
    assert m[0] in m;
  }

  /** Finishing moves a row only from confirmed to finished, leaves final rows
      alone and keeps every reservation id. */
  lemma FinishMovesLegally(desk: Desk, books: Books, profiles: seq<CustomerProfile>, stores: seq<StoreRow>,
                           id: string, orderValid: bool, k: nat)
    requires k < |books.rows|
    ensures var after := FinishRequest(desk, books, profiles, stores, id, orderValid).books.rows;
      |after| == |books.rows| && after[k].reservationId == books.rows[k].reservationId
      && (after[k] == books.rows[k] || (books.rows[k].status == Confirmed && after[k].status == Finished))
      && (Terminal(books.rows[k].status) ==> after[k] == books.rows[k])
  {
  }

  /** A reservation cannot be finished twice: the second request finds no
      confirmed row and writes nothing, so no second order is recorded and the
      coupon is not redeemed again. */
  lemma FinishNotRepeatable(desk: Desk, books: Books, profiles: seq<CustomerProfile>, stores: seq<StoreRow>,
                            id: string, orderValid: bool, laterValid: bool)
    requires UniqueIds(books.rows)
    requires Committed(books, FinishRequest(desk, books, profiles, stores, id, orderValid).books)
    ensures var after := FinishRequest(desk, books, profiles, stores, id, orderValid).books;
      FinishRequest(desk, after, profiles, stores, id, laterValid) == FinishReply(Fail(NotFound), after)
  {
    var after := FinishRequest(desk, books, profiles, stores, id, orderValid).books;
    var i := Locate(books.rows, id, Confirmed).row;
    forall k | 0 <= k < |after.rows|
      ensures !(after.rows[k].reservationId == id && after.rows[k].status == Confirmed)
    {
      if k != i {
        assert books.rows[k].reservationId != books.rows[i].reservationId by {
          if k < i {} else {}
        }
      }
    }
  }

  // ---------------------------------------------------------------------------
  // Timing reported by the finish and listing views
  // ---------------------------------------------------------------------------

  /** The end a finish or listing reports for a grooming reservation: its start
      plus the booked period. Reported as a time of day, it is the start's time
      of day moved on by the period, past midnight if need be. The booking's
      quarter-hour markers all fall before it, and the end of the last marked
      quarter hour is within 7 minutes of it either way. */
  function GroomingEnd(d: Detail): (t: int)
    requires d.GroomingDetail?
    ensures TimeOfDay(t) == TimeOfDay(TimeOfDay(d.start) + d.period)
    ensures d.period >= 0 ==>
      forall i :: 0 <= i < GroomingSlotCount(d.period) ==> d.start <= d.start + GroomingStep * i < t
    ensures d.period >= 0 ==> -7 <= t - (d.start + GroomingStep * GroomingSlotCount(d.period)) <= 7
  {
    GroomingSlotCountNearest(d.period);
    ModAddCongruent(d.start, d.period, MinutesPerDay);
    d.start + d.period
  }

  /** The boarding duration a finish reports: calendar days between the check-in
      and check-out dates, whatever the times of day. */
  function BoardingNights(d: Detail): (n: int)
    requires d.BoardingDetail?
    ensures n == DateOf(d.checkout) - DateOf(d.checkin)
    ensures d.checkin <= d.checkout ==> n >= 0
  {
    DateOf(d.checkout) - DateOf(d.checkin)
  }
}
