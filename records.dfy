/**
 * The rows of the booking platform's tables, as values.
 *
 * Grooming and boarding reservations share one record shape with a tag for the
 * kind-specific part; they still live in two separate tables (see Database).
 * Datetimes are whole minutes on one time line, dates are day numbers
 * (minute / 1440) and a time of day is minute % 1440.
 */
module Records {
  import opened Outcomes

  const MinutesPerDay: int := 1440

  function DateOf(minute: int): int { minute / MinutesPerDay }
  function TimeOfDay(minute: int): int { minute % MinutesPerDay }

  datatype ReservationStatus = Pending | Confirmed | Cancelled | Finished

  /** Species of a pet, a grooming service or a room type. Django does not enforce
      `choices` when a row is saved, so a stored value can lie outside cat/dog. */
  datatype Species = Cat | Dog | Unlisted(name: string)

  datatype PetSize = Small | Medium | Large | OtherSize

  datatype FurAmount = FurNone | FurShort | FurMedium | FurLong | FurOther

  /** `duration_unit` of a boarding tier: the model offers day and month, and the
      price calculation also understands week. */
  datatype DurationUnit = Day | Week | Month

  /** GroomingServicePricing: one price and duration per (size, fur) of one service. */
  datatype GroomingTier = GroomingTier(petSize: PetSize, furAmount: FurAmount, pricing: int, groomingDuration: int)

  /** GroomingService with its pricing tiers. */
  datatype GroomingService = GroomingService(storeId: nat, species: Species, title: string, tiers: seq<GroomingTier>)

  /** BoardingRoomPricing. */
  datatype BoardingTier = BoardingTier(duration: int, unit: DurationUnit, pricing: int, overtimeRate: int, overtimeCharging: bool)

  /** BoardingRoomType of a store with its pricing tiers. */
  datatype RoomType = RoomType(storeId: nat, species: Species, name: string, roomCount: int, petAvailableAmount: int, tiers: seq<BoardingTier>)

  /** The kind-specific part of a reservation. */
  datatype Detail =
    | GroomingDetail(services: seq<string>, petType: Species, petBreed: string, petSize: PetSize, start: int, period: int)
    | BoardingDetail(roomType: string, checkin: int, checkout: int)

  /** ReservationGrooming / ReservationBoarding, with the fields the views read and write. */
  datatype Reservation = Reservation(
    reservationId: string,
    storeName: string,
    userName: string,
    userPhone: string,
    petName: string,
    pickUp: bool,
    customerNote: string,
    storeNote: string,
    status: ReservationStatus,
    totalPrice: int,
    detail: Detail)

  /** GroomingSchedules: one occupied quarter hour of a store on a date. */
  datatype GroomingScheduleRow = GroomingScheduleRow(reservationId: string, storeName: string, date: int, time: int)

  /** BoardingSchedules: one occupied room unit of a room type at a half-hour marker. */
  datatype BoardingScheduleRow = BoardingScheduleRow(reservationId: string, storeName: string, roomType: string, at: int)

  /** Orders: at most one of the two reservation references is meant to be set. */
  datatype Order = Order(id: nat, groomingRef: Option<string>, boardingRef: Option<string>, userId: string, totalPrice: int, blacklist: bool)

  datatype CouponStatus = Used | NotUsed

  datatype Coupon = Coupon(
    userId: string,
    storeId: Option<string>,
    couponNumber: string,
    reservationId: Option<string>,
    orderId: Option<string>,
    status: CouponStatus)

  /** CustomersProfile; `phone` is nullable. */
  datatype CustomerProfile = CustomerProfile(userId: string, fullName: string, phone: Option<string>)

  datatype StoreRow = StoreRow(id: nat, storeName: string, phone: string)

  /** StoreImage: one picture of a store's gallery, by its stored url. */
  datatype StoreImage = StoreImage(storeId: nat, url: string)

  datatype Pet = Pet(userId: string, name: string, species: Species, breed: string, size: PetSize, furAmount: FurAmount)

  /** A coupon as it is first issued: not used and tied to nothing yet. */
  function IssuedCoupon(userId: string, couponNumber: string): (c: Coupon)
    ensures c.status == NotUsed && c.userId == userId && c.couponNumber == couponNumber
    ensures c.storeId == None && c.reservationId == None && c.orderId == None
  {
    Coupon(userId, None, couponNumber, None, None, NotUsed)
  }

  /** `Orders.__str__` names the service kind: grooming exactly when the grooming
      reference is set, boarding otherwise. */
  function OrderServiceKind(o: Order): string
  {
    if o.groomingRef.Some? then "grooming" else "boarding"
  }

  lemma OrderKindIsGroomingIff(o: Order)
    ensures OrderServiceKind(o) == "grooming" <==> o.groomingRef.Some?
  {
    if o.groomingRef.None? {
      assert OrderServiceKind(o)[0] == 'b';
    }
  }
}
