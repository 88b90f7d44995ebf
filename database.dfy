/**
 * The database the views work on, one `seq` field per table in primary-key
 * order. The views read and save rows in place; here a save reassigns the
 * table field with the row replaced or appended.
 */
module Database {
  import opened Records

  class Db {
    var groomings: seq<Reservation>               // reservation_grooming
    var boardings: seq<Reservation>               // reservation_boarding
    var groomingSlots: seq<GroomingScheduleRow>   // grooming_schedules
    var boardingSlots: seq<BoardingScheduleRow>   // boarding schedules
    var orders: seq<Order>
    var nextOrderId: nat                          // the next auto-increment order id
    var coupons: seq<Coupon>
    var users: seq<string>                        // user ids of the users table
    var profiles: seq<CustomerProfile>
    var stores: seq<StoreRow>
    var nextStoreId: nat                          // the next auto-increment store id
    var images: seq<StoreImage>                   // store images
    var pets: seq<Pet>
    var groomingServices: seq<GroomingService>
    var roomTypes: seq<RoomType>

    /** A database holding the given tables. */
    constructor (groomings: seq<Reservation>, boardings: seq<Reservation>,
                 groomingSlots: seq<GroomingScheduleRow>, boardingSlots: seq<BoardingScheduleRow>,
                 orders: seq<Order>, nextOrderId: nat, coupons: seq<Coupon>, users: seq<string>,
                 profiles: seq<CustomerProfile>, stores: seq<StoreRow>, nextStoreId: nat, images: seq<StoreImage>, pets: seq<Pet>,
                 groomingServices: seq<GroomingService>, roomTypes: seq<RoomType>)
      ensures this.groomings == groomings && this.boardings == boardings
      ensures this.groomingSlots == groomingSlots && this.boardingSlots == boardingSlots
      ensures this.orders == orders && this.nextOrderId == nextOrderId && this.coupons == coupons
      ensures this.users == users && this.profiles == profiles && this.stores == stores && this.pets == pets
      ensures this.nextStoreId == nextStoreId && this.images == images
      ensures this.groomingServices == groomingServices && this.roomTypes == roomTypes
    {
      this.groomings := groomings;
      this.boardings := boardings;
      this.groomingSlots := groomingSlots;
      this.boardingSlots := boardingSlots;
      this.orders := orders;
      this.nextOrderId := nextOrderId;
      this.coupons := coupons;
      this.users := users;
      this.profiles := profiles;
      this.stores := stores;
      this.nextStoreId := nextStoreId;
      this.images := images;
      this.pets := pets;
      this.groomingServices := groomingServices;
      this.roomTypes := roomTypes;
    }
  }
}
