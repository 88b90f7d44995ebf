/**
 * Lookups in the directory tables the reservation views consult: customer
 * profiles, stores and pets. Each filter keeps table order, so `Get` over it is
 * the Django `get()` of the same query.
 */
module Directory {
  import opened Outcomes
  import opened Records

  /** `CustomersProfile.objects.filter(full_name=name, phone=phone)`: the phone
      column is nullable, and a null phone never equals a given one. */
  function ProfilesMatching(profiles: seq<CustomerProfile>, name: string, phone: string): (r: seq<CustomerProfile>)
    ensures forall p :: p in r <==> p in profiles && p.fullName == name && p.phone == Some(phone)
  {
    if |profiles| == 0 then []
    else
      var rest := ProfilesMatching(profiles[1..], name, phone);
      if profiles[0].fullName == name && profiles[0].phone == Some(phone) then [profiles[0]] + rest else rest
  }

  /** `CustomersProfile.objects.filter(user_id=user)`: the column is a plain
      foreign key, so a user may own several profiles. */
  function ProfilesOfUser(profiles: seq<CustomerProfile>, userId: string): (r: seq<CustomerProfile>)
    ensures forall p :: p in r <==> p in profiles && p.userId == userId
  {
    if |profiles| == 0 then []
    else
      var rest := ProfilesOfUser(profiles[1..], userId);
      if profiles[0].userId == userId then [profiles[0]] + rest else rest
  }

  /** `Store.objects.filter(store_name=name)`: store names are not unique. */
  function StoresNamed(stores: seq<StoreRow>, name: string): (r: seq<StoreRow>)
    ensures forall s :: s in r <==> s in stores && s.storeName == name
  {
    if |stores| == 0 then []
    else
      var rest := StoresNamed(stores[1..], name);
      if stores[0].storeName == name then [stores[0]] + rest else rest
  }

  /** `Store.objects.get(id=storeId)`, or `get_object_or_404`: the primary key is
      unique, so the first row with that id is the store. */
  function StoreById(stores: seq<StoreRow>, storeId: nat): (r: Option<StoreRow>)
    ensures r.Some? ==> r.value in stores && r.value.id == storeId
    ensures r.None? <==> forall s :: s in stores ==> s.id != storeId
  {
    if |stores| == 0 then None
    else if stores[0].id == storeId then Some(stores[0])
    else StoreById(stores[1..], storeId)
  }

  /** `Pet.objects.filter(user_id=user, name=name)`. */
  function PetsNamed(pets: seq<Pet>, userId: string, name: string): (r: seq<Pet>)
    ensures forall p :: p in r <==> p in pets && p.userId == userId && p.name == name
  {
    if |pets| == 0 then []
    else
      var rest := PetsNamed(pets[1..], userId, name);
      if pets[0].userId == userId && pets[0].name == name then [pets[0]] + rest else rest
  }

  /** The phone the booking views copy from a profile: `profile.phone or ''`. */
  function PhoneOf(p: CustomerProfile): (s: string)
    ensures s == "" <==> p.phone.None? || p.phone == Some("")
  {
    if p.phone.Some? then p.phone.value else ""
  }
}
