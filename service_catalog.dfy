/**
 * The service catalogue serializers: the shortest and longest grooming times a
 * service lists, and create and update of grooming services and boarding room
 * types, whose pricing tiers are always replaced wholesale by the submitted
 * list.
 */
module ServiceCatalog {
  import opened Outcomes
  import opened Records
  import opened Database

  /** `get_duration_min`: the shortest tier duration, None without tiers. */
  function DurationMin(tiers: seq<GroomingTier>): (r: Option<int>)
    ensures r.None? <==> |tiers| == 0
    ensures r.Some? ==> exists t :: t in tiers && t.groomingDuration == r.value
    ensures r.Some? ==> forall t :: t in tiers ==> r.value <= t.groomingDuration
  {
    if |tiers| == 0 then None
    else
      var rest := DurationMin(tiers[1..]);
      if rest.None? || tiers[0].groomingDuration <= rest.value then Some(tiers[0].groomingDuration) else rest
  }

  /** `get_duration_max`: the longest tier duration, None without tiers. */
  function DurationMax(tiers: seq<GroomingTier>): (r: Option<int>)
    ensures r.None? <==> |tiers| == 0
    ensures r.Some? ==> exists t :: t in tiers && t.groomingDuration == r.value
    ensures r.Some? ==> forall t :: t in tiers ==> t.groomingDuration <= r.value
  {
    if |tiers| == 0 then None
    else
      var rest := DurationMax(tiers[1..]);
      if rest.None? || tiers[0].groomingDuration >= rest.value then Some(tiers[0].groomingDuration) else rest
  }

  /** Both bounds exist together, and the shortest is never longer than the longest. */
  lemma DurationRange(tiers: seq<GroomingTier>)
    ensures DurationMin(tiers).Some? == DurationMax(tiers).Some?
    ensures DurationMin(tiers).Some? ==> DurationMin(tiers).value <= DurationMax(tiers).value
  {
    if |tiers| > 0 {
      assert tiers[0] in tiers;
    }
  }

  // ---------------------------------------------------------------------------
  // Grooming services
  // ---------------------------------------------------------------------------

  /** The service fields an update may supply; None leaves a field as it is. */
  datatype GroomingPatch = GroomingPatch(species: Option<Species>, title: Option<string>)

  /** The update's `setattr` loop, then the tier list replaced by the submitted one. */
  function UpdatedService(s: GroomingService, patch: GroomingPatch, pricings: seq<GroomingTier>): GroomingService
  {
    GroomingService(s.storeId,
                    if patch.species.Some? then patch.species.value else s.species,
                    if patch.title.Some? then patch.title.value else s.title,
                    pricings)
  }

  /** An update keeps the store, takes each supplied field and no other, and leaves
      exactly the submitted tiers, so omitting the tiers deletes them all; the
      duration bounds then come from the submitted tiers alone. */
  lemma UpdatedServiceShape(s: GroomingService, patch: GroomingPatch, pricings: seq<GroomingTier>)
    ensures var u := UpdatedService(s, patch, pricings);
      && u.storeId == s.storeId && u.tiers == pricings
      && (patch.species.Some? ==> u.species == patch.species.value) && (patch.species.None? ==> u.species == s.species)
      && (patch.title.Some? ==> u.title == patch.title.value) && (patch.title.None? ==> u.title == s.title)
      && DurationMin(u.tiers) == DurationMin(pricings) && (|pricings| == 0 ==> DurationMin(u.tiers).None?)
  {
  }

  /** Repeating an update changes nothing more. */
  lemma UpdateServiceIdempotent(s: GroomingService, patch: GroomingPatch, pricings: seq<GroomingTier>)
    ensures UpdatedService(UpdatedService(s, patch, pricings), patch, pricings) == UpdatedService(s, patch, pricings)
  {
  }

  /** `create`: save the service, then one tier per submitted entry, in order. */
  method CreateGroomingService(db: Db, storeId: nat, species: Species, title: string, pricings: seq<GroomingTier>)
    returns (i: nat)
    modifies db`groomingServices
    ensures i == |old(db.groomingServices)|
    ensures db.groomingServices == old(db.groomingServices) + [GroomingService(storeId, species, title, pricings)]
  {
    i := |db.groomingServices|;
    db.groomingServices := db.groomingServices + [GroomingService(storeId, species, title, [])];
    for k := 0 to |pricings|
      invariant db.groomingServices == old(db.groomingServices) + [GroomingService(storeId, species, title, pricings[..k])]
    {
      assert pricings[..k + 1] == pricings[..k] + [pricings[k]];
      var s := db.groomingServices[i];
      db.groomingServices := db.groomingServices[i := s.(tiers := s.tiers + [pricings[k]])];
    }
    assert pricings[..|pricings|] == pricings;
  }

  /** `update`: overwrite the supplied fields, delete every tier of the service,
      then create the submitted ones in order. */
  method UpdateGroomingService(db: Db, i: nat, patch: GroomingPatch, pricings: seq<GroomingTier>)
    requires i < |db.groomingServices|
    modifies db`groomingServices
    ensures db.groomingServices == old(db.groomingServices)[i := UpdatedService(old(db.groomingServices)[i], patch, pricings)]
  {
    var s := db.groomingServices[i];
    if patch.species.Some? {
      s := s.(species := patch.species.value);
    }
    if patch.title.Some? {
      s := s.(title := patch.title.value);
    }
    db.groomingServices := db.groomingServices[i := s.(tiers := [])];
    for k := 0 to |pricings|
      invariant db.groomingServices == old(db.groomingServices)[i := s.(tiers := pricings[..k])]
    {
      assert pricings[..k + 1] == pricings[..k] + [pricings[k]];
      db.groomingServices := db.groomingServices[i := s.(tiers := db.groomingServices[i].tiers + [pricings[k]])];
    }
    assert pricings[..|pricings|] == pricings;
  }

  // ---------------------------------------------------------------------------
  // Boarding room types
  // ---------------------------------------------------------------------------

  /** The room type fields an update may supply. */
  datatype RoomPatch = RoomPatch(species: Option<Species>, name: Option<string>, roomCount: Option<int>, petAvailableAmount: Option<int>)

  function UpdatedRoom(t: RoomType, patch: RoomPatch, pricings: seq<BoardingTier>): RoomType
  {
    RoomType(t.storeId,
             if patch.species.Some? then patch.species.value else t.species,
             if patch.name.Some? then patch.name.value else t.name,
             if patch.roomCount.Some? then patch.roomCount.value else t.roomCount,
             if patch.petAvailableAmount.Some? then patch.petAvailableAmount.value else t.petAvailableAmount,
             pricings)
  }

  /** An update keeps the store and leaves exactly the submitted tiers; each
      supplied field is taken and each other one kept. */
  lemma UpdatedRoomShape(t: RoomType, patch: RoomPatch, pricings: seq<BoardingTier>)
    ensures var u := UpdatedRoom(t, patch, pricings);
      && u.storeId == t.storeId && u.tiers == pricings
      && (patch.name.None? ==> u.name == t.name) && (patch.name.Some? ==> u.name == patch.name.value)
      && (patch.roomCount.None? ==> u.roomCount == t.roomCount) && (patch.roomCount.Some? ==> u.roomCount == patch.roomCount.value)
      && UpdatedRoom(u, patch, pricings) == u
  {
  }

  /** `create`: save the room type, then one tier per submitted entry. */
  method CreateRoomType(db: Db, storeId: nat, species: Species, name: string, roomCount: int, petAvailableAmount: int,
                        pricings: seq<BoardingTier>) returns (i: nat)
    modifies db`roomTypes
    ensures i == |old(db.roomTypes)|
    ensures db.roomTypes == old(db.roomTypes) + [RoomType(storeId, species, name, roomCount, petAvailableAmount, pricings)]
  {
    i := |db.roomTypes|;
    db.roomTypes := db.roomTypes + [RoomType(storeId, species, name, roomCount, petAvailableAmount, [])];
    for k := 0 to |pricings|
      invariant db.roomTypes == old(db.roomTypes) + [RoomType(storeId, species, name, roomCount, petAvailableAmount, pricings[..k])]
    {
      assert pricings[..k + 1] == pricings[..k] + [pricings[k]];
      var t := db.roomTypes[i];
      db.roomTypes := db.roomTypes[i := t.(tiers := t.tiers + [pricings[k]])];
    }
    assert pricings[..|pricings|] == pricings;
  }

  /** `update`: overwrite the supplied fields, delete every tier, recreate the
      submitted ones. */
  method UpdateRoomType(db: Db, i: nat, patch: RoomPatch, pricings: seq<BoardingTier>)
    requires i < |db.roomTypes|
    modifies db`roomTypes
    ensures db.roomTypes == old(db.roomTypes)[i := UpdatedRoom(old(db.roomTypes)[i], patch, pricings)]
  {
    var t := db.roomTypes[i];
    if patch.species.Some? {
      t := t.(species := patch.species.value);
    }
    if patch.name.Some? {
      t := t.(name := patch.name.value);
    }
    if patch.roomCount.Some? {
      t := t.(roomCount := patch.roomCount.value);
    }
    if patch.petAvailableAmount.Some? {
      t := t.(petAvailableAmount := patch.petAvailableAmount.value);
    }
    db.roomTypes := db.roomTypes[i := t.(tiers := [])];
    for k := 0 to |pricings|
      invariant db.roomTypes == old(db.roomTypes)[i := t.(tiers := pricings[..k])]
    {
      assert pricings[..k + 1] == pricings[..k] + [pricings[k]];
      db.roomTypes := db.roomTypes[i := t.(tiers := db.roomTypes[i].tiers + [pricings[k]])];
    }
    assert pricings[..|pricings|] == pricings;
  }
}
