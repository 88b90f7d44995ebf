/**
 * The grooming price calculation the booking page calls before booking: the
 * current view and the first-generation one, which also filters the tier by
 * the pet's species. Both answer the store and the summed price of the
 * selected services for the pet described in the request.
 */
module GroomingCalculation {
  import opened Outcomes
  import opened Records
  import opened Directory
  import opened Pricing
  import opened Database
  import GroomingBooking

  /** `pet_data` from the request; an absent or empty entry is "" or None. */
  datatype PetData = PetData(name: string, species: Option<Species>, furAmount: Option<FurAmount>, size: Option<PetSize>)

  /** The view's `all([...])` over the pet entries. */
  predicate PetComplete(p: PetData)
  {
    p.name != "" && p.species.Some? && p.furAmount.Some? && p.size.Some?
  }

  /** What a successful calculation reports. */
  datatype CostQuote = CostQuote(store: StoreRow, totalPrice: int)

  /** The pricing loop of either view over the selected titles. The older view's
      loop is modelled as written: a title with no tier for the pet adds 0. */
  function TitlesQuote(version: GroomingBooking.Version, catalog: seq<GroomingService>, storeId: nat, titles: seq<string>, p: PetData): Outcome<GroomingQuote>
    requires PetComplete(p)
  {
    match version
    case Current => GroomingTotals(catalog, storeId, titles, p.size.value, p.furAmount.value)
    case Legacy => Accumulate(LegacyPartsAsWritten(catalog, storeId, titles, p.species.value, p.size.value, p.furAmount.value))
  }

  /** `calculate_grooming_cost`. A missing store id, pet data or selection is a
      400. The store is looked up with `get_object_or_404` inside the view's
      `try`, whose only handler is the generic one: a store id that is not a
      number or names no store ends in a 500. An incomplete pet is then a 400,
      and the loop's first failing title decides the rest. `pet` is None for an
      empty or missing `pet_data`. */
  function CalculateGroomingCost(version: GroomingBooking.Version, stores: seq<StoreRow>, catalog: seq<GroomingService>,
                                 storeId: Field<nat>, pet: Option<PetData>, titles: seq<string>): (r: Outcome<CostQuote>)
    ensures r == Fail(BadRequest) <==>
      storeId.Absent? || pet.None? || |titles| == 0
      || (storeId.Given? && StoreById(stores, storeId.value).Some? && !PetComplete(pet.value))
    ensures !storeId.Absent? && pet.Some? && |titles| > 0 && (storeId.Malformed? || StoreById(stores, storeId.value).None?) ==>
      r == Fail(InternalError)
    ensures r.Success? ==> (storeId.Given? && pet.Some? && PetComplete(pet.value) && |titles| > 0
      && StoreById(stores, storeId.value) == Some(r.value.store)
      && TitlesQuote(version, catalog, storeId.value, titles, pet.value).Success?
      && r.value.totalPrice == TitlesQuote(version, catalog, storeId.value, titles, pet.value).value.price)
    ensures (storeId.Given? && pet.Some? && |titles| > 0 && StoreById(stores, storeId.value).Some? && PetComplete(pet.value)
             && TitlesQuote(version, catalog, storeId.value, titles, pet.value).Fail?) ==>
      r == Fail(TitlesQuote(version, catalog, storeId.value, titles, pet.value).failure)
    ensures (storeId.Given? && pet.Some? && |titles| > 0 && StoreById(stores, storeId.value).Some? && PetComplete(pet.value)
             && TitlesQuote(version, catalog, storeId.value, titles, pet.value).Success?) ==>
      r.Success?
    ensures r.Fail? ==> r.failure != Conflict
  {
    if storeId.Absent? || pet.None? || |titles| == 0 then Fail(BadRequest)
    else if storeId.Malformed? then Fail(InternalError)
    else match StoreById(stores, storeId.value)
      case None => Fail(InternalError)
      case Some(s) =>
        if !PetComplete(pet.value) then Fail(BadRequest)
        else
          var q := TitlesQuote(version, catalog, storeId.value, titles, pet.value);
          AccumulateOutcome(ServiceParts(catalog, storeId.value, titles, pet.value.size.value, pet.value.furAmount.value));
          LegacyCalculationVersusBooking(catalog, storeId.value, titles, pet.value.species.value, pet.value.size.value, pet.value.furAmount.value);
          if q.Fail? then Fail(q.failure) else Success(CostQuote(s, q.value.price))
  }

  /** The calculation against the booking view of the same generation, for a
      pet with the same species, size and fur. The current calculation quotes
      exactly what its booking would. The older calculation agrees with its
      booking wherever the booking's quote succeeds, but where every title
      names one service and some has no tier for the pet, the booking answers
      404 while the calculation answers a price that leaves that title out. */
  lemma CalculationAgreesWithBooking(version: GroomingBooking.Version, catalog: seq<GroomingService>, storeId: nat,
                                     titles: seq<string>, p: PetData, pet: Pet)
    requires PetComplete(p)
    requires pet.species == p.species.value && pet.size == p.size.value && pet.furAmount == p.furAmount.value
    ensures version.Current? ==>
      TitlesQuote(version, catalog, storeId, titles, p) == GroomingBooking.Quote(version, catalog, storeId, titles, pet)
    ensures GroomingBooking.Quote(version, catalog, storeId, titles, pet).Success? ==>
      TitlesQuote(version, catalog, storeId, titles, p) == GroomingBooking.Quote(version, catalog, storeId, titles, pet)
    ensures version.Legacy? ==>
      ((TitlesQuote(version, catalog, storeId, titles, p).Success? && GroomingBooking.Quote(version, catalog, storeId, titles, pet).Fail?) <==>
       (forall i :: 0 <= i < |titles| ==> ServiceLookup(catalog, storeId, titles[i]).One?)
       && exists i :: 0 <= i < |titles| && SpeciesTierFor(ServiceLookup(catalog, storeId, titles[i]).row, pet.species, pet.size, pet.furAmount).None?)
  {
    LegacyCalculationVersusBooking(catalog, storeId, titles, pet.species, pet.size, pet.furAmount);
  }

  /** Only a missing tier (current view) or an unknown title fails the loop with
      a 404; a title naming several services fails it with a 500. The older loop
      succeeds exactly when every title names one service of the store. */
  lemma CalculationFailures(version: GroomingBooking.Version, catalog: seq<GroomingService>, storeId: nat, titles: seq<string>, p: PetData)
    requires PetComplete(p)
    ensures TitlesQuote(version, catalog, storeId, titles, p).Fail? ==>
      TitlesQuote(version, catalog, storeId, titles, p).failure in {NotFound, InternalError}
    ensures version.Current? ==>
      (TitlesQuote(version, catalog, storeId, titles, p).Success? <==>
       forall i :: 0 <= i < |titles| ==> ServicePart(catalog, storeId, titles[i], p.size.value, p.furAmount.value).Success?)
    ensures version.Legacy? ==>
      (TitlesQuote(version, catalog, storeId, titles, p).Success? <==>
       forall i :: 0 <= i < |titles| ==> ServiceLookup(catalog, storeId, titles[i]).One?)
  {
    var ps := ServiceParts(catalog, storeId, titles, p.size.value, p.furAmount.value);
    AccumulateOutcome(ps);
    LegacyCalculationVersusBooking(catalog, storeId, titles, p.species.value, p.size.value, p.furAmount.value);
    GroomingTotalsOutcome(catalog, storeId, titles, p.size.value, p.furAmount.value);
    if version.Current? && Accumulate(ps).Fail? {
      var i :| 0 <= i < |ps| && ps[i] == Fail(Accumulate(ps).failure) && forall j :: 0 <= j < i ==> ps[j].Success?;
      assert ps[i] == ServicePart(catalog, storeId, titles[i], p.size.value, p.furAmount.value);
    }
  }

  /** The calculation view on the database. */
  method CalculateCost(db: Db, version: GroomingBooking.Version, storeId: Field<nat>, pet: Option<PetData>, titles: seq<string>)
    returns (r: Outcome<CostQuote>)
    ensures r == CalculateGroomingCost(version, db.stores, db.groomingServices, storeId, pet, titles)
  {
    if storeId.Absent? || pet.None? || |titles| == 0 {
      return Fail(BadRequest);
    }
    if storeId.Malformed? {
      return Fail(InternalError);
    }
    var store := StoreById(db.stores, storeId.value);
    if store.None? {
      return Fail(InternalError);
    }
    var p := pet.value;
    if !PetComplete(p) {
      return Fail(BadRequest);
    }
    var q;
    if version.Current? {
      q := SumSelectedServices(db.groomingServices, storeId.value, titles, p.size.value, p.furAmount.value);
    } else {
      q := SumLegacyPartsAsWritten(db.groomingServices, storeId.value, titles, p.species.value, p.size.value, p.furAmount.value);
    }
    if q.Fail? {
      return Fail(q.failure);
    }
    r := Success(CostQuote(store.value, q.value.price));
  }
}
