/**
 * Price and duration quotes: the grooming totals of the booking and calculation
 * views, the older species-filtered quote of the first-generation views, and the
 * boarding tier choice.
 */
module Pricing {
  import opened Outcomes
  import opened Tables
  import opened Records

  // ---------------------------------------------------------------------------
  // Grooming
  // ---------------------------------------------------------------------------

  /** Price and duration accumulated over the selected services. */
  datatype GroomingQuote = GroomingQuote(price: int, duration: int)

  /** `GroomingService.objects.get(service_title=title, store_id=store)`. */
  function ServiceLookup(catalog: seq<GroomingService>, storeId: nat, title: string): (r: Lookup<GroomingService>)
    ensures r.One? ==> r.row in catalog && r.row.storeId == storeId && r.row.title == title
  {
    Get(ServicesTitled(catalog, storeId, title))
  }

  /** The services of a store with a given title, in table order. */
  function ServicesTitled(catalog: seq<GroomingService>, storeId: nat, title: string): (r: seq<GroomingService>)
    ensures forall s :: s in r ==> s in catalog && s.storeId == storeId && s.title == title
  {
    if |catalog| == 0 then []
    else
      var rest := ServicesTitled(catalog[1..], storeId, title);
      if catalog[0].storeId == storeId && catalog[0].title == title then [catalog[0]] + rest else rest
  }

  /** `GroomingServicePricing.objects.filter(service, pet_size, fur_amount).first()`. */
  function TierFor(tiers: seq<GroomingTier>, size: PetSize, fur: FurAmount): (r: Option<GroomingTier>)
    ensures r.Some? ==> r.value in tiers && r.value.petSize == size && r.value.furAmount == fur
    ensures r.None? <==> forall t :: t in tiers ==> !(t.petSize == size && t.furAmount == fur)
  {
    First(tiers, (t: GroomingTier) => t.petSize == size && t.furAmount == fur)
  }

  /** What one selected title adds to the quote: the price and minutes of its
      (size, fur) tier. An unknown title or a missing tier is a 404; a title that
      names several services of the store makes the lookup raise, which the view's
      generic handler turns into a 500. */
  function ServicePart(catalog: seq<GroomingService>, storeId: nat, title: string, size: PetSize, fur: FurAmount): Outcome<GroomingQuote>
  {
    match ServiceLookup(catalog, storeId, title)
    case Missing => Fail(NotFound)
    case Many => Fail(InternalError)
    case One(s) =>
      match TierFor(s.tiers, size, fur)
      case None => Fail(NotFound)
      case Some(t) => Success(GroomingQuote(t.pricing, t.groomingDuration))
  }

  /** Quotes of the selected titles, adding up left to right; the first part that
      fails decides the failure. */
  function Accumulate(parts: seq<Outcome<GroomingQuote>>): Outcome<GroomingQuote>
  {
    if |parts| == 0 then Success(GroomingQuote(0, 0))
    else
      match parts[0]
      case Fail(f) => Fail(f)
      case Success(p) =>
        match Accumulate(parts[1..])
        case Fail(f) => Fail(f)
        case Success(q) => Success(GroomingQuote(p.price + q.price, p.duration + q.duration))
  }

  /** One more part extends the accumulated quote by that part. */
  lemma {:induction false} AccumulateSnoc(parts: seq<Outcome<GroomingQuote>>, part: Outcome<GroomingQuote>)
    ensures Accumulate(parts + [part]) ==
      match Accumulate(parts)
      case Fail(f) => Fail(f)
      case Success(q) =>
        match part
        case Fail(f) => Fail(f)
        case Success(p) => Success(GroomingQuote(q.price + p.price, q.duration + p.duration))
  {
    if |parts| == 0 {
      assert parts + [part] == [part];
      assert [part][1..] == [];
    } else {
      assert (parts + [part])[1..] == parts[1..] + [part];
      AccumulateSnoc(parts[1..], part);
    }
  }

  /** The quote succeeds exactly when every part does; otherwise its failure is that
      of the first part that fails. */
  lemma {:induction false} AccumulateOutcome(parts: seq<Outcome<GroomingQuote>>)
    ensures Accumulate(parts).Success? <==> forall i :: 0 <= i < |parts| ==> parts[i].Success?
    ensures Accumulate(parts).Fail? ==>
      exists i :: 0 <= i < |parts| && parts[i] == Fail(Accumulate(parts).failure)
        && forall j :: 0 <= j < i ==> parts[j].Success?
  {
    if |parts| > 0 {
      var rest := parts[1..];
      AccumulateOutcome(rest);
      if parts[0].Success? {
        forall i | 0 < i < |parts|
          ensures parts[i] == rest[i - 1]
        {
        }
        if Accumulate(parts).Fail? {
          var i :| 0 <= i < |rest| && rest[i] == Fail(Accumulate(parts).failure)
            && forall j :: 0 <= j < i ==> rest[j].Success?;
          forall j | 0 <= j < i + 1
            ensures parts[j].Success?
          {
            if j > 0 { assert parts[j] == rest[j - 1]; }
          }
          assert parts[i + 1] == rest[i];
        }
      }
    }
  }

  /** Two successful selections, one after the other, cost the sum of both quotes. */
  lemma {:induction false} AccumulateConcat(a: seq<Outcome<GroomingQuote>>, b: seq<Outcome<GroomingQuote>>)
    requires Accumulate(a).Success? && Accumulate(b).Success?
    ensures Accumulate(a + b) == Success(GroomingQuote(
      Accumulate(a).value.price + Accumulate(b).value.price,
      Accumulate(a).value.duration + Accumulate(b).value.duration))
  {
    if |a| == 0 {
      assert a + b == b;
    } else {
      assert (a + b)[1..] == a[1..] + b;
      AccumulateConcat(a[1..], b);
    }
  }

  /** A failing prefix fails the whole sequence with the same failure. */
  lemma {:induction false} AccumulatePrefixFails(parts: seq<Outcome<GroomingQuote>>, n: nat)
    requires n <= |parts|
    requires Accumulate(parts[..n]).Fail?
    ensures Accumulate(parts) == Accumulate(parts[..n])
  {
    assert n > 0;
    assert parts[..n][1..] == parts[1..][..n - 1];
    if parts[0].Success? {
      AccumulatePrefixFails(parts[1..], n - 1);
    }
  }

  /** One step of an accumulating loop: after a failing part the whole quote fails
      with that part's failure, after a successful one the running totals grow by it. */
  lemma AccumulateStep(parts: seq<Outcome<GroomingQuote>>, i: nat, price: int, duration: int)
    requires i < |parts|
    requires Accumulate(parts[..i]) == Success(GroomingQuote(price, duration))
    ensures parts[i].Fail? ==> Accumulate(parts) == Fail(parts[i].failure)
    ensures parts[i].Success? ==>
      Accumulate(parts[..i + 1]) == Success(GroomingQuote(price + parts[i].value.price, duration + parts[i].value.duration))
  {
    AccumulateSnoc(parts[..i], parts[i]);
    assert parts[..i + 1] == parts[..i] + [parts[i]];
    if parts[i].Fail? {
      AccumulatePrefixFails(parts, i + 1);
    }
  }

  /** The parts of the current views, one per selected title. */
  function ServiceParts(catalog: seq<GroomingService>, storeId: nat, titles: seq<string>, size: PetSize, fur: FurAmount): (ps: seq<Outcome<GroomingQuote>>)
    ensures |ps| == |titles|
    ensures forall i :: 0 <= i < |titles| ==> ps[i] == ServicePart(catalog, storeId, titles[i], size, fur)
  {
    seq(|titles|, i requires 0 <= i < |titles| => ServicePart(catalog, storeId, titles[i], size, fur))
  }

  /** Totals over the selected titles: price and minutes of the (size, fur) tier of
      each, summed. */
  function GroomingTotals(catalog: seq<GroomingService>, storeId: nat, titles: seq<string>, size: PetSize, fur: FurAmount): Outcome<GroomingQuote>
  {
    Accumulate(ServiceParts(catalog, storeId, titles, size, fur))
  }

  /** The totals succeed exactly when every selected title names one service of the
      store with a tier for the pet's size and fur, and then they are the sums of
      those tiers; a failure is that of the first failing title. */
  lemma GroomingTotalsOutcome(catalog: seq<GroomingService>, storeId: nat, titles: seq<string>, size: PetSize, fur: FurAmount)
    ensures GroomingTotals(catalog, storeId, titles, size, fur).Success? <==>
      forall i :: 0 <= i < |titles| ==> ServicePart(catalog, storeId, titles[i], size, fur).Success?
    ensures GroomingTotals(catalog, storeId, titles, size, fur).Fail? ==>
      exists i :: 0 <= i < |titles|
        && ServicePart(catalog, storeId, titles[i], size, fur) == Fail(GroomingTotals(catalog, storeId, titles, size, fur).failure)
        && forall j :: 0 <= j < i ==> ServicePart(catalog, storeId, titles[j], size, fur).Success?
  {
    var ps := ServiceParts(catalog, storeId, titles, size, fur);
    AccumulateOutcome(ps);
    if Accumulate(ps).Fail? {
      var i :| 0 <= i < |ps| && ps[i] == Fail(Accumulate(ps).failure) && forall j :: 0 <= j < i ==> ps[j].Success?;
      assert ServicePart(catalog, storeId, titles[i], size, fur) == Fail(Accumulate(ps).failure);
    }
  }

  /** Selecting one more title adds exactly its tier's price and minutes. */
  lemma GroomingTotalsAddTitle(catalog: seq<GroomingService>, storeId: nat, titles: seq<string>, title: string, size: PetSize, fur: FurAmount)
    requires GroomingTotals(catalog, storeId, titles, size, fur).Success?
    requires ServicePart(catalog, storeId, title, size, fur).Success?
    ensures GroomingTotals(catalog, storeId, titles + [title], size, fur) == Success(GroomingQuote(
      GroomingTotals(catalog, storeId, titles, size, fur).value.price + ServicePart(catalog, storeId, title, size, fur).value.price,
      GroomingTotals(catalog, storeId, titles, size, fur).value.duration + ServicePart(catalog, storeId, title, size, fur).value.duration))
  {
    var ps := ServiceParts(catalog, storeId, titles, size, fur);
    var part := ServicePart(catalog, storeId, title, size, fur);
    var longer := ServiceParts(catalog, storeId, titles + [title], size, fur);
    forall i | 0 <= i < |longer|
      ensures longer[i] == (ps + [part])[i]
    {
      assert (titles + [title])[i] == if i < |titles| then titles[i] else title;
    }
    assert longer == ps + [part];
    AccumulateSnoc(ps, part);
  }

  /** One iteration of that loop: look the service up, then its (size, fur) tier. */
  method QuoteTitle(catalog: seq<GroomingService>, storeId: nat, title: string, size: PetSize, fur: FurAmount)
    returns (r: Outcome<GroomingQuote>)
    ensures r == ServicePart(catalog, storeId, title, size, fur)
  {
    var lookup := ServiceLookup(catalog, storeId, title);
    if lookup.Missing? {
      return Fail(NotFound);
    } else if lookup.Many? {
      return Fail(InternalError);
    }
    var tier := TierFor(lookup.row.tiers, size, fur);
    if tier.None? {
      return Fail(NotFound);
    }
    return Success(GroomingQuote(tier.value.pricing, tier.value.groomingDuration));
  }

  /** The accumulating loop of the grooming calculation and booking views: add each
      title's tier price and duration, returning at the first failure. */
  method SumSelectedServices(catalog: seq<GroomingService>, storeId: nat, titles: seq<string>, size: PetSize, fur: FurAmount)
    returns (r: Outcome<GroomingQuote>)
    ensures r == GroomingTotals(catalog, storeId, titles, size, fur)
  {
    ghost var parts := ServiceParts(catalog, storeId, titles, size, fur);
    var totalPrice := 0;
    var totalDuration := 0;
    for i := 0 to |titles|
      invariant Accumulate(parts[..i]) == Success(GroomingQuote(totalPrice, totalDuration))
    {
      var part := QuoteTitle(catalog, storeId, titles[i], size, fur);
      AccumulateStep(parts, i, totalPrice, totalDuration);
      if part.Fail? {
        return Fail(part.failure);
      }
      totalPrice := totalPrice + part.value.price;
      totalDuration := totalDuration + part.value.duration;
    }
    assert parts[..|titles|] == parts;
    return Success(GroomingQuote(totalPrice, totalDuration));
  }

  // ---------------------------------------------------------------------------
  // First-generation grooming quote (species-filtered)
  // ---------------------------------------------------------------------------

  /** The older views also filter the tier by the service's species. */
  function SpeciesTierFor(service: GroomingService, species: Species, size: PetSize, fur: FurAmount): (r: Option<GroomingTier>)
    ensures r.Some? ==> (service.species == species && r.value in service.tiers
      && r.value.petSize == size && r.value.furAmount == fur)
    ensures r.None? <==> (service.species != species || TierFor(service.tiers, size, fur).None?)
  {
    if service.species == species then TierFor(service.tiers, size, fur) else None
  }

  /** What one title adds in the older views, with the missing-tier 404 returned. */
  function LegacyPart(catalog: seq<GroomingService>, storeId: nat, title: string, species: Species, size: PetSize, fur: FurAmount): Outcome<GroomingQuote>
  {
    match ServiceLookup(catalog, storeId, title)
    case Missing => Fail(NotFound)
    case Many => Fail(InternalError)
    case One(s) =>
      match SpeciesTierFor(s, species, size, fur)
      case None => Fail(NotFound)
      case Some(t) => Success(GroomingQuote(t.pricing, t.groomingDuration))
  }

  /** The same part in the older calculation view AS WRITTEN: a missing tier builds
      a 404 response that is never returned, so the title adds 0. */
  function LegacyPartAsWritten(catalog: seq<GroomingService>, storeId: nat, title: string, species: Species, size: PetSize, fur: FurAmount): Outcome<GroomingQuote>
  {
    match ServiceLookup(catalog, storeId, title)
    case Missing => Fail(NotFound)
    case Many => Fail(InternalError)
    case One(s) =>
      match SpeciesTierFor(s, species, size, fur)
      case None => Success(GroomingQuote(0, 0))
      case Some(t) => Success(GroomingQuote(t.pricing, t.groomingDuration))
  }

  function LegacyParts(catalog: seq<GroomingService>, storeId: nat, titles: seq<string>, species: Species, size: PetSize, fur: FurAmount): (ps: seq<Outcome<GroomingQuote>>)
    ensures |ps| == |titles|
    ensures forall i :: 0 <= i < |titles| ==> ps[i] == LegacyPart(catalog, storeId, titles[i], species, size, fur)
  {
    seq(|titles|, i requires 0 <= i < |titles| => LegacyPart(catalog, storeId, titles[i], species, size, fur))
  }

  function LegacyPartsAsWritten(catalog: seq<GroomingService>, storeId: nat, titles: seq<string>, species: Species, size: PetSize, fur: FurAmount): (ps: seq<Outcome<GroomingQuote>>)
    ensures |ps| == |titles|
    ensures forall i :: 0 <= i < |titles| ==> ps[i] == LegacyPartAsWritten(catalog, storeId, titles[i], species, size, fur)
  {
    seq(|titles|, i requires 0 <= i < |titles| => LegacyPartAsWritten(catalog, storeId, titles[i], species, size, fur))
  }

  /** The two parts agree wherever a tier exists, and differ exactly where the
      as-written code prices a missing tier at 0 instead of answering 404. */
  lemma LegacyPartDiffersOnlyOnMissingTier(catalog: seq<GroomingService>, storeId: nat, title: string, species: Species, size: PetSize, fur: FurAmount)
    ensures LegacyPartAsWritten(catalog, storeId, title, species, size, fur) != LegacyPart(catalog, storeId, title, species, size, fur)
      <==> (ServiceLookup(catalog, storeId, title).One?
        && SpeciesTierFor(ServiceLookup(catalog, storeId, title).row, species, size, fur).None?)
    ensures LegacyPart(catalog, storeId, title, species, size, fur).Fail? ==>
      LegacyPart(catalog, storeId, title, species, size, fur).failure == NotFound
      || LegacyPart(catalog, storeId, title, species, size, fur).failure == InternalError
  {
  }

  /** With the intended 404 a successful older quote means every title had a tier for
      the pet's species, size and fur, and the as-written code then agrees. */
  lemma LegacyQuoteSound(catalog: seq<GroomingService>, storeId: nat, titles: seq<string>, species: Species, size: PetSize, fur: FurAmount)
    ensures Accumulate(LegacyParts(catalog, storeId, titles, species, size, fur)).Success? ==>
      (forall i :: 0 <= i < |titles| ==>
        ServiceLookup(catalog, storeId, titles[i]).One?
        && SpeciesTierFor(ServiceLookup(catalog, storeId, titles[i]).row, species, size, fur).Some?)
      && LegacyPartsAsWritten(catalog, storeId, titles, species, size, fur) == LegacyParts(catalog, storeId, titles, species, size, fur)
  {
    var ps := LegacyParts(catalog, storeId, titles, species, size, fur);
    AccumulateOutcome(ps);
    if Accumulate(ps).Success? {
      forall i | 0 <= i < |titles|
        ensures LegacyPartsAsWritten(catalog, storeId, titles, species, size, fur)[i] == ps[i]
      {
        assert ps[i].Success?;
      }
    }
  }

  /** The input that shows the unreturned 404: a store's only "bath" service, for
      dogs, has no tier at all. The as-written quote for a dog is 0 where a 404 was
      meant. */
  lemma LegacyMissingTierPricedAtZero()
    ensures var catalog := [GroomingService(1, Dog, "bath", [])];
      && Accumulate(LegacyPartsAsWritten(catalog, 1, ["bath"], Dog, Small, FurShort)) == Success(GroomingQuote(0, 0))
      && Accumulate(LegacyParts(catalog, 1, ["bath"], Dog, Small, FurShort)) == Fail(NotFound)
  {
    var catalog := [GroomingService(1, Dog, "bath", [])];
    assert ServicesTitled(catalog, 1, "bath") == catalog by {
      assert catalog[1..] == [];
    }
    assert ServiceLookup(catalog, 1, "bath") == One(catalog[0]);
    var w := LegacyPartsAsWritten(catalog, 1, ["bath"], Dog, Small, FurShort);
    var c := LegacyParts(catalog, 1, ["bath"], Dog, Small, FurShort);
    assert w == [Success(GroomingQuote(0, 0))];
    assert c == [Fail(NotFound)];
    assert w[1..] == [];
  }

  /** One iteration of the older loops: the service, then its species-filtered tier. */
  method QuoteLegacyTitle(catalog: seq<GroomingService>, storeId: nat, title: string, species: Species, size: PetSize, fur: FurAmount)
    returns (r: Outcome<GroomingQuote>)
    ensures r == LegacyPart(catalog, storeId, title, species, size, fur)
  {
    var lookup := ServiceLookup(catalog, storeId, title);
    if lookup.Missing? {
      return Fail(NotFound);
    } else if lookup.Many? {
      return Fail(InternalError);
    }
    var tier := SpeciesTierFor(lookup.row, species, size, fur);
    if tier.None? {
      return Fail(NotFound);
    }
    return Success(GroomingQuote(tier.value.pricing, tier.value.groomingDuration));
  }

  /** The accumulating loop of the older booking view (minutes), with the
      missing-tier 404 returned. */
  method SumLegacyParts(catalog: seq<GroomingService>, storeId: nat, titles: seq<string>, species: Species, size: PetSize, fur: FurAmount)
    returns (r: Outcome<GroomingQuote>)
    ensures r == Accumulate(LegacyParts(catalog, storeId, titles, species, size, fur))
  {
    ghost var parts := LegacyParts(catalog, storeId, titles, species, size, fur);
    var totalPrice := 0;
    var totalDuration := 0;
    for i := 0 to |titles|
      invariant Accumulate(parts[..i]) == Success(GroomingQuote(totalPrice, totalDuration))
    {
      var part := QuoteLegacyTitle(catalog, storeId, titles[i], species, size, fur);
      AccumulateStep(parts, i, totalPrice, totalDuration);
      if part.Fail? {
        return Fail(part.failure);
      }
      totalPrice := totalPrice + part.value.price;
      totalDuration := totalDuration + part.value.duration;
    }
    assert parts[..|titles|] == parts;
    return Success(GroomingQuote(totalPrice, totalDuration));
  }

  /** One iteration of the older calculation's loop AS WRITTEN: the service, then
      its species-filtered tier, or nothing added when there is no tier. */
  method QuoteLegacyTitleAsWritten(catalog: seq<GroomingService>, storeId: nat, title: string, species: Species, size: PetSize, fur: FurAmount)
    returns (r: Outcome<GroomingQuote>)
    ensures r == LegacyPartAsWritten(catalog, storeId, title, species, size, fur)
  {
    var lookup := ServiceLookup(catalog, storeId, title);
    if lookup.Missing? {
      return Fail(NotFound);
    } else if lookup.Many? {
      return Fail(InternalError);
    }
    var tier := SpeciesTierFor(lookup.row, species, size, fur);
    if tier.None? {
      return Success(GroomingQuote(0, 0));
    }
    return Success(GroomingQuote(tier.value.pricing, tier.value.groomingDuration));
  }

  /** The accumulating loop of the older calculation view (prices) AS WRITTEN. */
  method SumLegacyPartsAsWritten(catalog: seq<GroomingService>, storeId: nat, titles: seq<string>, species: Species, size: PetSize, fur: FurAmount)
    returns (r: Outcome<GroomingQuote>)
    ensures r == Accumulate(LegacyPartsAsWritten(catalog, storeId, titles, species, size, fur))
  {
    ghost var parts := LegacyPartsAsWritten(catalog, storeId, titles, species, size, fur);
    var totalPrice := 0;
    var totalDuration := 0;
    for i := 0 to |titles|
      invariant Accumulate(parts[..i]) == Success(GroomingQuote(totalPrice, totalDuration))
    {
      var part := QuoteLegacyTitleAsWritten(catalog, storeId, titles[i], species, size, fur);
      AccumulateStep(parts, i, totalPrice, totalDuration);
      if part.Fail? {
        return Fail(part.failure);
      }
      totalPrice := totalPrice + part.value.price;
      totalDuration := totalDuration + part.value.duration;
    }
    assert parts[..|titles|] == parts;
    return Success(GroomingQuote(totalPrice, totalDuration));
  }

  /** The older calculation (as written) against the older booking's quote: the
      calculation fails only with a 404 or a 500, and succeeds exactly when every
      title names one service of the store; where the booking's quote succeeds
      the two agree; and the calculation answers a price where the booking
      answers a failure exactly when every title names one service and some of
      them has no tier for the pet. */
  lemma LegacyCalculationVersusBooking(catalog: seq<GroomingService>, storeId: nat, titles: seq<string>, species: Species, size: PetSize, fur: FurAmount)
    ensures var w := Accumulate(LegacyPartsAsWritten(catalog, storeId, titles, species, size, fur));
      w.Fail? ==> w.failure == NotFound || w.failure == InternalError
    ensures Accumulate(LegacyPartsAsWritten(catalog, storeId, titles, species, size, fur)).Success? <==>
      forall i :: 0 <= i < |titles| ==> ServiceLookup(catalog, storeId, titles[i]).One?
    ensures Accumulate(LegacyParts(catalog, storeId, titles, species, size, fur)).Success? ==>
      Accumulate(LegacyPartsAsWritten(catalog, storeId, titles, species, size, fur)) == Accumulate(LegacyParts(catalog, storeId, titles, species, size, fur))
    ensures (Accumulate(LegacyPartsAsWritten(catalog, storeId, titles, species, size, fur)).Success?
             && Accumulate(LegacyParts(catalog, storeId, titles, species, size, fur)).Fail?) <==>
      (forall i :: 0 <= i < |titles| ==> ServiceLookup(catalog, storeId, titles[i]).One?)
      && exists i :: 0 <= i < |titles| && SpeciesTierFor(ServiceLookup(catalog, storeId, titles[i]).row, species, size, fur).None?
  {
    var ws := LegacyPartsAsWritten(catalog, storeId, titles, species, size, fur);
    var cs := LegacyParts(catalog, storeId, titles, species, size, fur);
    AccumulateOutcome(ws);
    AccumulateOutcome(cs);
    LegacyQuoteSound(catalog, storeId, titles, species, size, fur);
    if Accumulate(ws).Fail? {
      var i :| 0 <= i < |ws| && ws[i] == Fail(Accumulate(ws).failure) && forall j :: 0 <= j < i ==> ws[j].Success?;
      assert ws[i] == LegacyPartAsWritten(catalog, storeId, titles[i], species, size, fur);
    }
    forall i | 0 <= i < |titles|
      ensures ws[i].Success? <==> ServiceLookup(catalog, storeId, titles[i]).One?
      ensures ServiceLookup(catalog, storeId, titles[i]).One? ==>
        (cs[i].Success? <==> SpeciesTierFor(ServiceLookup(catalog, storeId, titles[i]).row, species, size, fur).Some?)
    {
    }
  }

  /** Where every service of the catalog is for the pet's species, the older quote
      is the current one. */
  lemma LegacyQuoteAgrees(catalog: seq<GroomingService>, storeId: nat, titles: seq<string>, species: Species, size: PetSize, fur: FurAmount)
    requires forall s :: s in catalog ==> s.species == species
    ensures LegacyParts(catalog, storeId, titles, species, size, fur) == ServiceParts(catalog, storeId, titles, size, fur)
  {
    forall i | 0 <= i < |titles|
      ensures LegacyPart(catalog, storeId, titles[i], species, size, fur) == ServicePart(catalog, storeId, titles[i], size, fur)
    {
      var lookup := ServiceLookup(catalog, storeId, titles[i]);
      if lookup.One? {
        assert lookup.row in catalog;
      }
    }
  }

  // ---------------------------------------------------------------------------
  // Boarding
  // ---------------------------------------------------------------------------

  /** Length of a boarding tier in days: a week is 7 days, a month 30. */
  function TierDays(t: BoardingTier): int
  {
    match t.unit
    case Day => t.duration
    case Week => t.duration * 7
    case Month => t.duration * 30
  }

  /** Nights charged: the date difference, and 1 for a same-day or reversed stay. */
  function StayDays(checkinDate: int, checkoutDate: int): (n: int)
    ensures n >= 1
    ensures checkoutDate - checkinDate >= 1 ==> n == checkoutDate - checkinDate
    ensures checkoutDate - checkinDate <= 0 ==> n == 1
  {
    var d := checkoutDate - checkinDate;
    if d <= 0 then 1 else d
  }

  predicate Fits(t: BoardingTier, stay: int) { TierDays(t) <= stay }

  /** The index `max(suitable, key=days)` returns: the first tier of maximal days
      among those that fit, scanning the first `n` tiers. */
  function LongestFitting(tiers: seq<BoardingTier>, stay: int, n: nat): (r: Option<nat>)
    requires n <= |tiers|
    ensures r.Some? ==> r.value < n
  {
    if n == 0 then None
    else
      var best := LongestFitting(tiers, stay, n - 1);
      if !Fits(tiers[n - 1], stay) then best
      else if best.None? || TierDays(tiers[n - 1]) > TierDays(tiers[best.value]) then Some(n - 1)
      else best
  }

  /** The index `min(options, key=days)` returns: the first tier of minimal days. */
  function Shortest(tiers: seq<BoardingTier>, n: nat): (r: Option<nat>)
    requires n <= |tiers|
    ensures r.Some? ==> r.value < n
    ensures r.None? <==> n == 0
  {
    if n == 0 then None
    else
      var best := Shortest(tiers, n - 1);
      if best.None? || TierDays(tiers[n - 1]) < TierDays(tiers[best.value]) then Some(n - 1)
      else best
  }

  /** The tier the boarding calculation prices with. */
  function ChooseTier(tiers: seq<BoardingTier>, stay: int): Option<nat>
  {
    var fit := LongestFitting(tiers, stay, |tiers|);
    if fit.Some? then fit else Shortest(tiers, |tiers|)
  }

  /** The independent description of the choice: the first longest tier not longer
      than the stay, or, when none fits, the first shortest tier. */
  predicate IsTierChoice(tiers: seq<BoardingTier>, stay: int, i: int)
  {
    && 0 <= i < |tiers|
    && if exists j :: 0 <= j < |tiers| && Fits(tiers[j], stay) then
         && Fits(tiers[i], stay)
         && (forall j :: 0 <= j < |tiers| && Fits(tiers[j], stay) ==> TierDays(tiers[j]) <= TierDays(tiers[i]))
         && (forall j :: 0 <= j < i && Fits(tiers[j], stay) ==> TierDays(tiers[j]) < TierDays(tiers[i]))
       else
         && (forall j :: 0 <= j < |tiers| ==> TierDays(tiers[i]) <= TierDays(tiers[j]))
         && (forall j :: 0 <= j < i ==> TierDays(tiers[i]) < TierDays(tiers[j]))
  }

  lemma {:induction false} LongestFittingSpec(tiers: seq<BoardingTier>, stay: int, n: nat)
    requires n <= |tiers|
    ensures LongestFitting(tiers, stay, n).None? <==> forall j :: 0 <= j < n ==> !Fits(tiers[j], stay)
    ensures LongestFitting(tiers, stay, n).Some? ==>
      var i := LongestFitting(tiers, stay, n).value;
      && Fits(tiers[i], stay)
      && (forall j :: 0 <= j < n && Fits(tiers[j], stay) ==> TierDays(tiers[j]) <= TierDays(tiers[i]))
      && (forall j :: 0 <= j < i && Fits(tiers[j], stay) ==> TierDays(tiers[j]) < TierDays(tiers[i]))
  {
    if n > 0 {
      LongestFittingSpec(tiers, stay, n - 1);
    }
  }

  lemma {:induction false} ShortestSpec(tiers: seq<BoardingTier>, n: nat)
    requires n <= |tiers|
    ensures Shortest(tiers, n).Some? ==>
      var i := Shortest(tiers, n).value;
      && (forall j :: 0 <= j < n ==> TierDays(tiers[i]) <= TierDays(tiers[j]))
      && (forall j :: 0 <= j < i ==> TierDays(tiers[i]) < TierDays(tiers[j]))
  {
    if n > 0 {
      ShortestSpec(tiers, n - 1);
    }
  }

  /** A tier is chosen exactly when there are tiers, and it is the one the
      description above singles out. */
  lemma ChooseTierSpec(tiers: seq<BoardingTier>, stay: int)
    ensures ChooseTier(tiers, stay).None? <==> |tiers| == 0
    ensures ChooseTier(tiers, stay).Some? ==> IsTierChoice(tiers, stay, ChooseTier(tiers, stay).value)
  {
    LongestFittingSpec(tiers, stay, |tiers|);
    ShortestSpec(tiers, |tiers|);
  }

  /** The description singles out one tier. */
  lemma TierChoiceUnique(tiers: seq<BoardingTier>, stay: int, i: int, k: int)
    requires IsTierChoice(tiers, stay, i) && IsTierChoice(tiers, stay, k)
    ensures i == k
  {
    if i < k {
      assert false;
    } else if k < i {
      assert false;
    }
  }

  /** The price of a stay. */
  datatype BoardingQuote = BoardingQuote(stayDays: int, tier: BoardingTier, total: int)

  /** The room types of a store with a name and, when given, a species. */
  function RoomTypesNamed(roomTypes: seq<RoomType>, storeId: nat, name: string, species: Option<Species>): (r: seq<RoomType>)
    ensures forall rt :: rt in r ==> rt in roomTypes && rt.storeId == storeId && rt.name == name
  {
    Filter(roomTypes, (rt: RoomType) => rt.storeId == storeId && rt.name == name && (species.None? || rt.species == species.value))
  }

  /** The tiers the calculation collects for the requested room type: several
      matching room types fall back to the first one. */
  function CollectedTiers(matches: seq<RoomType>): Outcome<seq<BoardingTier>>
  {
    match Get(matches)
    case Missing => Fail(NotFound)                                  // no service details
    case One(rt) => if |rt.tiers| == 0 then Fail(BadRequest) else Success(rt.tiers)
    case Many => if |matches[0].tiers| == 0 then Fail(NotFound) else Success(matches[0].tiers)
  }

  /** The boarding cost request: the store id and pet species of the query, the
      room type name ("" when absent) and the four date and time fields, each
      absent, malformed or parsed (day numbers and minutes after midnight). */
  datatype BoardingCostForm = BoardingCostForm(storeId: Field<nat>, species: Option<Species>, roomName: string,
                                               checkinDate: Field<int>, checkinTime: Field<int>,
                                               checkoutDate: Field<int>, checkoutTime: Field<int>)

  /** A required field is missing: the `all([...])` over the four date and time
      fields, then the store id, then the room type. */
  predicate CostFormIncomplete(f: BoardingCostForm)
  {
    f.checkinDate.Absent? || f.checkinTime.Absent? || f.checkoutDate.Absent? || f.checkoutTime.Absent?
    || f.storeId.Absent? || f.roomName == ""
  }

  /** A field the view parses does not parse: a date `strptime` refuses, or a
      store id the key lookup cannot read as a number. Both raise `ValueError`,
      answered with a 400. The times are only checked for presence. */
  predicate CostFormMalformed(f: BoardingCostForm)
  {
    f.checkinDate.Malformed? || f.checkoutDate.Malformed? || f.storeId.Malformed?
  }

  /** The boarding cost calculation. */
  function CalculateBoardingCost(stores: seq<StoreRow>, roomTypes: seq<RoomType>, f: BoardingCostForm): (r: Outcome<BoardingQuote>)
    ensures CostFormIncomplete(f) || CostFormMalformed(f) ==> r == Fail(BadRequest)
    ensures !CostFormIncomplete(f) && !CostFormMalformed(f) && (forall s :: s in stores ==> s.id != f.storeId.value) ==>
      r == Fail(NotFound)
    ensures !CostFormIncomplete(f) && !CostFormMalformed(f) && (exists s :: s in stores && s.id == f.storeId.value) ==>
      (r.Fail? <==> CollectedTiers(RoomTypesNamed(roomTypes, f.storeId.value, f.roomName, f.species)).Fail?)
    ensures r.Fail? ==> r.failure == BadRequest || r.failure == NotFound
    ensures r.Success? ==> r.value.stayDays >= 1 && r.value.total == r.value.stayDays * r.value.tier.pricing
    ensures r.Success? ==> (f.storeId.Given? && f.checkinDate.Given? && f.checkoutDate.Given?
      && !f.checkinTime.Absent? && !f.checkoutTime.Absent?
      && r.value.stayDays == StayDays(f.checkinDate.value, f.checkoutDate.value)
      && exists rt :: rt in roomTypes && rt.storeId == f.storeId.value && rt.name == f.roomName && r.value.tier in rt.tiers)
  {
    if CostFormIncomplete(f) || CostFormMalformed(f) then Fail(BadRequest)
    else if !exists s :: s in stores && s.id == f.storeId.value then Fail(NotFound)
    else
      var stay := StayDays(f.checkinDate.value, f.checkoutDate.value);
      var matches := RoomTypesNamed(roomTypes, f.storeId.value, f.roomName, f.species);
      match CollectedTiers(matches)
      case Fail(e) => Fail(e)
      case Success(tiers) =>
        ChooseTierSpec(tiers, stay);
        var i := ChooseTier(tiers, stay).value;
        assert matches[0] in matches;
        Success(BoardingQuote(stay, tiers[i], stay * tiers[i].pricing))
  }

  /** The priced tier is the one the description of the choice singles out among the
      collected tiers. */
  lemma BoardingCostUsesChosenTier(stores: seq<StoreRow>, roomTypes: seq<RoomType>, f: BoardingCostForm)
    requires CalculateBoardingCost(stores, roomTypes, f).Success?
    ensures var q := CalculateBoardingCost(stores, roomTypes, f).value;
      var tiers := CollectedTiers(RoomTypesNamed(roomTypes, f.storeId.value, f.roomName, f.species)).value;
      exists i :: IsTierChoice(tiers, q.stayDays, i) && q.tier == tiers[i]
  {
    var tiers := CollectedTiers(RoomTypesNamed(roomTypes, f.storeId.value, f.roomName, f.species)).value;
    var stay := StayDays(f.checkinDate.value, f.checkoutDate.value);
    ChooseTierSpec(tiers, stay);
    var i := ChooseTier(tiers, stay).value;
    assert IsTierChoice(tiers, stay, i);
  }
}
