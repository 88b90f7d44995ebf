/**
 * The coupon rules: one coupon per user, the validators of the claim, attach and
 * complete requests, the redemption performed when a reservation is finished, the
 * campaign's remaining count and the per-store coupon revenue.
 */
module Coupons {
  import opened Outcomes
  import opened Records
  import opened Tables
  import opened Decimal
  import opened Directory

  /** The campaign limit reported by the statistics serializer. */
  const TotalLimit: int := 84
  const MaxUserIdLength: int := 64
  const MaxReferenceLength: int := 100
  /** What each used coupon is worth to its store. */
  const CouponValue: int := 50

  /** The one-to-one link between coupons and users. */
  predicate OneCouponPerUser(coupons: seq<Coupon>)
  {
    forall i, j :: 0 <= i < j < |coupons| ==> coupons[i].userId != coupons[j].userId
  }

  predicate HoldsCoupon(coupons: seq<Coupon>, userId: string)
  {
    exists c :: c in coupons && c.userId == userId
  }

  // ---------------------------------------------------------------------------
  // Validators
  // ---------------------------------------------------------------------------

  /** A claim is accepted for a known user id of 1 to 64 characters who holds no
      coupon yet; every rejection is a validation error. */
  function ClaimVerdict(users: seq<string>, coupons: seq<Coupon>, userId: string): (r: Outcome<string>)
    ensures r.Success? ==> r.value == userId
    ensures r.Fail? ==> r.failure == BadRequest
    ensures r.Success? <==> 0 < |userId| <= MaxUserIdLength && userId in users && !HoldsCoupon(coupons, userId)
  {
    if |userId| == 0 || |userId| > MaxUserIdLength then Fail(BadRequest)
    else if userId !in users then Fail(BadRequest)
    else if HoldsCoupon(coupons, userId) then Fail(BadRequest)
    else Success(userId)
  }

  /** Issuing a coupon to an accepted claimant keeps one coupon per user, and any
      claim by a user who already holds one is refused. */
  lemma ClaimKeepsOnePerUser(users: seq<string>, coupons: seq<Coupon>, userId: string, couponNumber: string)
    requires OneCouponPerUser(coupons)
    ensures ClaimVerdict(users, coupons, userId).Success? ==>
      OneCouponPerUser(coupons + [IssuedCoupon(userId, couponNumber)])
    ensures ClaimVerdict(users, coupons + [IssuedCoupon(userId, couponNumber)], userId).Fail?
  {
    var after := coupons + [IssuedCoupon(userId, couponNumber)];
    assert after[|coupons|] in after;
    if ClaimVerdict(users, coupons, userId).Success? {
      forall i, j | 0 <= i < j < |after|
        ensures after[i].userId != after[j].userId
      {
        if j == |coupons| {
          assert after[i] in coupons;
        }
      }
    }
  }

  /** The user's coupons that are still unused. */
  function UnusedCouponsOf(coupons: seq<Coupon>, userId: string): (r: seq<Coupon>)
    ensures forall c :: c in r <==> c in coupons && c.userId == userId && c.status == NotUsed
  {
    if |coupons| == 0 then []
    else
      var rest := UnusedCouponsOf(coupons[1..], userId);
      if coupons[0].userId == userId && coupons[0].status == NotUsed then [coupons[0]] + rest else rest
  }

  /** Attaching a coupon to a reservation: both ids are bounded, the user must
      exist, and `get(user, not_used)` must find the coupon; several matches raise. */
  function AttachVerdict(users: seq<string>, coupons: seq<Coupon>, userId: string, reservationId: string): (r: Outcome<Coupon>)
    ensures r.Success? ==> r.value in coupons && r.value.userId == userId && r.value.status == NotUsed
    ensures r.Success? ==> userId in users && 0 < |userId| <= MaxUserIdLength && 0 < |reservationId| <= MaxReferenceLength
    ensures (forall c :: c in coupons ==> !(c.userId == userId && c.status == NotUsed)) ==> r == Fail(BadRequest)
    ensures r.Success? <==> (0 < |userId| <= MaxUserIdLength && 0 < |reservationId| <= MaxReferenceLength
      && userId in users && |UnusedCouponsOf(coupons, userId)| == 1)
    ensures r.Fail? ==> r.failure == BadRequest || (r.failure == InternalError && |UnusedCouponsOf(coupons, userId)| > 1)
  {
    if |userId| == 0 || |userId| > MaxUserIdLength || |reservationId| == 0 || |reservationId| > MaxReferenceLength then Fail(BadRequest)
    else if userId !in users then Fail(BadRequest)
    else
      var m := UnusedCouponsOf(coupons, userId);
      match Get(m)
      case Missing => Fail(BadRequest)
      case Many => assert m[0] in m; Fail(InternalError)
      case One(c) => Success(c)
  }

  /** With one coupon per user the lookup of the user's unused coupon is never
      ambiguous, so attaching never fails with a server error. */
  lemma {:induction false} AttachNeverAmbiguous(users: seq<string>, coupons: seq<Coupon>, userId: string, reservationId: string)
    requires OneCouponPerUser(coupons)
    ensures AttachVerdict(users, coupons, userId, reservationId) != Fail(InternalError)
  {
    UnusedOfOneUserAtMostOne(coupons, userId);
  }

  lemma {:induction false} UnusedOfOneUserAtMostOne(coupons: seq<Coupon>, userId: string)
    requires OneCouponPerUser(coupons)
    ensures |UnusedCouponsOf(coupons, userId)| <= 1
  {
    if |coupons| > 0 {
      assert OneCouponPerUser(coupons[1..]) by {
        forall i, j | 0 <= i < j < |coupons[1..]|
          ensures coupons[1..][i].userId != coupons[1..][j].userId
        {
          assert coupons[1..][i] == coupons[i + 1] && coupons[1..][j] == coupons[j + 1];
        }
      }
      UnusedOfOneUserAtMostOne(coupons[1..], userId);
      if coupons[0].userId == userId {
        forall c | c in coupons[1..]
          ensures c.userId != userId
        {
          var k :| 0 <= k < |coupons[1..]| && coupons[1..][k] == c;
          assert coupons[k + 1] == c;
        }
        UnusedOfAbsentUser(coupons[1..], userId);
      }
    }
  }

  lemma {:induction false} UnusedOfAbsentUser(coupons: seq<Coupon>, userId: string)
    requires forall c :: c in coupons ==> c.userId != userId
    ensures UnusedCouponsOf(coupons, userId) == []
  {
    if |coupons| > 0 {
      assert coupons[0] in coupons;
      UnusedOfAbsentUser(coupons[1..], userId);
    }
  }

  /** The unused coupons attached to a reservation. */
  function UnusedCouponsFor(coupons: seq<Coupon>, reservationId: string): (r: seq<Coupon>)
    ensures forall c :: c in r <==> c in coupons && c.reservationId == Some(reservationId) && c.status == NotUsed
  {
    if |coupons| == 0 then []
    else
      var rest := UnusedCouponsFor(coupons[1..], reservationId);
      if coupons[0].reservationId == Some(reservationId) && coupons[0].status == NotUsed then [coupons[0]] + rest else rest
  }

  /** Completing an order with a coupon: both ids are bounded and
      `get(reservation_id, not_used)` must find exactly one coupon. */
  function CompleteVerdict(coupons: seq<Coupon>, reservationId: string, orderId: string): (r: Outcome<Coupon>)
    ensures r.Success? ==> r.value in coupons && r.value.reservationId == Some(reservationId) && r.value.status == NotUsed
    ensures r.Success? ==> 0 < |reservationId| <= MaxReferenceLength && 0 < |orderId| <= MaxReferenceLength
    ensures (forall c :: c in coupons ==> !(c.reservationId == Some(reservationId) && c.status == NotUsed)) ==> r == Fail(BadRequest)
    ensures r.Success? <==> (0 < |reservationId| <= MaxReferenceLength && 0 < |orderId| <= MaxReferenceLength
      && |UnusedCouponsFor(coupons, reservationId)| == 1)
    ensures r.Fail? ==> r.failure == BadRequest || (r.failure == InternalError && |UnusedCouponsFor(coupons, reservationId)| > 1)
  {
    if |reservationId| == 0 || |reservationId| > MaxReferenceLength || |orderId| == 0 || |orderId| > MaxReferenceLength then Fail(BadRequest)
    else
      var m := UnusedCouponsFor(coupons, reservationId);
      match Get(m)
      case Missing => Fail(BadRequest)
      case Many => assert m[0] in m; Fail(InternalError)
      case One(c) => Success(c)
  }

  // ---------------------------------------------------------------------------
  // Redemption on finish
  // ---------------------------------------------------------------------------

  /** Positions of the coupons attached to a reservation, whatever their status. */
  function IndicesFor(coupons: seq<Coupon>, reservationId: string, from: nat): (r: seq<nat>)
    requires from <= |coupons|
    ensures forall k :: 0 <= k < |r| ==> from <= r[k] < |coupons| && coupons[r[k]].reservationId == Some(reservationId)
    ensures forall i :: from <= i < |coupons| && coupons[i].reservationId == Some(reservationId) ==> i in r
    decreases |coupons| - from
  {
    if from == |coupons| then []
    else
      var rest := IndicesFor(coupons, reservationId, from + 1);
      if coupons[from].reservationId == Some(reservationId) then [from] + rest else rest
  }

  /** What a finished reservation does to the coupons: `get(reservation_id=...)`
      marks the single attached coupon used with the order id; no coupon, or
      several (whose error is only logged), changes nothing. */
  function Redeem(coupons: seq<Coupon>, reservationId: string, orderId: string): (r: seq<Coupon>)
    ensures |r| == |coupons|
    ensures forall i :: 0 <= i < |coupons| ==>
      r[i] == coupons[i] || (coupons[i].reservationId == Some(reservationId) && r[i] == coupons[i].(status := Used, orderId := Some(orderId)))
    ensures var ix := IndicesFor(coupons, reservationId, 0);
      |ix| == 1 ==> r == coupons[ix[0] := coupons[ix[0]].(status := Used, orderId := Some(orderId))]
    ensures |IndicesFor(coupons, reservationId, 0)| != 1 ==> r == coupons
  {
    match Get(IndicesFor(coupons, reservationId, 0))
    case One(i) => coupons[i := coupons[i].(status := Used, orderId := Some(orderId))]
    case _ => coupons
  }

  /** A coupon redeemed for a reservation cannot complete an order again: once
      the reservation's only coupon is marked used, the complete validator
      rejects every further request for that reservation. */
  lemma SecondCompletionRejected(coupons: seq<Coupon>, reservationId: string, orderId: string, laterOrderId: string)
    requires |IndicesFor(coupons, reservationId, 0)| == 1
    ensures CompleteVerdict(Redeem(coupons, reservationId, orderId), reservationId, laterOrderId) == Fail(BadRequest)
  {
    var ix := IndicesFor(coupons, reservationId, 0);
    var after := Redeem(coupons, reservationId, orderId);
    forall c | c in after
      ensures !(c.reservationId == Some(reservationId) && c.status == NotUsed)
    {
      var k :| 0 <= k < |after| && after[k] == c;
      assert k != ix[0] && c.reservationId == Some(reservationId) ==> k in ix;
    }
  }

  /** Redemption touches no coupon of another reservation and never turns a used
      coupon back into an unused one. */
  lemma RedeemOnlyUses(coupons: seq<Coupon>, reservationId: string, orderId: string, i: nat)
    requires i < |coupons|
    ensures coupons[i].reservationId != Some(reservationId) ==> Redeem(coupons, reservationId, orderId)[i] == coupons[i]
    ensures coupons[i].status == Used ==> Redeem(coupons, reservationId, orderId)[i].status == Used
  {
  }

  // ---------------------------------------------------------------------------
  // Counting
  // ---------------------------------------------------------------------------

  /** Coupons with status `used`, in table order. */
  function UsedCoupons(coupons: seq<Coupon>): (r: seq<Coupon>)
    ensures |r| <= |coupons|
    ensures forall c :: c in r <==> c in coupons && c.status == Used
  {
    if |coupons| == 0 then []
    else
      var rest := UsedCoupons(coupons[1..]);
      if coupons[0].status == Used then [coupons[0]] + rest else rest
  }

  lemma {:induction false} UsedCouponsAppend(a: seq<Coupon>, b: seq<Coupon>)
    ensures UsedCoupons(a + b) == UsedCoupons(a) + UsedCoupons(b)
  {
    if |a| == 0 {
      assert a + b == b;
    } else {
      assert (a + b)[1..] == a[1..] + b;
      UsedCouponsAppend(a[1..], b);
    }
  }

  /** The remaining campaign coupons: the limit minus the used ones, not clamped. */
  function RemainingCoupons(coupons: seq<Coupon>): (r: int)
    ensures r == TotalLimit - Count(coupons, (c: Coupon) => c.status == Used)
  {
    UsedMatchesCount(coupons);
    TotalLimit - |UsedCoupons(coupons)|
  }

  lemma {:induction false} UsedMatchesCount(coupons: seq<Coupon>)
    ensures |UsedCoupons(coupons)| == Count(coupons, (c: Coupon) => c.status == Used)
  {
    if |coupons| > 0 {
      UsedMatchesCount(coupons[1..]);
    }
  }

  /** Unused coupons, wherever they sit in the table, do not change the result. */
  lemma UnusedCouponsIgnored(a: seq<Coupon>, c: Coupon, b: seq<Coupon>)
    requires c.status == NotUsed
    ensures RemainingCoupons(a + [c] + b) == RemainingCoupons(a + b)
  {
    UsedCouponsAppend(a + [c], b);
    UsedCouponsAppend(a, [c]);
    UsedCouponsAppend(a, b);
    assert UsedCoupons([c]) == [] by {
      assert [c][1..] == [];
    }
  }

  /** Marking one unused coupon used lowers the remaining count by exactly one. */
  lemma UsingOneLowersRemainingByOne(coupons: seq<Coupon>, i: nat, c: Coupon)
    requires i < |coupons| && coupons[i].status == NotUsed && c.status == Used
    ensures RemainingCoupons(coupons[i := c]) == RemainingCoupons(coupons) - 1
  {
    var before := coupons[..i] + [coupons[i]] + coupons[i + 1..];
    var after := coupons[..i] + [c] + coupons[i + 1..];
    assert coupons == before;
    assert coupons[i := c] == after;
    UsedCouponsAppend(coupons[..i] + [coupons[i]], coupons[i + 1..]);
    UsedCouponsAppend(coupons[..i], [coupons[i]]);
    UsedCouponsAppend(coupons[..i] + [c], coupons[i + 1..]);
    UsedCouponsAppend(coupons[..i], [c]);
    assert [coupons[i]][1..] == [] && [c][1..] == [];
  }

  /** Past the limit the count goes negative. */
  lemma RemainingNegativePastLimit(coupons: seq<Coupon>)
    requires Count(coupons, (c: Coupon) => c.status == Used) > TotalLimit
    ensures RemainingCoupons(coupons) < 0
  {
  }

  /** Used coupons credited to a store: `filter(store_id=store.id, status=used)`,
      where the character column is compared with the decimal text of the id. */
  function StoreUsedCoupons(coupons: seq<Coupon>, storeId: nat): (r: seq<Coupon>)
    ensures forall c :: c in r <==> c in coupons && c.storeId == Some(Show(storeId)) && c.status == Used
  {
    if |coupons| == 0 then []
    else
      var rest := StoreUsedCoupons(coupons[1..], storeId);
      if coupons[0].storeId == Some(Show(storeId)) && coupons[0].status == Used then [coupons[0]] + rest else rest
  }

  /** The coupon figures of a finish response. */
  datatype CouponTally = CouponTally(count: nat, revenue: int)

  /** The tally as the finish views compute it. When no store has the
      reservation's store name the handler sets only the count, and reading the
      revenue afterwards raises, which the view reports as a 500. */
  function CouponTallyAsWritten(stores: seq<StoreRow>, coupons: seq<Coupon>, storeName: string): (r: Outcome<CouponTally>)
    ensures r.Success? ==> r.value.revenue == CouponValue * r.value.count
    ensures |StoresNamed(stores, storeName)| == 0 ==> r == Fail(InternalError)
  {
    match Get(StoresNamed(stores, storeName))
    case Missing => Fail(InternalError)
    case Many => Fail(InternalError)
    case One(s) =>
      var n := |StoreUsedCoupons(coupons, s.id)|;
      Success(CouponTally(n, CouponValue * n))
  }

  /** The tally with the missing store handled as the handler evidently means
      it: no store, no coupons and no revenue. Several stores of that name still
      make the lookup raise. */
  function CouponTallyFor(stores: seq<StoreRow>, coupons: seq<Coupon>, storeName: string): (r: Outcome<CouponTally>)
    ensures r.Success? ==> r.value.revenue == CouponValue * r.value.count
    ensures r.Fail? <==> |StoresNamed(stores, storeName)| > 1
    ensures |StoresNamed(stores, storeName)| == 0 ==> r == Success(CouponTally(0, 0))
    ensures r.Success? && r.value.count > 0 ==>
      exists s, c :: s in stores && s.storeName == storeName && c in coupons && c.status == Used && c.storeId == Some(Show(s.id))
  {
    match Get(StoresNamed(stores, storeName))
    case Missing => Success(CouponTally(0, 0))
    case Many => Fail(InternalError)
    case One(s) =>
      var used := StoreUsedCoupons(coupons, s.id);
      var n := |used|;
      assert n > 0 ==> used[0] in used;
      assert s in StoresNamed(stores, storeName);
      Success(CouponTally(n, CouponValue * n))
  }

  /** The two tallies agree whenever the as-written one succeeds; they part only
      when the store is missing. */
  lemma TallyCorrectionOnlyForMissingStore(stores: seq<StoreRow>, coupons: seq<Coupon>, storeName: string)
    ensures CouponTallyAsWritten(stores, coupons, storeName).Success? ==>
      CouponTallyAsWritten(stores, coupons, storeName) == CouponTallyFor(stores, coupons, storeName)
    ensures CouponTallyAsWritten(stores, coupons, storeName) != CouponTallyFor(stores, coupons, storeName) <==>
      |StoresNamed(stores, storeName)| == 0
  {
  }

  /** A finished reservation whose store name matches no store: the handler as
      written answers 500 although the reservation, the order and the coupon have
      already been saved. */
  lemma MissingStoreBreaksTally()
    ensures CouponTallyAsWritten([StoreRow(1, "Paws", "0200")], [], "Whiskers") == Fail(InternalError)
    ensures CouponTallyFor([StoreRow(1, "Paws", "0200")], [], "Whiskers") == Success(CouponTally(0, 0))
  {
    assert StoresNamed([StoreRow(1, "Paws", "0200")], "Whiskers") == [] by {
      assert "Paws" != "Whiskers" by { assert "Paws"[0] != "Whiskers"[0]; }
    }
  }
}
