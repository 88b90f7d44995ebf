/**
 * The slot quantiser: which quarter hours a grooming booking occupies and which
 * half-hour markers a boarding stay covers.
 *
 * The views compute the grooming count as `int(round(D / 15 - 1, 0))` and then
 * emit that many markers plus one. For an integer duration D the quotient never
 * falls on a .5 tie, so the count is the integer-exact `(2D - 15) / 30 + 1`
 * (division rounding down), and no markers at all when that is negative.
 */
module Slots {
  import opened Records

  const GroomingStep: int := 15
  const BoardingStep: int := 30

  /** `int(round(D / 15 - 1))`: the number of extra quarter hours after the first. */
  function RoundedExtraQuarters(duration: int): int
  {
    (2 * duration - 15) / 30
  }

  /** How many 15-minute markers a grooming booking of `duration` minutes occupies. */
  function GroomingSlotCount(duration: int): nat
  {
    var k := RoundedExtraQuarters(duration) + 1;
    if k < 0 then 0 else k
  }

  /** `round(x)` for x = D/15 - 1 is the integer k with |x - k| < 1/2; scaled by 30
      that is |2D - 30 - 30k| < 15, and RoundedExtraQuarters is exactly that k. */
  lemma RoundedExtraQuartersIsNearest(duration: int, k: int)
    ensures -15 < 2 * duration - 30 - 30 * k < 15 <==> k == RoundedExtraQuarters(duration)
  {
    var n := 2 * duration - 15;
    var q := n / 30;
    var r := n % 30;
    assert n == 30 * q + r && 0 <= r < 30;
    // n is odd, so it is never a multiple of 30: the quotient is never a tie
    assert r != 0;
    var gap := k - q;
    assert 2 * duration - 30 - 30 * k == r - 15 - 30 * gap;
    MultipleOf30InOpenRange(gap);
  }

  lemma MultipleOf30InOpenRange(g: int)
    ensures g >= 1 ==> 30 * g >= 30
    ensures g <= -1 ==> 30 * g <= -30
  {
  }

  /** The count is the duration rounded to the nearest number of quarter hours:
      none for at most 7 minutes, and otherwise k quarter hours with D within 7
      minutes of 15k. */
  lemma GroomingSlotCountNearest(duration: int)
    ensures duration <= 7 ==> GroomingSlotCount(duration) == 0
    ensures duration >= 8 ==> GroomingSlotCount(duration) >= 1
    ensures duration >= 8 ==> -7 <= duration - 15 * GroomingSlotCount(duration) <= 7
  {
    var q := RoundedExtraQuarters(duration);
    var r := (2 * duration - 15) % 30;
    assert 2 * duration - 15 == 30 * q + r && 0 <= r < 30;
    if duration <= 7 {
      assert 30 * q < 0;
    } else {
      assert 30 * q >= -14;
    }
  }

  /** Grooming markers: times of day, 15 minutes apart, from the booked start. */
  function GroomingMarkers(start: int, duration: int): (ts: seq<int>)
  {
    seq(GroomingSlotCount(duration), i => TimeOfDay(start + GroomingStep * i))
  }

  /** The worked cases: 90 minutes from 10:00 take the six quarter hours 10:00
      to 11:15, and 120 minutes take eight. */
  lemma GroomingSlotExamples()
    ensures GroomingSlotCount(90) == 6 && GroomingSlotCount(120) == 8 && GroomingSlotCount(45) == 3
    ensures GroomingMarkers(600, 90) == [600, 615, 630, 645, 660, 675]
  {
  }

  lemma GroomingMarkersShape(start: int, duration: int)
    ensures var ts := GroomingMarkers(start, duration);
      && |ts| == GroomingSlotCount(duration)
      && (|ts| > 0 ==> ts[0] == TimeOfDay(start))
      && (forall i :: 0 <= i < |ts| ==> 0 <= ts[i] < MinutesPerDay)
      && (forall i :: 0 < i < |ts| ==> ts[i] == TimeOfDay(ts[i - 1] + GroomingStep))
  {
    var ts := GroomingMarkers(start, duration);
    forall i | 0 < i < |ts|
      ensures ts[i] == TimeOfDay(ts[i - 1] + GroomingStep)
    {
      var a := start + GroomingStep * (i - 1);
      assert ts[i] == TimeOfDay(a + GroomingStep);
      ModAddCongruent(a, GroomingStep, MinutesPerDay);
    }
  }

  lemma ModAddCongruent(a: int, b: int, m: int)
    requires m > 0
    ensures (a + b) % m == (a % m + b) % m
  {
    var q := a / m;
    assert a == m * q + a % m;
    assert a + b == m * q + (a % m + b);
    ModShift(a % m + b, q, m);
  }

  lemma ModShift(x: int, q: int, m: int)
    requires m > 0
    ensures (m * q + x) % m == x % m
  {
    var y := m * q + x;
    var d := y / m - q - x / m;
    assert m * d == x % m - y % m;
    assert d >= 1 ==> m * d >= m;
    assert d <= -1 ==> m * d <= -m;
  }

  /** The grooming loop of the create views: append the time of day of the current
      instant, then step 15 minutes, once per marker. */
  method GroomingUnavailableTimes(start: int, duration: int) returns (times: seq<int>)
    ensures times == GroomingMarkers(start, duration)
  {
    var count := GroomingSlotCount(duration);
    times := [];
    var current := start;
    for i := 0 to count
      invariant current == start + GroomingStep * i
      invariant times == GroomingMarkers(start, duration)[..i]
    {
      times := times + [TimeOfDay(current)];
      current := current + GroomingStep;
    }
  }

  /** Boarding markers: every 30 minutes from check-in (inclusive) while before check-out. */
  function BoardingMarkers(checkin: int, checkout: int): seq<int>
    decreases checkout - checkin
  {
    if checkin < checkout then [checkin] + BoardingMarkers(checkin + BoardingStep, checkout) else []
  }

  function CeilDiv30(n: int): int { (n + 29) / 30 }

  lemma {:induction false} BoardingMarkersShape(checkin: int, checkout: int)
    ensures var ms := BoardingMarkers(checkin, checkout);
      && |ms| == (if checkin < checkout then CeilDiv30(checkout - checkin) else 0)
      && (forall i :: 0 <= i < |ms| ==> ms[i] == checkin + BoardingStep * i)
      && (forall i :: 0 <= i < |ms| ==> checkin <= ms[i] < checkout)
    decreases checkout - checkin
  {
    if checkin < checkout {
      BoardingMarkersShape(checkin + BoardingStep, checkout);
      var ms := BoardingMarkers(checkin, checkout);
      var rest := BoardingMarkers(checkin + BoardingStep, checkout);
      assert ms == [checkin] + rest;
      forall i | 0 < i < |ms|
        ensures ms[i] == checkin + BoardingStep * i
      {
        assert ms[i] == rest[i - 1];
      }
    }
  }

  /** The last marker is less than 30 minutes before check-out: the markers cover the
      whole stay and nothing beyond it. */
  lemma {:induction false} BoardingMarkersCover(checkin: int, checkout: int, t: int)
    requires checkin <= t < checkout
    ensures exists i :: (0 <= i < |BoardingMarkers(checkin, checkout)|
      && BoardingMarkers(checkin, checkout)[i] <= t < BoardingMarkers(checkin, checkout)[i] + BoardingStep)
    decreases checkout - checkin
  {
    var ms := BoardingMarkers(checkin, checkout);
    if t < checkin + BoardingStep {
      assert ms[0] <= t < ms[0] + BoardingStep;
    } else {
      BoardingMarkersCover(checkin + BoardingStep, checkout, t);
      var rest := BoardingMarkers(checkin + BoardingStep, checkout);
      var i :| 0 <= i < |rest| && rest[i] <= t < rest[i] + BoardingStep;
      assert ms[i + 1] == rest[i];
    }
  }

  /** The boarding `while` loop of the user-side create view. */
  method BoardingTimeSlots(checkin: int, checkout: int) returns (slots: seq<int>)
    ensures slots == BoardingMarkers(checkin, checkout)
  {
    slots := [];
    var current := checkin;
    while current < checkout
      invariant slots + BoardingMarkers(current, checkout) == BoardingMarkers(checkin, checkout)
      decreases checkout - current
    {
      slots := slots + [current];
      current := current + BoardingStep;
    }
  }
}
