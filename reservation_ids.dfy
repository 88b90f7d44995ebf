/**
 * Reservation ids: a two-letter kind prefix ("GR" grooming, "BD" boarding), the
 * 14-digit local timestamp `%Y%m%d%H%M%S`, and the last four of the six
 * zero-padded microsecond digits. The views route every id-based request by its
 * first two characters.
 */
module ReservationIds {
  import opened Outcomes
  import opened Decimal

  datatype ServiceKind = Grooming | Boarding

  /** `datetime.now()`, taken as a parameter. */
  datatype Clock = Clock(year: nat, month: nat, day: nat, hour: nat, minute: nat, second: nat, microsecond: nat)

  /** The field ranges of a `datetime`, with a four-digit year. */
  predicate ValidClock(c: Clock)
  {
    1000 <= c.year <= 9999 && 1 <= c.month <= 12 && 1 <= c.day <= 31
    && c.hour < 24 && c.minute < 60 && c.second < 60 && c.microsecond < 1000000
  }

  /** The `service_type` strings `create_reservation_id` understands. */
  function KindNamed(serviceType: string): Option<ServiceKind>
  {
    if serviceType == "grooming" then Some(Grooming)
    else if serviceType == "boarding" then Some(Boarding)
    else None
  }

  function KindPrefix(k: ServiceKind): string
  {
    match k
    case Grooming => "GR"
    case Boarding => "BD"
  }

  /** `now.strftime("%Y%m%d%H%M%S")`. */
  function Timestamp(c: Clock): (s: string)
    requires ValidClock(c)
    ensures |s| == 14 && AllDigits(s)
  {
    Padded(c.year, 4) + Padded(c.month, 2) + Padded(c.day, 2)
    + Padded(c.hour, 2) + Padded(c.minute, 2) + Padded(c.second, 2)
  }

  /** `f"{now.microsecond:06d}"[-4:]`. */
  function MicrosecondTail(c: Clock): (s: string)
    requires ValidClock(c)
  {
    Padded(c.microsecond, 6)[2..]
  }

  /** The last four of the six padded digits are the microseconds modulo 10000,
      padded to four. */
  lemma MicrosecondTailValue(c: Clock)
    requires ValidClock(c)
    ensures c.microsecond % 10000 < 10000
    ensures MicrosecondTail(c) == Padded(c.microsecond % 10000, 4)
  {
    assert Pow10(6) == 1000000 by {
      assert Pow10(1) == 10;
    }
    assert Pow10(4) == 10000 by {
      assert Pow10(1) == 10;
    }
    PaddedSuffix(c.microsecond, 6, 4);
  }

  /** `create_reservation_id(service_type)`: an id for grooming or boarding, and no
      id (Python's `None`) for any other service type. */
  function CreateReservationId(serviceType: string, now: Clock): (id: Option<string>)
    requires ValidClock(now)
    ensures id.Some? <==> KindNamed(serviceType).Some?
    ensures id.Some? ==> |id.value| == 20 && AllDigits(id.value[2..])
    ensures id.Some? ==> id.value[..2] == KindPrefix(KindNamed(serviceType).value)
  {
    match KindNamed(serviceType)
    case None => None
    case Some(k) =>
      var id := KindPrefix(k) + Timestamp(now) + MicrosecondTail(now);
      assert id[2..] == Timestamp(now) + MicrosecondTail(now);
      Some(id)
  }

  /** The id the first-generation booking view builds inline; always grooming. */
  function LegacyReservationId(now: Clock): string
    requires ValidClock(now)
  {
    "GR" + Timestamp(now) + MicrosecondTail(now)
  }

  lemma LegacyIdIsGroomingId(now: Clock)
    requires ValidClock(now)
    ensures CreateReservationId("grooming", now) == Some(LegacyReservationId(now))
  {
  }

  /** The dispatch of the id-based views on `reservation_id[:2]`. */
  function KindOfId(id: string): (k: Option<ServiceKind>)
    ensures k == Some(Grooming) <==> |id| >= 2 && id[..2] == "GR"
    ensures k == Some(Boarding) <==> |id| >= 2 && id[..2] == "BD"
  {
    if |id| >= 2 && id[..2] == "GR" then Some(Grooming)
    else if |id| >= 2 && id[..2] == "BD" then Some(Boarding)
    else None
  }

  /** A generated id is routed back to the kind it was generated for. */
  lemma KindOfCreatedId(serviceType: string, now: Clock)
    requires ValidClock(now)
    requires KindNamed(serviceType).Some?
    ensures KindOfId(CreateReservationId(serviceType, now).value) == KindNamed(serviceType)
  {
  }

  /** What an id records: its kind, the timestamp fields and the four microsecond
      digits it keeps. */
  datatype Stamp = Stamp(kind: ServiceKind, year: nat, month: nat, day: nat, hour: nat, minute: nat, second: nat, tail: nat)

  function StampOf(k: ServiceKind, c: Clock): Stamp
  {
    Stamp(k, c.year, c.month, c.day, c.hour, c.minute, c.second, c.microsecond % 10000)
  }

  /** Read an id back: 20 characters, a known prefix and 18 digits. */
  function ParseReservationId(id: string): Option<Stamp>
  {
    if |id| == 20 && KindOfId(id).Some? && AllDigits(id[2..]) then
      assert forall i :: 2 <= i < 20 ==> IsDigit(id[i]) by {
        forall i | 2 <= i < 20 ensures IsDigit(id[i]) { assert id[i] == id[2..][i - 2]; }
      }
      Some(Stamp(KindOfId(id).value,
        ValueOf(id[2..6]), ValueOf(id[6..8]), ValueOf(id[8..10]),
        ValueOf(id[10..12]), ValueOf(id[12..14]), ValueOf(id[14..16]), ValueOf(id[16..20])))
    else None
  }

  /** Parsing a generated id recovers the kind and every clock field it encodes. */
  lemma IdRoundTrip(serviceType: string, now: Clock)
    requires ValidClock(now)
    requires KindNamed(serviceType).Some?
    ensures ParseReservationId(CreateReservationId(serviceType, now).value) == Some(StampOf(KindNamed(serviceType).value, now))
  {
    var k := KindNamed(serviceType).value;
    var id := CreateReservationId(serviceType, now).value;
    MicrosecondTailValue(now);
    assert Pow10(1) == 10;
    assert Pow10(2) == 100;
    assert Pow10(4) == 10000;
    var y := Padded(now.year, 4);
    var mo := Padded(now.month, 2);
    var d := Padded(now.day, 2);
    var h := Padded(now.hour, 2);
    var mi := Padded(now.minute, 2);
    var s := Padded(now.second, 2);
    var t := Padded(now.microsecond % 10000, 4);
    assert id == KindPrefix(k) + y + mo + d + h + mi + s + t;
    assert id[2..6] == y;
    assert id[6..8] == mo;
    assert id[8..10] == d;
    assert id[10..12] == h;
    assert id[12..14] == mi;
    assert id[14..16] == s;
    assert id[16..20] == t;
    ValueOfPadded(now.year, 4);
    ValueOfPadded(now.month, 2);
    ValueOfPadded(now.day, 2);
    ValueOfPadded(now.hour, 2);
    ValueOfPadded(now.minute, 2);
    ValueOfPadded(now.second, 2);
    ValueOfPadded(now.microsecond % 10000, 4);
  }

  /** Two equal ids come from the same kind and the same second, with microseconds
      equal modulo 10000: the only way two bookings can collide. */
  lemma EqualIdsSameStamp(t1: string, c1: Clock, t2: string, c2: Clock)
    requires ValidClock(c1) && ValidClock(c2)
    requires CreateReservationId(t1, c1).Some? && CreateReservationId(t1, c1) == CreateReservationId(t2, c2)
    ensures KindNamed(t1) == KindNamed(t2)
    ensures StampOf(KindNamed(t1).value, c1) == StampOf(KindNamed(t2).value, c2)
  {
    IdRoundTrip(t1, c1);
    IdRoundTrip(t2, c2);
    KindOfCreatedId(t1, c1);
    KindOfCreatedId(t2, c2);
  }
}
