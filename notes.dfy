/**
 * Store-note updates. The per-kind note endpoints look the reservation up in
 * their own table; the history and risk endpoints validate the request against
 * the grooming table and then route it by the id's "GR"/"BD" prefix.
 */
module Notes {
  import opened Outcomes
  import opened Records
  import opened Lifecycle
  import opened ReservationIds
  import opened Database

  /** Limits of the note serializers. */
  const MaxIdLength: int := 20
  const MaxNoteLength: int := 1000

  /** `get(reservation_id=id)` then overwrite the store note of that row. */
  function SetNote(rows: seq<Reservation>, id: string, note: string): (r: Step)
    ensures r.outcome.Fail? ==> r.rows == rows
    ensures r.outcome == Fail(NotFound) <==> forall i :: 0 <= i < |rows| ==> rows[i].reservationId != id
    ensures r.outcome.Success? ==> exists i :: (0 <= i < |rows| && rows[i].reservationId == id
      && r.rows == rows[i := rows[i].(storeNote := note)] && r.outcome.value == r.rows[i])
  {
    match LocateId(rows, id)
    case Missing => Step(Fail(NotFound), rows)
    case Many => Step(Fail(InternalError), rows)
    case One(i) => Step(Success(rows[i].(storeNote := note)), rows[i := rows[i].(storeNote := note)])
  }

  /** A note update touches nothing but store notes: every row keeps its id,
      status and every other field. */
  lemma SetNoteOnlyNotes(rows: seq<Reservation>, id: string, note: string, k: nat)
    requires k < |rows|
    ensures |SetNote(rows, id, note).rows| == |rows|
    ensures SetNote(rows, id, note).rows[k].(storeNote := rows[k].storeNote) == rows[k]
  {
  }

  /** Writing the same note twice is the same as writing it once. */
  lemma SetNoteIdempotent(rows: seq<Reservation>, id: string, note: string)
    ensures SetNote(SetNote(rows, id, note).rows, id, note).rows == SetNote(rows, id, note).rows
  {
    var once := SetNote(rows, id, note).rows;
    if SetNote(rows, id, note).outcome.Success? {
      var i :| 0 <= i < |rows| && rows[i].reservationId == id && once == rows[i := rows[i].(storeNote := note)];
      assert forall k :: 0 <= k < |rows| ==> once[k].reservationId == rows[k].reservationId;
      assert IdIndices(once, id, 0) == IdIndices(rows, id, 0) by {
        SameIdsSameIndices(rows, once, id, 0);
      }
    }
  }

  lemma {:induction false} SameIdsSameIndices(a: seq<Reservation>, b: seq<Reservation>, id: string, from: nat)
    requires |a| == |b| && from <= |a|
    requires forall k :: 0 <= k < |a| ==> a[k].reservationId == b[k].reservationId
    ensures IdIndices(a, id, from) == IdIndices(b, id, from)
    decreases |a| - from
  {
    if from < |a| {
      SameIdsSameIndices(a, b, id, from + 1);
    }
  }

  /** The note endpoint of one table. Whether its serializer accepts the request
      is a parameter (the serializer class it imports is not part of this model). */
  function TableNoteRequest(rows: seq<Reservation>, valid: bool, id: string, note: string): (r: Step)
    ensures !valid ==> r == Step(Fail(BadRequest), rows)
    ensures valid ==> r == SetNote(rows, id, note)
  {
    if !valid then Step(Fail(BadRequest), rows) else SetNote(rows, id, note)
  }

  /** Update a store note in the grooming table. */
  method UpdateGroomingNote(db: Db, valid: bool, id: string, note: string) returns (r: Outcome<Reservation>)
    modifies db`groomings
    ensures Step(r, db.groomings) == TableNoteRequest(old(db.groomings), valid, id, note)
  {
    if !valid {
      return Fail(BadRequest);
    }
    var found := LocateId(db.groomings, id);
    match found
    case Missing => r := Fail(NotFound);
    case Many => r := Fail(InternalError);
    case One(i) =>
      var reservation := db.groomings[i];
      reservation := reservation.(storeNote := note);
      db.groomings := db.groomings[i := reservation];
      r := Success(reservation);
  }

  /** Update a store note in the boarding table. */
  method UpdateBoardingNote(db: Db, valid: bool, id: string, note: string) returns (r: Outcome<Reservation>)
    modifies db`boardings
    ensures Step(r, db.boardings) == TableNoteRequest(old(db.boardings), valid, id, note)
  {
    if !valid {
      return Fail(BadRequest);
    }
    var found := LocateId(db.boardings, id);
    match found
    case Missing => r := Fail(NotFound);
    case Many => r := Fail(InternalError);
    case One(i) =>
      var reservation := db.boardings[i];
      reservation := reservation.(storeNote := note);
      db.boardings := db.boardings[i := reservation];
      r := Success(reservation);
  }

  // ---------------------------------------------------------------------------
  // The dispatching endpoint of the history and risk views
  // ---------------------------------------------------------------------------

  /** The validated request: both fields present, the id 1 to 20 characters and
      naming a grooming reservation, the note at most 1000 characters (blank is
      fine). The serializer runs with `partial=True`, so a missing field passes
      validation and reading it afterwards raises (500). A lookup that finds
      several grooming rows raises inside the validator (500). */
  function StaffNoteVerdict(groomings: seq<Reservation>, id: Option<string>, note: Option<string>): (r: Outcome<(string, string)>)
    ensures r.Success? ==> id == Some(r.value.0) && note == Some(r.value.1)
    ensures r.Success? ==> 0 < |r.value.0| <= MaxIdLength && |r.value.1| <= MaxNoteLength
    ensures r.Success? ==> exists i :: 0 <= i < |groomings| && groomings[i].reservationId == r.value.0
    ensures id.Some? && id.value != "" && (forall i :: 0 <= i < |groomings| ==> groomings[i].reservationId != id.value) ==> r == Fail(BadRequest)
  {
    var idCheck: Outcome<()> :=
      if id.None? then Success(())
      else if |id.value| == 0 || |id.value| > MaxIdLength then Fail(BadRequest)
      else match LocateId(groomings, id.value)
        case Missing => Fail(BadRequest)
        case Many => Fail(InternalError)
        case One(_) => Success(());
    if idCheck == Fail(InternalError) then Fail(InternalError)
    else if idCheck.Fail? || (note.Some? && |note.value| > MaxNoteLength) then Fail(BadRequest)
    else if id.None? || note.None? then Fail(InternalError)
    else Success((id.value, note.value))
  }

  /** The answer of a dispatched note update with both tables afterwards. */
  datatype NoteReply = NoteReply(outcome: Outcome<Reservation>, groomings: seq<Reservation>, boardings: seq<Reservation>)

  /** The history/risk note update: validate, then route by prefix. An id with
      neither prefix leaves the view without a response, which the framework
      reports as a 500. */
  function StaffNoteRequest(groomings: seq<Reservation>, boardings: seq<Reservation>, id: Option<string>, note: Option<string>): (r: NoteReply)
    ensures r.outcome.Fail? ==> r.groomings == groomings && r.boardings == boardings
    ensures r.groomings == groomings || r.boardings == boardings
    ensures r.outcome.Success? ==> (id.Some? && note.Some? && r.outcome.value.reservationId == id.value
      && r.outcome.value.storeNote == note.value)
  {
    match StaffNoteVerdict(groomings, id, note)
    case Fail(f) => NoteReply(Fail(f), groomings, boardings)
    case Success((rid, text)) =>
      match KindOfId(rid)
      case Some(Grooming) =>
        var s := SetNote(groomings, rid, text);
        NoteReply(s.outcome, s.rows, boardings)
      case Some(Boarding) =>
        var s := SetNote(boardings, rid, text);
        NoteReply(s.outcome, groomings, s.rows)
      case None => NoteReply(Fail(InternalError), groomings, boardings)
  }

  /** A boarding reservation's note can be changed here only when a grooming
      reservation happens to carry the same id: otherwise the validator refuses
      the request and nothing changes. */
  lemma BoardingNoteNeedsGroomingId(groomings: seq<Reservation>, boardings: seq<Reservation>, id: string, note: Option<string>)
    requires id != "" && forall i :: 0 <= i < |groomings| ==> groomings[i].reservationId != id
    ensures StaffNoteRequest(groomings, boardings, Some(id), note) == NoteReply(Fail(BadRequest), groomings, boardings)
  {
  }

  /** A successful dispatched update changes exactly the note of the row with
      that id in the table its prefix names. */
  lemma StaffNoteRoutesByPrefix(groomings: seq<Reservation>, boardings: seq<Reservation>, id: Option<string>, note: Option<string>)
    requires StaffNoteRequest(groomings, boardings, id, note).outcome.Success?
    ensures var r := StaffNoteRequest(groomings, boardings, id, note);
      (KindOfId(id.value) == Some(Grooming) ==> r.boardings == boardings && r.groomings == SetNote(groomings, id.value, note.value).rows)
      && (KindOfId(id.value) == Some(Boarding) ==> r.groomings == groomings && r.boardings == SetNote(boardings, id.value, note.value).rows)
      && KindOfId(id.value).Some?
  {
  }

  /** The history and risk note endpoint, performed on the database. */
  method UpdateStoreNote(db: Db, id: Option<string>, note: Option<string>) returns (r: Outcome<Reservation>)
    modifies db`groomings, db`boardings
    ensures NoteReply(r, db.groomings, db.boardings) == StaffNoteRequest(old(db.groomings), old(db.boardings), id, note)
  {
    var verdict := StaffNoteVerdict(db.groomings, id, note);
    if verdict.Fail? {
      return Fail(verdict.failure);
    }
    var (rid, text) := verdict.value;
    var kind := KindOfId(rid);
    if kind == Some(Grooming) {
      r := UpdateGroomingNote(db, true, rid, text);
    } else if kind == Some(Boarding) {
      r := UpdateBoardingNote(db, true, rid, text);
    } else {
      r := Fail(InternalError);
    }
  }
}
