/**
 * Result shapes shared by every module: the optional value, the error classes the
 * views answer with (HTTP 400, 404, 409 and 500), and the Django `get()` lookup,
 * which distinguishes "no row", "exactly one row" and "several rows".
 */
module Outcomes {

  datatype Option<+T> = None | Some(value: T)

  /** The error statuses the reservation views return. */
  datatype Failure =
    | BadRequest      // 400
    | NotFound        // 404
    | Conflict        // 409
    | InternalError   // 500: an exception caught by a view's generic handler

  datatype Outcome<+T> = Success(value: T) | Fail(failure: Failure)

  /** Result of `Model.objects.get(...)` over the rows that match the filter. */
  datatype Lookup<+T> = Missing | One(row: T) | Many

  /** `get()` inside a view that catches only `DoesNotExist`: no row is a 404,
      several rows raise into the view's generic handler, a 500. */
  function Single<T>(matches: seq<T>): (r: Outcome<T>)
    ensures r.Success? <==> |matches| == 1
    ensures r.Success? ==> r.value == matches[0]
    ensures r == Fail(NotFound) <==> |matches| == 0
    ensures r == Fail(InternalError) <==> |matches| > 1
  {
    if |matches| == 0 then Fail(NotFound)
    else if |matches| == 1 then Success(matches[0])
    else Fail(InternalError)
  }

  /** A request field as the views see it: absent (or empty, which `all()`
      treats alike), present but not parseable, or parsed. */
  datatype Field<+T> = Absent | Malformed | Given(value: T)

  function Get<T>(matches: seq<T>): (r: Lookup<T>)
    ensures r.Missing? <==> |matches| == 0
    ensures r.One? <==> |matches| == 1
    ensures r.One? ==> r.row == matches[0]
  {
    if |matches| == 0 then Missing
    else if |matches| == 1 then One(matches[0])
    else Many
  }
}
