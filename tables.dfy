/**
 * Query helpers over in-memory tables. A table is a sequence of rows in primary-key
 * (insertion) order, so `filter(...)` keeps that order and `.first()` is the first
 * matching row.
 */
module Tables {
  import opened Outcomes

  /** `Model.objects.filter(p)`: the matching rows, in table order. */
  function Filter<T(!new)>(rows: seq<T>, p: T -> bool): (r: seq<T>)
    ensures |r| <= |rows|
    ensures forall x :: x in r <==> x in rows && p(x)
    ensures forall i :: 0 <= i < |r| ==> p(r[i])
  {
    if |rows| == 0 then []
    else if p(rows[0]) then [rows[0]] + Filter(rows[1..], p)
    else Filter(rows[1..], p)
  }

  /** Filtering a concatenation filters each part. */
  lemma {:induction false} FilterAppend<T(!new)>(a: seq<T>, b: seq<T>, p: T -> bool)
    ensures Filter(a + b, p) == Filter(a, p) + Filter(b, p)
  {
    if |a| == 0 {
      assert a + b == b;
    } else {
      assert (a + b)[1..] == a[1..] + b;
      FilterAppend(a[1..], b, p);
    }
  }

  /** `.filter(p).first()`: the first matching row, if any. */
  function First<T(!new)>(rows: seq<T>, p: T -> bool): (r: Option<T>)
    ensures r.None? <==> (forall x :: x in rows ==> !p(x))
    ensures r.Some? ==> r.value in rows && p(r.value)
  {
    var m := Filter(rows, p);
    if |m| == 0 then None else Some(m[0])
  }

  /** `.first()` really is the earliest match: it sits at an index before which no
      row matches. */
  lemma {:induction false} FirstIsEarliest<T(!new)>(rows: seq<T>, p: T -> bool)
    ensures First(rows, p).Some? ==>
      exists i :: 0 <= i < |rows| && rows[i] == First(rows, p).value
        && forall j :: 0 <= j < i ==> !p(rows[j])
  {
    if |rows| > 0 && !p(rows[0]) {
      FirstIsEarliest(rows[1..], p);
      if First(rows, p).Some? {
        assert First(rows[1..], p) == First(rows, p);
        var i :| 0 <= i < |rows[1..]| && rows[1..][i] == First(rows, p).value
          && forall j :: 0 <= j < i ==> !p(rows[1..][j]);
        assert rows[i + 1] == First(rows, p).value;
        forall j | 0 <= j < i + 1
          ensures !p(rows[j])
        {
          if j > 0 {
            assert rows[j] == rows[1..][j - 1];
          }
        }
      }
    } else if |rows| > 0 {
      assert rows[0] == First(rows, p).value;
    }
  }

  /** `.filter(p).count()`. */
  function Count<T(!new)>(rows: seq<T>, p: T -> bool): nat
  {
    |Filter(rows, p)|
  }

  lemma CountAppend<T(!new)>(a: seq<T>, b: seq<T>, p: T -> bool)
    ensures Count(a + b, p) == Count(a, p) + Count(b, p)
  {
    FilterAppend(a, b, p);
  }

  /** A row that does not match leaves the count alone; one that matches adds one. */
  lemma CountSnoc<T(!new)>(a: seq<T>, x: T, p: T -> bool)
    ensures Count(a + [x], p) == Count(a, p) + (if p(x) then 1 else 0)
  {
    FilterAppend(a, [x], p);
    assert Filter([x], p) == (if p(x) then [x] else []) by {
      assert [x][1..] == [];
    }
  }

  /** Replace row `i` of a table. */
  function Replace<T>(rows: seq<T>, i: nat, x: T): (r: seq<T>)
    requires i < |rows|
    ensures |r| == |rows| && r[i] == x
    ensures forall j :: 0 <= j < |rows| && j != i ==> r[j] == rows[j]
  {
    rows[i := x]
  }
}
