/** The rows of a query. */
module Rows {

  predicate Distinct<T(==)>(rows: seq<T>) {
    forall i, j :: 0 <= i < j < |rows| ==> rows[i] != rows[j]
  }

  // The rows a query returns, in some order.
  method Listed<T(==)>(found: set<T>) returns (rows: seq<T>)
    ensures Distinct(rows) && forall x :: x in rows <==> x in found
  {
    var left := found;
    rows := [];
    while left != {}
      invariant Distinct(rows) && left <= found && forall x :: x in rows <==> x in found && x !in left
    {
      var x :| x in left;
      rows, left := rows + [x], left - {x};
    }
  }
}
