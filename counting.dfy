/** Row counting over in-memory tables.

    Every readiness query of the application is a `SELECT COUNT(*) FROM t WHERE p`;
    here a table is a sequence of rows and the WHERE clause a predicate on one row. */
module Counting {

  /** The number of rows of `rows` for which `p` holds. */
  function Count<T>(rows: seq<T>, p: T -> bool): (n: nat)
    ensures n <= |rows|
  {
    if rows == [] then 0 else (if p(rows[0]) then 1 else 0) + Count(rows[1..], p)
  }

  /** Counting distributes over concatenation of tables. */
  lemma {:induction false} CountAppend<T>(xs: seq<T>, ys: seq<T>, p: T -> bool)
    ensures Count(xs + ys, p) == Count(xs, p) + Count(ys, p)
  {
    if xs == [] {
      assert xs + ys == ys;
    } else {
      assert (xs + ys)[0] == xs[0];
      assert (xs + ys)[1..] == xs[1..] + ys;
      CountAppend(xs[1..], ys, p);
    }
  }

  /** A count is positive exactly when some row satisfies the predicate. */
  lemma {:induction false} CountPositive<T>(rows: seq<T>, p: T -> bool)
    ensures Count(rows, p) > 0 <==> exists i :: 0 <= i < |rows| && p(rows[i])
  {
    if rows != [] {
      CountPositive(rows[1..], p);
      if exists i :: 0 <= i < |rows| && p(rows[i]) {
        var i :| 0 <= i < |rows| && p(rows[i]);
        if i > 0 {
          assert rows[1..][i - 1] == rows[i];
        }
      }
      if exists i :: 0 <= i < |rows[1..]| && p(rows[1..][i]) {
        var i :| 0 <= i < |rows[1..]| && p(rows[1..][i]);
        assert rows[i + 1] == rows[1..][i];
      }
    }
  }

  /** A predicate that holds wherever `a` holds counts at least as many rows. */
  lemma {:induction false} CountMonotone<T>(rows: seq<T>, a: T -> bool, b: T -> bool)
    requires forall x :: a(x) ==> b(x)
    ensures Count(rows, a) <= Count(rows, b)
  {
    if rows != [] {
      CountMonotone(rows[1..], a, b);
    }
  }

  /** When `p` holds exactly where one of the disjoint `a` and `b` holds,
      the rows counted by `p` split into those counted by `a` and by `b`. */
  lemma {:induction false} CountPartition<T>(rows: seq<T>, p: T -> bool, a: T -> bool, b: T -> bool)
    requires forall x :: p(x) <==> a(x) || b(x)
    requires forall x :: !(a(x) && b(x))
    ensures Count(rows, a) + Count(rows, b) == Count(rows, p)
  {
    if rows != [] {
      CountPartition(rows[1..], p, a, b);
    }
  }

  /** Rows that can never satisfy `p` do not change its count. */
  lemma {:induction false} CountIgnores<T>(rows: seq<T>, extra: seq<T>, p: T -> bool)
    requires forall i :: 0 <= i < |extra| ==> !p(extra[i])
    ensures Count(rows + extra, p) == Count(rows, p)
  {
    CountAppend(rows, extra, p);
    CountPositive(extra, p);
  }
}
