/**
 * Tables as sequences of rows. SimpleDB has no UPDATE: every change is "delete where" and "insert",
 * so filtering and appending are the whole vocabulary.
 */
module Tables {

  /** The rows satisfying p, in table order: a select, and with Not(p) a delete. */
  function Where<T>(rows: seq<T>, p: T -> bool): (r: seq<T>)
    ensures |r| <= |rows|
  {
    if rows == [] then []
    else if p(rows[|rows| - 1]) then Where(rows[..|rows| - 1], p) + [rows[|rows| - 1]]
    else Where(rows[..|rows| - 1], p)
  }

  function Not<T>(p: T -> bool): T -> bool {
    x => !p(x)
  }

  lemma {:induction false} WhereConcat<T>(a: seq<T>, b: seq<T>, p: T -> bool)
    ensures Where(a + b, p) == Where(a, p) + Where(b, p)
  {
    if b == [] {
      assert a + b == a;
    } else {
      assert (a + b)[..|a + b| - 1] == a + b[..|b| - 1];
      WhereConcat(a, b[..|b| - 1], p);
    }
  }

  lemma WhereOne<T>(x: T, p: T -> bool)
    ensures Where([x], p) == if p(x) then [x] else []
  {
    assert [x][..0] == [];
  }

  lemma WhereAppend<T>(rows: seq<T>, x: T, p: T -> bool)
    ensures Where(rows + [x], p) == if p(x) then Where(rows, p) + [x] else Where(rows, p)
  {
    assert (rows + [x])[..|rows|] == rows;
  }

  lemma {:induction false} WhereIn<T>(rows: seq<T>, p: T -> bool, x: T)
    ensures x in Where(rows, p) <==> x in rows && p(x)
  {
    if rows != [] {
      WhereIn(rows[..|rows| - 1], p, x);
      assert x in rows <==> x in rows[..|rows| - 1] || x == rows[|rows| - 1];
    }
  }

  /** A select whose condition implies an earlier one can skip the earlier one. */
  lemma {:induction false} WhereAbsorb<T>(rows: seq<T>, p: T -> bool, q: T -> bool)
    requires forall x :: x in rows && p(x) ==> q(x)
    ensures Where(Where(rows, q), p) == Where(rows, p)
  {
    if rows != [] {
      var front, last := rows[..|rows| - 1], rows[|rows| - 1];
      assert forall x :: x in front ==> x in rows;
      assert last in rows;
      WhereAbsorb(front, p, q);
      if q(last) {
        WhereAppend(Where(front, q), last, p);
      }
    }
  }

  lemma {:induction false} WhereCommute<T>(rows: seq<T>, p: T -> bool, q: T -> bool)
    ensures Where(Where(rows, p), q) == Where(Where(rows, q), p)
  {
    if rows != [] {
      var front, last := rows[..|rows| - 1], rows[|rows| - 1];
      WhereCommute(front, p, q);
      WhereAppend(Where(front, p), last, q);
      WhereAppend(Where(front, q), last, p);
    }
  }

  lemma {:induction false} WhereNone<T>(rows: seq<T>, p: T -> bool)
    requires forall x :: x in rows ==> !p(x)
    ensures Where(rows, p) == []
  {
    if rows != [] {
      assert rows[|rows| - 1] in rows;
      WhereNone(rows[..|rows| - 1], p);
    }
  }

  lemma {:induction false} WhereAll<T>(rows: seq<T>, p: T -> bool)
    requires forall x :: x in rows ==> p(x)
    ensures Where(rows, p) == rows
  {
    if rows != [] {
      assert rows[|rows| - 1] in rows;
      WhereAll(rows[..|rows| - 1], p);
    }
  }

  /** Deleting by a condition k that implies p takes exactly the k rows out of the p rows. */
  lemma {:induction false} WhereMinus<T>(rows: seq<T>, k: T -> bool, p: T -> bool)
    requires forall x :: x in rows && k(x) ==> p(x)
    ensures |Where(Where(rows, Not(k)), p)| == |Where(rows, p)| - |Where(rows, k)|
  {
    if rows != [] {
      var front, last := rows[..|rows| - 1], rows[|rows| - 1];
      assert forall x :: x in front ==> x in rows;
      assert last in rows;
      WhereMinus(front, k, p);
      if !k(last) {
        WhereAppend(Where(front, Not(k)), last, p);
      }
    }
  }

  /** The sum of a number read off each row. */
  ghost function Sum<T>(rows: seq<T>, f: T -> int): int {
    if rows == [] then 0 else Sum(rows[..|rows| - 1], f) + f(rows[|rows| - 1])
  }

  lemma SumAppend<T>(rows: seq<T>, x: T, f: T -> int)
    ensures Sum(rows + [x], f) == Sum(rows, f) + f(x)
  {
    assert (rows + [x])[..|rows|] == rows;
  }

  lemma {:induction false} SumMinus<T>(rows: seq<T>, k: T -> bool, f: T -> int)
    ensures Sum(Where(rows, Not(k)), f) == Sum(rows, f) - Sum(Where(rows, k), f)
  {
    if rows != [] {
      var front, last := rows[..|rows| - 1], rows[|rows| - 1];
      SumMinus(front, k, f);
      if k(last) {
        SumAppend(Where(front, k), last, f);
      } else {
        SumAppend(Where(front, Not(k)), last, f);
      }
    }
  }
}
