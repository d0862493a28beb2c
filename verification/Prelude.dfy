/** Option and Result values, and the sequence helpers the tables are built from. */
module Prelude {
  datatype Option<+T> = None | Some(value: T)

  /** What the database or the code raises. */
  datatype Error = IntegrityError | ValueError | MultipleResultsFound | KeyError

  datatype Result<+T> = Ok(value: T) | Err(error: Error) {
    predicate IsFailure() {
      Err?
    }

    function PropagateFailure<U>(): Result<U>
      requires Err?
    {
      Err(error)
    }

    function Extract(): T
      requires Ok?
    {
      value
    }
  }

  /** The rows of a table that satisfy a WHERE clause, in table order. */
  function Filter<T>(rows: seq<T>, keep: T -> bool): seq<T> {
    if rows == [] then []
    else if keep(rows[0]) then [rows[0]] + Filter(rows[1..], keep)
    else Filter(rows[1..], keep)
  }

  lemma {:induction false} FilterMember<T>(rows: seq<T>, keep: T -> bool, x: T)
    ensures x in Filter(rows, keep) <==> x in rows && keep(x)
  {
    if rows != [] {
      FilterMember(rows[1..], keep, x);
    }
  }

  lemma {:induction false} FilterConcat<T>(a: seq<T>, b: seq<T>, keep: T -> bool)
    ensures Filter(a + b, keep) == Filter(a, keep) + Filter(b, keep)
  {
    if a == [] {
      assert a + b == b;
    } else {
      assert (a + b)[1..] == a[1..] + b;
      FilterConcat(a[1..], b, keep);
    }
  }

  /** Selecting twice is selecting once when the first clause keeps all the second one wants. */
  lemma {:induction false} FilterFilter<T>(rows: seq<T>, first: T -> bool, second: T -> bool)
    requires forall x :: x in rows && second(x) ==> first(x)
    ensures Filter(Filter(rows, first), second) == Filter(rows, second)
  {
    if rows != [] {
      FilterFilter(rows[1..], first, second);
      assert rows[0] in rows;
      assert forall x :: x in rows[1..] ==> x in rows;
    }
  }

  ghost predicate NoDup<T>(s: seq<T>) {
    forall i, j :: 0 <= i < j < |s| ==> s[i] != s[j]
  }

  lemma {:induction false} FilterNoDup<T>(rows: seq<T>, keep: T -> bool)
    requires NoDup(rows)
    ensures NoDup(Filter(rows, keep))
  {
    if rows != [] {
      FilterNoDup(rows[1..], keep);
      FilterMember(rows[1..], keep, rows[0]);
    }
  }

  lemma {:induction false} FilterAtMostOne<T>(rows: seq<T>, keep: T -> bool)
    requires NoDup(rows)
    requires forall x, y :: x in rows && y in rows && keep(x) && keep(y) ==> x == y
    ensures |Filter(rows, keep)| <= 1
  {
    FilterNoDup(rows, keep);
    var kept := Filter(rows, keep);
    if |kept| > 1 {
      FilterMember(rows, keep, kept[0]);
      FilterMember(rows, keep, kept[1]);
    }
  }
}
