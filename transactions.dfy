/**
 * The dataset: one record per service transaction, kept in file order,
 * and the two operations the dashboard applies to a column selection of
 * it: boolean-mask row selection (`dff[mask]`) and the sum of `Amount`.
 */
module Transactions {

  /**
   * One row of the dataset. `date` is the `Date of Service` column as read
   * from the file, i.e. text; `amount` is `Amount` in the smallest currency unit.
   */
  datatype Record = Record(city: string, date: string, service: string, amount: int)

  /**
   * `rows[mask]` where `mask` is `keep` applied to every row: the rows for
   * which `keep` holds, in their original order.
   */
  function Where(rows: seq<Record>, keep: Record -> bool): (kept: seq<Record>)
    ensures |kept| <= |rows|
    ensures forall r :: r in kept <==> r in rows && keep(r)
  {
    if rows == [] then []
    else
      assert rows == [rows[0]] + rows[1..];
      (if keep(rows[0]) then [rows[0]] else []) + Where(rows[1..], keep)
  }

  /** The sum of the amounts of `rows`: 0 for no rows. */
  function Total(rows: seq<Record>): int
  {
    if rows == [] then 0 else rows[0].amount + Total(rows[1..])
  }

  /** `sub` can be obtained from `rows` by deleting rows, without reordering the rest. */
  predicate IsSubsequence(sub: seq<Record>, rows: seq<Record>)
    decreases |rows|
  {
    if sub == [] then true
    else if rows == [] then false
    else (sub[0] == rows[0] && IsSubsequence(sub[1..], rows[1..])) || IsSubsequence(sub, rows[1..])
  }

  /** No rows bring no revenue; this holds by the definition of `Total`. */
  lemma TotalEmpty()
    ensures Total([]) == 0
  {
  }

  lemma {:induction false} TotalAppend(a: seq<Record>, b: seq<Record>)
    ensures Total(a + b) == Total(a) + Total(b)
    decreases |a|
  {
    if a != [] {
      assert (a + b)[1..] == a[1..] + b;
      TotalAppend(a[1..], b);
    } else {
      assert a + b == b;
    }
  }

  /** One step of `Total(Where(...))`: the first row contributes its amount exactly when it is kept. */
  lemma TotalWhereCons(rows: seq<Record>, keep: Record -> bool)
    requires rows != []
    ensures Total(Where(rows, keep))
         == (if keep(rows[0]) then rows[0].amount else 0) + Total(Where(rows[1..], keep))
  {
    TotalAppend(if keep(rows[0]) then [rows[0]] else [], Where(rows[1..], keep));
  }

  /** Row selection never reorders: the kept rows are an order-preserving subsequence. */
  lemma {:induction false} WhereIsSubsequence(rows: seq<Record>, keep: Record -> bool)
    ensures IsSubsequence(Where(rows, keep), rows)
    decreases |rows|
  {
    if rows != [] {
      WhereIsSubsequence(rows[1..], keep);
      var w := Where(rows[1..], keep);
      if keep(rows[0]) {
        assert Where(rows, keep) == [rows[0]] + w;
        assert ([rows[0]] + w)[1..] == w;
      } else {
        assert Where(rows, keep) == w;
      }
    }
  }

  /** Each row value is kept as many times as it occurs in `rows` if it passes, and never otherwise. */
  lemma {:induction false} WhereMultiset(rows: seq<Record>, keep: Record -> bool)
    ensures forall r :: multiset(Where(rows, keep))[r] == if keep(r) then multiset(rows)[r] else 0
    decreases |rows|
  {
    if rows != [] {
      WhereMultiset(rows[1..], keep);
      assert rows == [rows[0]] + rows[1..];
      assert multiset(rows) == multiset([rows[0]]) + multiset(rows[1..]);
      var head: seq<Record> := if keep(rows[0]) then [rows[0]] else [];
      assert multiset(Where(rows, keep)) == multiset(head) + multiset(Where(rows[1..], keep));
    }
  }

  /** Selection distributes over concatenation: it decides row by row. */
  lemma {:induction false} WhereAppend(a: seq<Record>, b: seq<Record>, keep: Record -> bool)
    ensures Where(a + b, keep) == Where(a, keep) + Where(b, keep)
    decreases |a|
  {
    if a == [] {
      assert a + b == b;
    } else {
      assert (a + b)[0] == a[0];
      assert (a + b)[1..] == a[1..] + b;
      WhereAppend(a[1..], b, keep);
    }
  }

  /** Selecting with `p` and then with `q` is selecting with `p && q`. */
  lemma {:induction false} WhereTwice(rows: seq<Record>, p: Record -> bool, q: Record -> bool, both: Record -> bool)
    requires forall r :: both(r) == (p(r) && q(r))
    ensures Where(Where(rows, p), q) == Where(rows, both)
    decreases |rows|
  {
    if rows != [] {
      var head: seq<Record> := if p(rows[0]) then [rows[0]] else [];
      WhereAppend(head, Where(rows[1..], p), q);
      WhereTwice(rows[1..], p, q, both);
    }
  }

  /** Two masks that agree on every row select the same rows. */
  lemma {:induction false} WhereSameMask(rows: seq<Record>, p: Record -> bool, q: Record -> bool)
    requires forall r :: p(r) == q(r)
    ensures Where(rows, p) == Where(rows, q)
    decreases |rows|
  {
    if rows != [] {
      WhereSameMask(rows[1..], p, q);
    }
  }

  /** A mask true on every row keeps the whole sequence, in order. */
  lemma {:induction false} WhereAll(rows: seq<Record>, keep: Record -> bool)
    requires forall r | r in rows :: keep(r)
    ensures Where(rows, keep) == rows
    decreases |rows|
  {
    if rows != [] {
      assert rows == [rows[0]] + rows[1..];
      WhereAll(rows[1..], keep);
    }
  }

  /**
   * A mask and its negation split the rows: the two counts add up to the
   * number of rows and the two totals to the total.
   */
  lemma {:induction false} WherePartition(rows: seq<Record>, keep: Record -> bool, drop: Record -> bool)
    requires forall r :: drop(r) == !keep(r)
    ensures |Where(rows, keep)| + |Where(rows, drop)| == |rows|
    ensures Total(Where(rows, keep)) + Total(Where(rows, drop)) == Total(rows)
    decreases |rows|
  {
    if rows != [] {
      WherePartition(rows[1..], keep, drop);
      TotalWhereCons(rows, keep);
      TotalWhereCons(rows, drop);
    }
  }
}
