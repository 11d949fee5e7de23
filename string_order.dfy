/**
 * Python's ordering of `str` values, used both for the date-range filter
 * (the dates are compared as text) and for sorting the city list.
 */
module StringOrder {

  /** `a <= b` on Python strings: code point by code point; a proper prefix sorts first. */
  predicate Le(a: string, b: string)
    decreases |a|
  {
    if a == [] then true
    else if b == [] then false
    else if a[0] != b[0] then a[0] < b[0]
    else Le(a[1..], b[1..])
  }

  /** `a < b` on Python strings. */
  predicate Lt(a: string, b: string)
  {
    Le(a, b) && a != b
  }

  lemma {:induction false} LeReflexive(a: string)
    ensures Le(a, a)
    decreases |a|
  {
    if a != [] {
      LeReflexive(a[1..]);
    }
  }

  lemma {:induction false} LeAntisymmetric(a: string, b: string)
    requires Le(a, b) && Le(b, a)
    ensures a == b
    decreases |a|
  {
    if a != [] && b != [] && a[0] == b[0] {
      LeAntisymmetric(a[1..], b[1..]);
      assert a == [a[0]] + a[1..];
      assert b == [b[0]] + b[1..];
    }
  }

  lemma {:induction false} LeTransitive(a: string, b: string, c: string)
    requires Le(a, b) && Le(b, c)
    ensures Le(a, c)
    decreases |a|
  {
    if a != [] && b != [] && c != [] && a[0] == b[0] && b[0] == c[0] {
      LeTransitive(a[1..], b[1..], c[1..]);
    }
  }

  lemma {:induction false} LeTotal(a: string, b: string)
    ensures Le(a, b) || Le(b, a)
    decreases |a|
  {
    if a != [] && b != [] && a[0] == b[0] {
      LeTotal(a[1..], b[1..]);
    }
  }

  /** Python's `<` is the negation of `>=`: exactly one of `a < b`, `a == b`, `b < a` holds. */
  lemma LtIffNotLe(a: string, b: string)
    ensures Lt(a, b) <==> !Le(b, a)
  {
    LeTotal(a, b);
    if Le(a, b) && Le(b, a) {
      LeAntisymmetric(a, b);
    }
    if a == b {
      LeReflexive(a);
    }
  }

  lemma LtTransitive(a: string, b: string, c: string)
    requires Lt(a, b) && Lt(b, c)
    ensures Lt(a, c)
  {
    LeTransitive(a, b, c);
    if a == c {
      LeAntisymmetric(a, b);
    }
  }

  /** Every later element is strictly greater than every earlier one: sorted and free of duplicates. */
  predicate StrictlyAscending(xs: seq<string>)
  {
    forall i, j | 0 <= i < j < |xs| :: Lt(xs[i], xs[j])
  }

  lemma AscendingHasNoDuplicates(xs: seq<string>)
    requires StrictlyAscending(xs)
    ensures forall i, j | 0 <= i < |xs| && 0 <= j < |xs| && i != j :: xs[i] != xs[j]
  {
  }

  lemma AscendingCons(x: string, xs: seq<string>)
    requires StrictlyAscending(xs)
    requires forall y | y in xs :: Lt(x, y)
    ensures StrictlyAscending([x] + xs)
  {
    var ys := [x] + xs;
    forall i, j | 0 <= i < j < |ys| ensures Lt(ys[i], ys[j]) {
      if i == 0 {
        assert ys[j] == xs[j - 1];
      } else {
        assert ys[i] == xs[i - 1] && ys[j] == xs[j - 1];
      }
    }
  }

  /**
   * Inserts `c` into a strictly ascending list unless it is already there:
   * one step of `sorted(set(...))`.
   */
  function InsertDistinct(xs: seq<string>, c: string): (r: seq<string>)
    requires StrictlyAscending(xs)
    ensures StrictlyAscending(r)
    ensures forall y :: y in r <==> y in xs || y == c
  {
    if xs == [] then [c]
    else if c == xs[0] then xs
    else if Lt(c, xs[0]) then
      forall y | y in xs ensures Lt(c, y) {
        if y != xs[0] {
          var k :| 0 < k < |xs| && xs[k] == y;
          LtTransitive(c, xs[0], y);
        }
      }
      AscendingCons(c, xs);
      [c] + xs
    else
      var rest := InsertDistinct(xs[1..], c);
      LtIffNotLe(c, xs[0]);
      LtIffNotLe(xs[0], c);
      assert Lt(xs[0], c);
      assert xs == [xs[0]] + xs[1..];
      AscendingCons(xs[0], rest);
      [xs[0]] + rest
  }

  /**
   * A strictly ascending list is determined by its elements: any two such
   * lists holding the same strings are equal.
   */
  lemma {:induction false} AscendingUnique(xs: seq<string>, ys: seq<string>)
    requires StrictlyAscending(xs) && StrictlyAscending(ys)
    requires forall y :: y in xs <==> y in ys
    ensures xs == ys
    decreases |xs|
  {
    if xs == [] {
      assert forall k | 0 <= k < |ys| :: ys[k] !in xs;
    } else {
      assert xs[0] in ys;
      assert ys != [];
      assert ys[0] in xs;
      if xs[0] != ys[0] {
        assert Lt(xs[0], ys[0]) by {
          var k :| 0 <= k < |xs| && xs[k] == ys[0];
        }
        assert Lt(ys[0], xs[0]) by {
          var k :| 0 <= k < |ys| && ys[k] == xs[0];
        }
        LtTransitive(xs[0], ys[0], xs[0]);
        assert false;
      }
      forall y ensures y in xs[1..] <==> y in ys[1..] {
        assert xs == [xs[0]] + xs[1..];
        assert ys == [ys[0]] + ys[1..];
        if y in xs[1..] {
          var k :| 1 <= k < |xs| && xs[k] == y;
          assert Lt(xs[0], y);
          assert y in ys && y != ys[0];
        }
        if y in ys[1..] {
          var k :| 1 <= k < |ys| && ys[k] == y;
          assert Lt(ys[0], y);
          assert y in xs && y != xs[0];
        }
      }
      AscendingUnique(xs[1..], ys[1..]);
      assert xs == [xs[0]] + xs[1..];
      assert ys == [ys[0]] + ys[1..];
    }
  }
}
