/** Relational building blocks over sequence-backed tables: `WHERE` as an
    order-preserving selection, `COUNT`, and `ORDER BY <key> DESC`. */
module Rows {

  /** `xs` is ordered by `key`, largest first (SQL `ORDER BY key DESC`). */
  predicate NewestFirst<T>(xs: seq<T>, key: T -> int) {
    forall i, j | 0 <= i < j < |xs| :: key(xs[i]) >= key(xs[j])
  }

  /** No two rows of `xs` share a `key` (a primary-key or UNIQUE constraint). */
  predicate UniqueBy<T, K(==)>(xs: seq<T>, key: T -> K) {
    forall i, j | 0 <= i < j < |xs| :: key(xs[i]) != key(xs[j])
  }

  /** The rows of `xs` satisfying `keep`, in table order (SQL `WHERE`). */
  function Select<T(==)>(xs: seq<T>, keep: T -> bool): (r: seq<T>)
    ensures forall i | 0 <= i < |r| :: r[i] in xs && keep(r[i])
    ensures forall i | 0 <= i < |xs| && keep(xs[i]) :: xs[i] in r
    ensures |r| <= |xs|
    ensures |r| == |xs| <==> forall i | 0 <= i < |xs| :: keep(xs[i])
  {
    if |xs| == 0 then []
    else
      var rest := Select(xs[1..], keep);
      assert forall i | 1 <= i < |xs| :: xs[i] == xs[1..][i - 1];
      if keep(xs[0]) then [xs[0]] + rest else rest
  }

  /** Selection keeps every copy of a kept row and no copy of any other row:
      it neither duplicates nor drops rows. */
  lemma {:induction false} SelectMultiplicity<T>(xs: seq<T>, keep: T -> bool, y: T)
    ensures multiset(Select(xs, keep))[y] == if keep(y) then multiset(xs)[y] else 0
  {
    if |xs| > 0 {
      var tail := xs[1..];
      assert xs == [xs[0]] + tail;
      assert multiset(xs) == multiset{xs[0]} + multiset(tail);
      SelectMultiplicity(tail, keep, y);
      if keep(xs[0]) {
        assert multiset([xs[0]] + Select(tail, keep)) == multiset{xs[0]} + multiset(Select(tail, keep));
      }
    }
  }

  /** Selection distributes over concatenation: a `WHERE` keeps table order. */
  lemma {:induction false} SelectConcat<T>(xs: seq<T>, ys: seq<T>, keep: T -> bool)
    ensures Select(xs + ys, keep) == Select(xs, keep) + Select(ys, keep)
  {
    if |xs| > 0 {
      assert (xs + ys)[1..] == xs[1..] + ys;
      SelectConcat(xs[1..], ys, keep);
    } else {
      assert xs + ys == ys;
    }
  }

  /** Selection keeps a uniqueness constraint: a subset of distinct keys is distinct. */
  lemma {:induction false} SelectUniqueBy<T, K>(xs: seq<T>, keep: T -> bool, key: T -> K)
    requires UniqueBy(xs, key)
    ensures UniqueBy(Select(xs, keep), key)
  {
    if |xs| > 0 {
      var tail := xs[1..];
      var rest := Select(tail, keep);
      assert UniqueBy(tail, key) by {
        forall i, j | 0 <= i < j < |tail| ensures key(tail[i]) != key(tail[j]) {
          assert tail[i] == xs[i + 1] && tail[j] == xs[j + 1];
        }
      }
      SelectUniqueBy(tail, keep, key);
      if keep(xs[0]) {
        var r := [xs[0]] + rest;
        assert Select(xs, keep) == r;
        forall i, j | 0 <= i < j < |r|
          ensures key(r[i]) != key(r[j])
        {
          assert r[j] == rest[j - 1];
          if i == 0 {
            assert rest[j - 1] in tail;
            var k :| 0 <= k < |tail| && tail[k] == rest[j - 1];
            assert tail[k] == xs[k + 1];
          } else {
            assert r[i] == rest[i - 1];
          }
        }
      } else {
        assert Select(xs, keep) == rest;
      }
    }
  }

  /** The number of rows satisfying `keep` (SQL `COUNT`), row by row. */
  function Count<T(==)>(xs: seq<T>, keep: T -> bool): (n: nat)
    ensures n <= |xs|
    ensures n == 0 <==> forall i | 0 <= i < |xs| :: !keep(xs[i])
    ensures n == |Select(xs, keep)|
  {
    if |xs| == 0 then 0
    else
      assert forall i | 1 <= i < |xs| :: xs[i] == xs[1..][i - 1];
      (if keep(xs[0]) then 1 else 0) + Count(xs[1..], keep)
  }

  /** Counting is additive over concatenated tables. */
  lemma {:induction false} CountConcat<T>(xs: seq<T>, ys: seq<T>, keep: T -> bool)
    ensures Count(xs + ys, keep) == Count(xs, keep) + Count(ys, keep)
  {
    SelectConcat(xs, ys, keep);
  }

  /** Every row of `xs` has a key of at most `k`. */
  predicate KeysAtMost<T>(xs: seq<T>, key: T -> int, k: int) {
    forall i | 0 <= i < |xs| :: key(xs[i]) <= k
  }

  /** Prepending a row whose key bounds the rest keeps a table newest first. */
  lemma PrependNewestFirst<T>(x: T, xs: seq<T>, key: T -> int)
    requires NewestFirst(xs, key) && KeysAtMost(xs, key, key(x))
    ensures NewestFirst([x] + xs, key)
  {
    var r := [x] + xs;
    forall i, j | 0 <= i < j < |r|
      ensures key(r[i]) >= key(r[j])
    {
      assert r[j] == xs[j - 1];
      if i > 0 { assert r[i] == xs[i - 1]; }
    }
  }

  /** Places `x` into a table already ordered newest first, ahead of rows with
      an equal key. */
  function Insert<T>(x: T, xs: seq<T>, key: T -> int): (r: seq<T>)
    requires NewestFirst(xs, key)
    ensures NewestFirst(r, key)
    ensures multiset(r) == multiset(xs) + multiset{x}
    ensures |r| == |xs| + 1
    ensures forall i | 0 <= i < |r| :: r[i] == x || r[i] in xs
  {
    if |xs| == 0 || key(x) >= key(xs[0]) then
      PrependNewestFirst(x, xs, key);
      assert forall i | 1 <= i < |xs| + 1 :: ([x] + xs)[i] == xs[i - 1];
      [x] + xs
    else
      var tail := xs[1..];
      var rest := Insert(x, tail, key);
      assert KeysAtMost(rest, key, key(xs[0])) by {
        forall i | 0 <= i < |rest|
          ensures key(rest[i]) <= key(xs[0])
        {
          if rest[i] != x {
            var k :| 0 <= k < |tail| && tail[k] == rest[i];
            assert tail[k] == xs[k + 1];
          }
        }
      }
      PrependNewestFirst(xs[0], rest, key);
      assert xs == [xs[0]] + tail;
      assert multiset([xs[0]] + rest) == multiset{xs[0]} + multiset(rest);
      assert forall i | 1 <= i < |rest| + 1 :: ([xs[0]] + rest)[i] == rest[i - 1];
      [xs[0]] + rest
  }

  /** `xs` reordered newest first (an insertion sort; rows with equal keys keep
      their table order). */
  function SortNewestFirst<T(==)>(xs: seq<T>, key: T -> int): (r: seq<T>)
    ensures NewestFirst(r, key)
    ensures multiset(r) == multiset(xs)
    ensures |r| == |xs|
    ensures forall i | 0 <= i < |r| :: r[i] in xs
    ensures forall i | 0 <= i < |xs| :: xs[i] in r
  {
    if |xs| == 0 then []
    else
      var tail := xs[1..];
      assert xs == [xs[0]] + tail;
      var sortedTail := SortNewestFirst(tail, key);
      var r := Insert(xs[0], sortedTail, key);
      assert multiset(xs) == multiset{xs[0]} + multiset(tail);
      assert forall i | 0 <= i < |r| :: r[i] in xs by {
        forall i | 0 <= i < |r| ensures r[i] in xs {
          if r[i] != xs[0] {
            assert r[i] in tail;
          }
        }
      }
      assert forall i | 0 <= i < |xs| :: xs[i] in r by {
        forall i | 0 <= i < |xs| ensures xs[i] in r {
          assert xs[i] in multiset(xs);
          assert xs[i] in multiset(r);
        }
      }
      r
  }

  /** Sorting keeps any property every row has. */
  lemma SortKeepsProperty<T>(xs: seq<T>, key: T -> int, p: T -> bool)
    requires forall i | 0 <= i < |xs| :: p(xs[i])
    ensures forall i | 0 <= i < |SortNewestFirst(xs, key)| :: p(SortNewestFirst(xs, key)[i])
  {
    var r := SortNewestFirst(xs, key);
    forall i | 0 <= i < |r| ensures p(r[i]) {
      var k :| 0 <= k < |xs| && xs[k] == r[i];
    }
  }
}
