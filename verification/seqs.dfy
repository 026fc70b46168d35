/** Order-preserving sequence operations the scraper uses through JavaScript
    arrays: `Array.prototype.filter` and the `Array.from(new Set(xs))` idiom. */
module Seqs {

  /** `xs.filter(keep)`: the elements satisfying `keep`, in their original order. */
  function Filter<T>(xs: seq<T>, keep: T -> bool): (r: seq<T>)
    ensures |r| <= |xs|
    ensures forall i :: 0 <= i < |r| ==> keep(r[i])
    ensures forall i :: 0 <= i < |xs| && keep(xs[i]) ==> xs[i] in r
    ensures forall i :: 0 <= i < |r| ==> r[i] in xs
  {
    if |xs| == 0 then []
    else
      var init := Filter(xs[..|xs| - 1], keep);
      var last := xs[|xs| - 1];
      assert forall i :: 0 <= i < |xs| - 1 ==> xs[..|xs| - 1][i] == xs[i];
      if keep(last) then init + [last] else init
  }

  /** Filtering commutes with concatenation, which is what "order is kept" means. */
  lemma {:induction false} FilterConcat<T>(a: seq<T>, b: seq<T>, keep: T -> bool)
    ensures Filter(a + b, keep) == Filter(a, keep) + Filter(b, keep)
    decreases |b|
  {
    if |b| == 0 {
      assert a + b == a;
    } else {
      var b' := b[..|b| - 1];
      assert (a + b)[..|a + b| - 1] == a + b';
      FilterConcat(a, b', keep);
    }
  }

  /** Every element satisfies `keep` exactly when filtering removes nothing. */
  lemma {:induction false} FilterAll<T>(xs: seq<T>, keep: T -> bool)
    requires forall i :: 0 <= i < |xs| ==> keep(xs[i])
    ensures Filter(xs, keep) == xs
    decreases |xs|
  {
    if |xs| > 0 {
      FilterAll(xs[..|xs| - 1], keep);
      assert xs[..|xs| - 1] + [xs[|xs| - 1]] == xs;
    }
  }

  /** Nothing is kept when no element satisfies `keep`. */
  lemma {:induction false} FilterNone<T>(xs: seq<T>, keep: T -> bool)
    requires forall i :: 0 <= i < |xs| ==> !keep(xs[i])
    ensures Filter(xs, keep) == []
    decreases |xs|
  {
    if |xs| > 0 {
      FilterNone(xs[..|xs| - 1], keep);
    }
  }

  /** `Array.from(new Set(xs))`: a Set remembers insertion order, so this keeps the
      first occurrence of every value and drops later repeats. */
  function Dedup<T(==,!new)>(xs: seq<T>): (r: seq<T>)
    ensures |r| <= |xs|
    ensures forall x :: x in r <==> x in xs
    ensures forall i, j :: 0 <= i < j < |r| ==> r[i] != r[j]
    ensures |xs| > 0 ==> |r| > 0 && r[0] == xs[0]
  {
    if |xs| == 0 then []
    else
      var init := Dedup(xs[..|xs| - 1]);
      var last := xs[|xs| - 1];
      assert forall x :: x in xs <==> x in xs[..|xs| - 1] || x == last;
      if last in init then init else init + [last]
  }

  /** A sequence with no repeats is its own de-duplication. */
  lemma {:induction false} DedupDistinct<T(!new)>(xs: seq<T>)
    requires forall i, j :: 0 <= i < j < |xs| ==> xs[i] != xs[j]
    ensures Dedup(xs) == xs
    decreases |xs|
  {
    if |xs| > 0 {
      var init := xs[..|xs| - 1];
      DedupDistinct(init);
      assert xs[|xs| - 1] !in init by {
        forall i | 0 <= i < |init| ensures init[i] != xs[|xs| - 1] {
          assert init[i] == xs[i];
        }
      }
      assert init + [xs[|xs| - 1]] == xs;
    }
  }

  /** Appending a value that is already present changes nothing, and a new value is
      added at the end: the values stay in the order of their first occurrence. */
  lemma DedupAppend<T(!new)>(xs: seq<T>, x: T)
    ensures Dedup(xs + [x]) == if x in xs then Dedup(xs) else Dedup(xs) + [x]
  {
    assert (xs + [x])[..|xs|] == xs;
  }

  /** Two values keep the order of their first occurrences. */
  lemma {:induction false} DedupKeepsFirstOrder<T(!new)>(a: seq<T>, x: T, b: seq<T>, y: T, c: seq<T>)
    requires x !in a && y !in a + [x] + b && x != y
    ensures var r := Dedup(a + [x] + b + [y] + c);
            exists i, j :: 0 <= i < j < |r| && r[i] == x && r[j] == y
    decreases |c|
  {
    if |c| == 0 {
      var p := a + [x] + b;
      assert x in p;
      DedupAppend(p, y);
      assert a + [x] + b + [y] + c == p + [y];
      var r := Dedup(p);
      var i :| 0 <= i < |r| && r[i] == x;
      assert (r + [y])[i] == x && (r + [y])[|r|] == y;
    } else {
      var c' := c[..|c| - 1];
      var z := c[|c| - 1];
      DedupKeepsFirstOrder(a, x, b, y, c');
      assert a + [x] + b + [y] + c == (a + [x] + b + [y] + c') + [z];
      DedupAppend(a + [x] + b + [y] + c', z);
      var r := Dedup(a + [x] + b + [y] + c');
      var i, j :| 0 <= i < j < |r| && r[i] == x && r[j] == y;
      assert (r + [z])[i] == x && (r + [z])[j] == y;
    }
  }
}
