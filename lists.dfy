/**
 * The array operations the catalog pages chain together: `filter`,
 * de-duplication through a `Set` (which keeps first occurrences in
 * insertion order) and the stable `sort` of JavaScript arrays.
 */
module Lists {
  import opened Js

  /** `a` is `b` with some elements dropped and the rest kept in order. */
  predicate IsSubsequence<T(==)>(a: seq<T>, b: seq<T>)
  {
    a == [] || (b != [] && ((a[0] == b[0] && IsSubsequence(a[1..], b[1..])) || IsSubsequence(a, b[1..])))
  }

  /** `xs.filter(keep)`. */
  function Filter<T>(xs: seq<T>, keep: T -> bool): seq<T>
  {
    if xs == [] then []
    else if keep(xs[0]) then [xs[0]] + Filter(xs[1..], keep)
    else Filter(xs[1..], keep)
  }

  /** Filtering keeps exactly the elements that pass, and only those. */
  lemma {:induction false} FilterMembers<T>(xs: seq<T>, keep: T -> bool)
    ensures forall x :: x in Filter(xs, keep) <==> x in xs && keep(x)
  {
    if xs != [] {
      FilterMembers(xs[1..], keep);
      assert xs == [xs[0]] + xs[1..];
    }
  }

  /** Filtering keeps the survivors in their original order. */
  lemma {:induction false} FilterIsSubsequence<T>(xs: seq<T>, keep: T -> bool)
    ensures IsSubsequence(Filter(xs, keep), xs)
  {
    if xs != [] {
      FilterIsSubsequence(xs[1..], keep);
    }
  }

  /** No element occurs twice. */
  predicate NoDuplicates<T(==)>(xs: seq<T>)
  {
    forall i, j :: 0 <= i < j < |xs| ==> xs[i] != xs[j]
  }

  /** `Array.from(new Set(xs))`: the first occurrence of every element, in order. */
  function Distinct<T(==)>(xs: seq<T>): seq<T>
  {
    if xs == [] then []
    else
      var front := Distinct(xs[..|xs| - 1]);
      if xs[|xs| - 1] in front then front else front + [xs[|xs| - 1]]
  }

  /** The de-duplicated list holds every element of the input exactly once. */
  lemma {:induction false} DistinctSpec<T>(xs: seq<T>)
    ensures NoDuplicates(Distinct(xs))
    ensures forall x :: x in Distinct(xs) <==> x in xs
  {
    if xs != [] {
      var init := xs[..|xs| - 1];
      DistinctSpec(init);
      assert xs == init + [xs[|xs| - 1]];
    }
  }

  /** `xs` is in ascending order of `key`. */
  predicate SortedBy<T>(xs: seq<T>, key: T -> string)
  {
    forall i, j :: 0 <= i < j < |xs| ==> LexLe(key(xs[i]), key(xs[j]))
  }

  /** Puts `x` before the first element whose key is not smaller, so that equal
      keys keep their relative order. */
  function Insert<T>(x: T, ys: seq<T>, key: T -> string): seq<T>
  {
    if ys == [] || LexLe(key(x), key(ys[0])) then [x] + ys
    else [ys[0]] + Insert(x, ys[1..], key)
  }

  /** `xs.sort()` with the default comparison of the keys: a stable insertion sort. */
  function SortBy<T>(xs: seq<T>, key: T -> string): seq<T>
  {
    if xs == [] then [] else Insert(xs[0], SortBy(xs[1..], key), key)
  }

  /** Inserting adds exactly one element. */
  lemma {:induction false} InsertPermutes<T>(x: T, ys: seq<T>, key: T -> string)
    ensures multiset(Insert(x, ys, key)) == multiset(ys) + multiset{x}
  {
    if ys != [] && !LexLe(key(x), key(ys[0])) {
      InsertPermutes(x, ys[1..], key);
      assert ys == [ys[0]] + ys[1..];
    }
  }

  /** Inserting into a sorted list keeps it sorted. */
  lemma {:induction false} InsertSorted<T>(x: T, ys: seq<T>, key: T -> string)
    requires SortedBy(ys, key)
    ensures SortedBy(Insert(x, ys, key), key)
  {
    if ys != [] && !LexLe(key(x), key(ys[0])) {
      var rest := Insert(x, ys[1..], key);
      InsertSorted(x, ys[1..], key);
      InsertPermutes(x, ys[1..], key);
      LexLeTotal(key(x), key(ys[0]));
      var r := [ys[0]] + rest;
      forall j | 0 < j < |r| ensures LexLe(key(r[0]), key(r[j])) {
        assert r[j] in multiset(rest);
        assert r[j] == x || r[j] in ys[1..];
      }
      assert SortedBy(r, key);
    } else if ys != [] {
      var r := [x] + ys;
      forall j | 1 < j < |r| ensures LexLe(key(x), key(r[j])) {
        LexLeTransitive(key(x), key(ys[0]), key(ys[j - 1]));
      }
      assert SortedBy(r, key);
    }
  }

  /** Sorting yields an ordered permutation of its input. */
  lemma {:induction false} SortBySpec<T>(xs: seq<T>, key: T -> string)
    ensures SortedBy(SortBy(xs, key), key)
    ensures multiset(SortBy(xs, key)) == multiset(xs)
  {
    if xs != [] {
      SortBySpec(xs[1..], key);
      InsertSorted(xs[0], SortBy(xs[1..], key), key);
      InsertPermutes(xs[0], SortBy(xs[1..], key), key);
      assert xs == [xs[0]] + xs[1..];
    }
  }

  /** A permutation of a list without duplicates has none either. */
  lemma PermutationKeepsNoDuplicates<T>(xs: seq<T>, ys: seq<T>)
    requires multiset(xs) == multiset(ys) && NoDuplicates(xs)
    ensures NoDuplicates(ys)
  {
    forall i, j | 0 <= i < j < |ys| ensures ys[i] != ys[j] {
      if ys[i] == ys[j] {
        var y := ys[i];
        assert multiset(ys[..j]) + multiset(ys[j..]) == multiset(ys) by { assert ys == ys[..j] + ys[j..]; }
        assert y in multiset(ys[..j]) && y in multiset(ys[j..]);
        assert multiset(ys)[y] >= 2;
        CountAtMostOne(xs, y);
      }
    }
  }

  lemma {:induction false} CountAtMostOne<T>(xs: seq<T>, y: T)
    requires NoDuplicates(xs)
    ensures multiset(xs)[y] <= 1
  {
    if xs != [] {
      CountAtMostOne(xs[1..], y);
      assert xs == [xs[0]] + xs[1..];
      if xs[0] == y {
        assert y !in xs[1..];
      }
    }
  }
}
