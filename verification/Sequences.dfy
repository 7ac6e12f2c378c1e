/** Filtering, duplicate removal and stable sorting of lists, with the laws the
    store views rest on. */
module Sequences {

  // ----- Filter -----

  function Filter<T>(xs: seq<T>, p: T -> bool): seq<T> {
    if xs == [] then []
    else Filter(xs[..|xs| - 1], p) + (if p(xs[|xs| - 1]) then [xs[|xs| - 1]] else [])
  }

  lemma FilterSnoc<T>(xs: seq<T>, x: T, p: T -> bool)
    ensures Filter(xs + [x], p) == Filter(xs, p) + (if p(x) then [x] else [])
  {
    assert (xs + [x])[..|xs|] == xs;
  }

  lemma {:induction false} FilterConcat<T>(xs: seq<T>, ys: seq<T>, p: T -> bool)
    ensures Filter(xs + ys, p) == Filter(xs, p) + Filter(ys, p)
  {
    if ys == [] {
      assert xs + ys == xs;
    } else {
      var init, last := ys[..|ys| - 1], ys[|ys| - 1];
      FilterConcat(xs, init, p);
      assert xs + ys == (xs + init) + [last];
      FilterSnoc(xs + init, last, p);
    }
  }

  lemma {:induction false} FilterMembers<T>(xs: seq<T>, p: T -> bool, x: T)
    ensures x in Filter(xs, p) <==> x in xs && p(x)
  {
    if xs != [] {
      FilterMembers(xs[..|xs| - 1], p, x);
      assert xs == xs[..|xs| - 1] + [xs[|xs| - 1]];
    }
  }

  /** Two filters commute. */
  lemma {:induction false} FilterCommutes<T>(xs: seq<T>, p: T -> bool, q: T -> bool)
    ensures Filter(Filter(xs, p), q) == Filter(Filter(xs, q), p)
  {
    if xs != [] {
      var init, last := xs[..|xs| - 1], xs[|xs| - 1];
      FilterCommutes(init, p, q);
      if p(last) { FilterSnoc(Filter(init, p), last, q); }
      if q(last) { FilterSnoc(Filter(init, q), last, p); }
      assert Filter(init, p) + [] == Filter(init, p);
      assert Filter(init, q) + [] == Filter(init, q);
    }
  }

  /** Filters that agree on the list's elements give the same result. */
  lemma {:induction false} FilterAgree<T>(xs: seq<T>, p: T -> bool, q: T -> bool)
    requires forall x :: x in xs ==> p(x) == q(x)
    ensures Filter(xs, p) == Filter(xs, q)
  {
    if xs != [] {
      FilterAgree(xs[..|xs| - 1], p, q);
    }
  }

  lemma {:induction false} FilterAll<T>(xs: seq<T>, p: T -> bool)
    requires forall x :: x in xs ==> p(x)
    ensures Filter(xs, p) == xs
  {
    if xs != [] {
      FilterAll(xs[..|xs| - 1], p);
      assert xs == xs[..|xs| - 1] + [xs[|xs| - 1]];
    }
  }

  lemma {:induction false} FilterNone<T>(xs: seq<T>, p: T -> bool)
    requires forall x :: x in xs ==> !p(x)
    ensures Filter(xs, p) == []
  {
    if xs != [] {
      FilterNone(xs[..|xs| - 1], p);
    }
  }

  /** Overwriting one element splits a filtered list at that element. */
  lemma FilterSplit<T>(xs: seq<T>, i: nat, y: T, p: T -> bool)
    requires i < |xs|
    ensures Filter(xs, p) == Filter(xs[..i], p) + (if p(xs[i]) then [xs[i]] else []) + Filter(xs[i + 1..], p)
    ensures Filter(xs[i := y], p) == Filter(xs[..i], p) + (if p(y) then [y] else []) + Filter(xs[i + 1..], p)
  {
    assert xs == (xs[..i] + [xs[i]]) + xs[i + 1..];
    assert xs[i := y] == (xs[..i] + [y]) + xs[i + 1..];
    FilterConcat(xs[..i] + [xs[i]], xs[i + 1..], p);
    FilterConcat(xs[..i] + [y], xs[i + 1..], p);
    FilterSnoc(xs[..i], xs[i], p);
    FilterSnoc(xs[..i], y, p);
  }

  /** Where the first such element is, or the list's length if there is none. */
  function FirstIndex<T>(xs: seq<T>, p: T -> bool): (i: nat)
    ensures i <= |xs|
    ensures i < |xs| ==> p(xs[i])
    ensures forall j :: 0 <= j < i ==> !p(xs[j])
  {
    if xs == [] || p(xs[0]) then 0 else 1 + FirstIndex(xs[1..], p)
  }

  // ----- Dedup -----

  /** Keeps the first occurrence of every element. */
  function Dedup<T(==)>(xs: seq<T>): seq<T> {
    if xs == [] then []
    else
      var init, last := Dedup(xs[..|xs| - 1]), xs[|xs| - 1];
      if last in xs[..|xs| - 1] then init else init + [last]
  }

  ghost predicate NoDuplicates<T>(xs: seq<T>) {
    forall i, j :: 0 <= i < j < |xs| ==> xs[i] != xs[j]
  }

  lemma DedupSnoc<T>(xs: seq<T>, x: T)
    ensures Dedup(xs + [x]) == if x in xs then Dedup(xs) else Dedup(xs) + [x]
  {
    assert (xs + [x])[..|xs|] == xs;
  }

  lemma {:induction false} DedupMeaning<T>(xs: seq<T>)
    ensures NoDuplicates(Dedup(xs))
    ensures forall x :: x in Dedup(xs) <==> x in xs
  {
    if xs != [] {
      DedupMeaning(xs[..|xs| - 1]);
      assert xs == xs[..|xs| - 1] + [xs[|xs| - 1]];
    }
  }

  /** `Dedup` is the identity exactly on lists without duplicates. */
  lemma {:induction false} DedupFixed<T>(xs: seq<T>)
    ensures Dedup(xs) == xs <==> NoDuplicates(xs)
  {
    DedupMeaning(xs);
    if xs != [] && NoDuplicates(xs) {
      DedupFixed(xs[..|xs| - 1]);
      assert xs == xs[..|xs| - 1] + [xs[|xs| - 1]];
    }
  }

  // ----- Stable sort -----

  ghost predicate SortedBy<T>(xs: seq<T>, key: T -> int) {
    forall i, j :: 0 <= i < j < |xs| ==> key(xs[i]) <= key(xs[j])
  }

  function InsertStable<T>(xs: seq<T>, x: T, key: T -> int): seq<T> {
    if xs == [] then [x]
    else if key(xs[|xs| - 1]) <= key(x) then xs + [x]
    else InsertStable(xs[..|xs| - 1], x, key) + [xs[|xs| - 1]]
  }

  /** What `sort.SliceStable` computes for a comparison on integer keys.
      `StableSortUnique` shows that any stable sort computes this. */
  function StableSort<T>(xs: seq<T>, key: T -> int): seq<T> {
    if xs == [] then [] else InsertStable(StableSort(xs[..|xs| - 1], key), xs[|xs| - 1], key)
  }

  /** The elements with one given key, in list order. */
  function HasKey<T>(key: T -> int, k: int): T -> bool {
    x => key(x) == k
  }

  lemma {:induction false} InsertMembers<T>(xs: seq<T>, x: T, key: T -> int)
    ensures multiset(InsertStable(xs, x, key)) == multiset(xs) + multiset{x}
  {
    if xs != [] {
      var init, last := xs[..|xs| - 1], xs[|xs| - 1];
      assert xs == init + [last];
      InsertMembers(init, x, key);
    }
  }

  lemma {:induction false} InsertKeepsSorted<T>(xs: seq<T>, x: T, key: T -> int)
    requires SortedBy(xs, key)
    ensures SortedBy(InsertStable(xs, x, key), key)
  {
    if xs != [] && key(xs[|xs| - 1]) > key(x) {
      var init, last := xs[..|xs| - 1], xs[|xs| - 1];
      InsertKeepsSorted(init, x, key);
      var r := InsertStable(init, x, key);
      forall i | 0 <= i < |r| ensures key(r[i]) <= key(last) {
        InsertMembers(init, x, key);
        assert r[i] in multiset(r);
        assert r[i] in init || r[i] == x;
      }
    }
  }

  lemma {:induction false} InsertKeepsOrder<T>(xs: seq<T>, x: T, key: T -> int, k: int)
    requires SortedBy(xs, key)
    ensures Filter(InsertStable(xs, x, key), HasKey(key, k))
         == Filter(xs, HasKey(key, k)) + (if key(x) == k then [x] else [])
  {
    hide Filter;
    FilterNone([], HasKey(key, k));
    if xs == [] {
      FilterSnoc([], x, HasKey(key, k));
      assert [] + [x] == [x];
    } else {
      var init, last := xs[..|xs| - 1], xs[|xs| - 1];
      if key(last) <= key(x) {
        FilterSnoc(xs, x, HasKey(key, k));
      } else {
        InsertKeepsOrder(init, x, key, k);
        assert xs == init + [last];
        FilterSnoc(init, last, HasKey(key, k));
        FilterSnoc(InsertStable(init, x, key), last, HasKey(key, k));
        if key(x) == k {
          assert Filter(xs, HasKey(key, k)) == Filter(init, HasKey(key, k));
        }
      }
    }
  }

  /** Sorted, a permutation, and elements with equal keys keep their order. */
  lemma {:induction false} StableSortMeaning<T>(xs: seq<T>, key: T -> int)
    ensures SortedBy(StableSort(xs, key), key)
    ensures multiset(StableSort(xs, key)) == multiset(xs)
    ensures forall k :: Filter(StableSort(xs, key), HasKey(key, k)) == Filter(xs, HasKey(key, k))
  {
    if xs != [] {
      var init, last := xs[..|xs| - 1], xs[|xs| - 1];
      assert xs == init + [last];
      StableSortMeaning(init, key);
      InsertKeepsSorted(StableSort(init, key), last, key);
      InsertMembers(StableSort(init, key), last, key);
      forall k ensures Filter(StableSort(xs, key), HasKey(key, k)) == Filter(xs, HasKey(key, k)) {
        InsertKeepsOrder(StableSort(init, key), last, key, k);
      }
    }
  }

  /** Being sorted and keeping the order within every key determines the list. */
  lemma {:induction false} StableSortUnique<T>(xs: seq<T>, ys: seq<T>, key: T -> int)
    requires SortedBy(xs, key) && SortedBy(ys, key)
    requires forall k :: Filter(xs, HasKey(key, k)) == Filter(ys, HasKey(key, k))
    ensures xs == ys
  {
    if xs != [] && ys != [] {
      var x, y := xs[|xs| - 1], ys[|ys| - 1];
      LastKeyDominates(xs, ys, key);
      LastKeyDominates(ys, xs, key);
      assert key(x) == key(y);
      assert Filter(xs, HasKey(key, key(x)))[|Filter(xs, HasKey(key, key(x)))| - 1] == x;
      assert Filter(ys, HasKey(key, key(x)))[|Filter(ys, HasKey(key, key(x)))| - 1] == y;
      var xs', ys' := xs[..|xs| - 1], ys[..|ys| - 1];
      forall k ensures Filter(xs', HasKey(key, k)) == Filter(ys', HasKey(key, k)) {
        var tail := if key(x) == k then [x] else [];
        assert Filter(xs', HasKey(key, k)) + tail == Filter(ys', HasKey(key, k)) + tail;
        assert |Filter(xs', HasKey(key, k))| == |Filter(ys', HasKey(key, k))|;
        assert Filter(xs', HasKey(key, k)) == (Filter(xs', HasKey(key, k)) + tail)[..|Filter(xs', HasKey(key, k))|];
        assert Filter(ys', HasKey(key, k)) == (Filter(ys', HasKey(key, k)) + tail)[..|Filter(xs', HasKey(key, k))|];
      }
      StableSortUnique(xs', ys', key);
      assert xs == xs' + [x] && ys == ys' + [y];
    } else if xs != [] {
      SomeKeyPresent(xs, key);
    } else if ys != [] {
      SomeKeyPresent(ys, key);
    }
  }

  lemma SomeKeyPresent<T>(xs: seq<T>, key: T -> int)
    requires xs != []
    ensures exists k :: Filter(xs, HasKey(key, k)) != []
  {
    var k := key(xs[|xs| - 1]);
    assert Filter(xs, HasKey(key, k)) != [];
  }

  lemma LastKeyDominates<T>(xs: seq<T>, ys: seq<T>, key: T -> int)
    requires xs != [] && ys != [] && SortedBy(ys, key)
    requires forall k :: Filter(xs, HasKey(key, k)) == Filter(ys, HasKey(key, k))
    ensures key(xs[|xs| - 1]) <= key(ys[|ys| - 1])
  {
    hide Filter;
    var x := xs[|xs| - 1];
    FilterMembers(xs, HasKey(key, key(x)), x);
    FilterMembers(ys, HasKey(key, key(x)), x);
  }

  lemma {:induction false} FilterKeepsSorted<T>(xs: seq<T>, p: T -> bool, key: T -> int)
    requires SortedBy(xs, key)
    ensures SortedBy(Filter(xs, p), key)
  {
    if xs != [] {
      var init, last := xs[..|xs| - 1], xs[|xs| - 1];
      FilterKeepsSorted(init, p, key);
      var f := Filter(init, p);
      forall i | 0 <= i < |f| ensures key(f[i]) <= key(last) {
        FilterMembers(init, p, f[i]);
      }
    }
  }

  /** Sort-then-filter equals filter-then-sort. */
  lemma FilterSortCommute<T>(xs: seq<T>, p: T -> bool, key: T -> int)
    ensures Filter(StableSort(xs, key), p) == StableSort(Filter(xs, p), key)
  {
    StableSortMeaning(xs, key);
    StableSortMeaning(Filter(xs, p), key);
    FilterKeepsSorted(StableSort(xs, key), p, key);
    var a, b := Filter(StableSort(xs, key), p), StableSort(Filter(xs, p), key);
    forall k ensures Filter(a, HasKey(key, k)) == Filter(b, HasKey(key, k)) {
      FilterCommutes(StableSort(xs, key), p, HasKey(key, k));
      FilterCommutes(xs, p, HasKey(key, k));
    }
    StableSortUnique(a, b, key);
  }

  /** An already sorted list is left alone. */
  lemma {:induction false} SortedIsFixed<T>(xs: seq<T>, key: T -> int)
    requires SortedBy(xs, key)
    ensures StableSort(xs, key) == xs
  {
    StableSortMeaning(xs, key);
    StableSortUnique(StableSort(xs, key), xs, key);
  }
}
