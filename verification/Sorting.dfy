/** Selecting from a list, and stable sorting by a numeric key. */
module Sorting {

  function Filter<T>(keep: T -> bool, xs: seq<T>): seq<T> {
    if xs == [] then []
    else Filter(keep, xs[..|xs| - 1]) + if keep(xs[|xs| - 1]) then [xs[|xs| - 1]] else []
  }

  lemma FilterSnoc<T>(keep: T -> bool, xs: seq<T>, x: T)
    ensures Filter(keep, xs + [x]) == if keep(x) then Filter(keep, xs) + [x] else Filter(keep, xs)
  {
    assert (xs + [x])[..|xs|] == xs;
  }

  lemma {:induction false} FilterAll<T>(keep: T -> bool, xs: seq<T>)
    requires forall i :: 0 <= i < |xs| ==> keep(xs[i])
    ensures Filter(keep, xs) == xs
  {
    if xs != [] {
      FilterAll(keep, xs[..|xs| - 1]);
    }
  }

  lemma {:induction false} FilterKeeps<T>(keep: T -> bool, xs: seq<T>)
    ensures forall i :: 0 <= i < |Filter(keep, xs)| ==> keep(Filter(keep, xs)[i])
  {
    if xs != [] {
      FilterKeeps(keep, xs[..|xs| - 1]);
    }
  }

  lemma {:induction false} FilterAppend<T>(keep: T -> bool, xs: seq<T>, ys: seq<T>)
    ensures Filter(keep, xs + ys) == Filter(keep, xs) + Filter(keep, ys)
  {
    if ys == [] {
      assert xs + ys == xs;
    } else {
      var n := |ys| - 1;
      FilterAppend(keep, xs, ys[..n]);
      assert (xs + ys)[..|xs| + n] == xs + ys[..n];
    }
  }

  lemma {:induction false} FilterNone<T>(keep: T -> bool, xs: seq<T>)
    requires forall i :: 0 <= i < |xs| ==> !keep(xs[i])
    ensures Filter(keep, xs) == []
  {
    if xs != [] {
      FilterNone(keep, xs[..|xs| - 1]);
    }
  }

  function Insert<T>(key: T -> nat, x: T, xs: seq<T>): seq<T> {
    if xs == [] || key(x) < key(xs[0]) then [x] + xs else [xs[0]] + Insert(key, x, xs[1..])
  }

  function SortBy<T>(key: T -> nat, xs: seq<T>): seq<T> {
    if xs == [] then [] else Insert(key, xs[|xs| - 1], SortBy(key, xs[..|xs| - 1]))
  }

  ghost predicate SortedBy<T>(key: T -> nat, xs: seq<T>) {
    forall i, j :: 0 <= i < j < |xs| ==> key(xs[i]) <= key(xs[j])
  }

  lemma {:induction false} InsertKeeps<T>(key: T -> nat, x: T, xs: seq<T>)
    ensures multiset(Insert(key, x, xs)) == multiset(xs) + multiset{x}
  {
    if xs == [] || key(x) < key(xs[0]) {
    } else {
      InsertKeeps(key, x, xs[1..]);
      assert xs == [xs[0]] + xs[1..];
    }
  }

  lemma SortedCons<T>(key: T -> nat, x: T, xs: seq<T>)
    requires SortedBy(key, xs)
    requires forall y :: y in xs ==> key(x) <= key(y)
    ensures SortedBy(key, [x] + xs)
  {
  }

  lemma {:induction false} InsertSorted<T>(key: T -> nat, x: T, xs: seq<T>)
    requires SortedBy(key, xs)
    ensures SortedBy(key, Insert(key, x, xs))
  {
    if xs == [] || key(x) < key(xs[0]) {
      SortedCons(key, x, xs);
    } else {
      var rest := xs[1..];
      InsertSorted(key, x, rest);
      InsertKeeps(key, x, rest);
      forall y | y in Insert(key, x, rest) ensures key(xs[0]) <= key(y) {
        assert y in multiset(Insert(key, x, rest));
      }
      SortedCons(key, xs[0], Insert(key, x, rest));
    }
  }

  /** Sorting permutes its input into key order. */
  lemma {:induction false} SortByCorrect<T>(key: T -> nat, xs: seq<T>)
    ensures SortedBy(key, SortBy(key, xs))
    ensures multiset(SortBy(key, xs)) == multiset(xs)
  {
    if xs == [] {
    } else {
      SortByCorrect(key, xs[..|xs| - 1]);
      InsertSorted(key, xs[|xs| - 1], SortBy(key, xs[..|xs| - 1]));
      InsertKeeps(key, xs[|xs| - 1], SortBy(key, xs[..|xs| - 1]));
      assert xs == xs[..|xs| - 1] + [xs[|xs| - 1]];
    }
  }

  lemma {:induction false} InsertLast<T>(key: T -> nat, x: T, xs: seq<T>)
    requires forall y :: y in xs ==> key(y) <= key(x)
    ensures Insert(key, x, xs) == xs + [x]
  {
    if xs == [] {
    } else {
      InsertLast(key, x, xs[1..]);
    }
  }

  /** A sorted sequence is left as it is. */
  lemma {:induction false} SortByIdentity<T>(key: T -> nat, xs: seq<T>)
    requires SortedBy(key, xs)
    ensures SortBy(key, xs) == xs
  {
    if xs == [] {
    } else {
      SortByIdentity(key, xs[..|xs| - 1]);
      InsertLast(key, xs[|xs| - 1], xs[..|xs| - 1]);
    }
  }

  // Stability

  function HasKey<T>(key: T -> nat, k: nat): T -> bool {
    (x: T) => key(x) == k
  }

  lemma FilterOne<T>(keep: T -> bool, x: T)
    ensures Filter(keep, [x]) == if keep(x) then [x] else []
  {
    assert [x][..0] == [];
  }

  lemma FilterBefore<T>(key: T -> nat, x: T, xs: seq<T>, k: nat)
    requires forall i :: 0 <= i < |xs| ==> key(x) < key(xs[i])
    ensures Filter(HasKey(key, k), [x] + xs) == Filter(HasKey(key, k), xs) + if key(x) == k then [x] else []
  {
    FilterOne(HasKey(key, k), x);
    FilterAppend(HasKey(key, k), [x], xs);
    if key(x) == k {
      FilterNone(HasKey(key, k), xs);
    }
  }

  lemma FilterHead<T>(keep: T -> bool, head: T, xs: seq<T>, ys: seq<T>, more: seq<T>)
    requires Filter(keep, ys) == Filter(keep, xs) + more
    ensures Filter(keep, [head] + ys) == Filter(keep, [head] + xs) + more
  {
    hide Filter;
    FilterAppend(keep, [head], ys);
    FilterAppend(keep, [head], xs);
  }

  /** An element goes after those with its key. */
  lemma {:induction false} InsertStable<T>(key: T -> nat, x: T, xs: seq<T>, k: nat)
    requires SortedBy(key, xs)
    ensures Filter(HasKey(key, k), Insert(key, x, xs)) == Filter(HasKey(key, k), xs) + if key(x) == k then [x] else []
  {
    hide Filter;
    if xs == [] || key(x) < key(xs[0]) {
      FilterBefore(key, x, xs, k);
    } else {
      InsertStable(key, x, xs[1..], k);
      FilterHead(HasKey(key, k), xs[0], xs[1..], Insert(key, x, xs[1..]), if key(x) == k then [x] else []);
      assert xs == [xs[0]] + xs[1..];
    }
  }

  /** Sorting keeps elements with the same key in their order. */
  lemma {:induction false} SortByStable<T>(key: T -> nat, xs: seq<T>, k: nat)
    ensures Filter(HasKey(key, k), SortBy(key, xs)) == Filter(HasKey(key, k), xs)
  {
    if xs != [] {
      var before, x := xs[..|xs| - 1], xs[|xs| - 1];
      SortByStable(key, before, k);
      SortByCorrect(key, before);
      InsertStable(key, x, SortBy(key, before), k);
    }
  }
}
