/** Text order, sorting by a strict total order, and cutting a list into pages. */
module Ordering {

  /** Text order by code unit. */
  predicate TextLess(a: string, b: string) {
    b != "" && (a == "" || a[0] < b[0] || (a[0] == b[0] && TextLess(a[1..], b[1..])))
  }

  predicate TextAtMost(a: string, b: string) {
    a == b || TextLess(a, b)
  }

  lemma {:induction false} TextLessTotal(a: string, b: string)
    ensures TextLess(a, b) || a == b || TextLess(b, a)
    ensures !(TextLess(a, b) && TextLess(b, a))
    ensures !TextLess(a, a)
  {
    if a != "" {
      TextLessTotal(a[1..], a[1..]);
      if b != "" && a[0] == b[0] {
        TextLessTotal(a[1..], b[1..]);
        assert a == b <==> a[1..] == b[1..];
      }
    }
  }

  lemma {:induction false} TextLessTransitive(a: string, b: string, c: string)
    requires TextLess(a, b) && TextLess(b, c)
    ensures TextLess(a, c)
  {
    if a != "" && a[0] == b[0] && b[0] == c[0] {
      TextLessTransitive(a[1..], b[1..], c[1..]);
    }
  }

  /** `a` and `b` agree up to position `i`, where `a` ends or has the smaller character. */
  predicate LessAt(a: string, b: string, i: nat) {
    i <= |a| && i < |b| && a[..i] == b[..i] && (i == |a| || a[i] < b[i])
  }

  /** The order is lexicographic: the first difference decides, and a proper prefix is smaller. */
  lemma {:induction false} TextLessIs(a: string, b: string)
    ensures TextLess(a, b) <==> exists i: nat :: LessAt(a, b, i)
  {
    if a == "" || b == "" || a[0] != b[0] {
      assert b != "" && (a == "" || a[0] < b[0]) ==> LessAt(a, b, 0);
    } else {
      TextLessIs(a[1..], b[1..]);
      if i: nat :| LessAt(a[1..], b[1..], i) {
        assert a[..i + 1] == [a[0]] + a[1..][..i] && b[..i + 1] == [b[0]] + b[1..][..i];
        assert LessAt(a, b, i + 1);
      }
      if i: nat :| LessAt(a, b, i) {
        assert i > 0;
        assert a[1..][..i - 1] == a[..i][1..] && b[1..][..i - 1] == b[..i][1..];
        assert LessAt(a[1..], b[1..], i - 1);
      }
    }
  }

  // ----- sorting -----

  /** `less` is irreflexive, transitive and total on `s`. */
  ghost predicate StrictTotal(less: (nat, nat) -> bool, s: set<nat>) {
    && (forall x | x in s :: !less(x, x))
    && (forall x, y, z | x in s && y in s && z in s && less(x, y) && less(y, z) :: less(x, z))
    && (forall x, y | x in s && y in s :: less(x, y) || x == y || less(y, x))
  }

  predicate Sorted(less: (nat, nat) -> bool, xs: seq<nat>) {
    forall i, j | 0 <= i < j < |xs| :: less(xs[i], xs[j])
  }

  ghost function Elements(xs: seq<nat>): set<nat> {
    set x | x in xs
  }

  ghost predicate Distinct<T>(xs: seq<T>) {
    forall i, j | 0 <= i < j < |xs| :: xs[i] != xs[j]
  }

  /** There is only one sorted list of given elements, whatever algorithm produces it. */
  lemma {:induction false} SortedUnique(less: (nat, nat) -> bool, xs: seq<nat>, ys: seq<nat>)
    requires StrictTotal(less, Elements(xs)) && Elements(ys) == Elements(xs)
    requires Sorted(less, xs) && Sorted(less, ys)
    ensures xs == ys
  {
    if xs == [] {
      assert forall j | 0 <= j < |ys| :: ys[j] in Elements(ys);
    } else {
      assert xs[0] in Elements(ys) && ys != [];
      assert ys[0] in Elements(xs);
      var i :| 0 <= i < |xs| && xs[i] == ys[0];
      var j :| 0 <= j < |ys| && ys[j] == xs[0];
      assert xs[0] == ys[0];
      TailElements(less, xs);
      TailElements(less, ys);
      SortedUnique(less, xs[1..], ys[1..]);
    }
  }

  lemma TailElements(less: (nat, nat) -> bool, xs: seq<nat>)
    requires xs != [] && Sorted(less, xs) && forall x | x in xs :: !less(x, x)
    ensures Elements(xs[1..]) == Elements(xs) - {xs[0]}
  {
    assert xs == [xs[0]] + xs[1..];
    assert xs[0] !in xs[1..];
  }

  function Insert(less: (nat, nat) -> bool, x: nat, xs: seq<nat>): seq<nat> {
    if xs == [] || less(x, xs[0]) then [x] + xs else [xs[0]] + Insert(less, x, xs[1..])
  }

  function Sort(less: (nat, nat) -> bool, xs: seq<nat>): seq<nat> {
    if xs == [] then [] else Insert(less, xs[0], Sort(less, xs[1..]))
  }

  lemma ConsSorts(less: (nat, nat) -> bool, x: nat, xs: seq<nat>)
    requires Sorted(less, xs) && forall y | y in xs :: less(x, y)
    ensures Sorted(less, [x] + xs)
  {
  }

  lemma {:induction false} InsertSorts(less: (nat, nat) -> bool, x: nat, xs: seq<nat>)
    requires StrictTotal(less, Elements(xs) + {x}) && Sorted(less, xs) && x !in xs
    ensures Sorted(less, Insert(less, x, xs))
    ensures Elements(Insert(less, x, xs)) == Elements(xs) + {x}
    ensures |Insert(less, x, xs)| == |xs| + 1
  {
    if xs == [] {
    } else if less(x, xs[0]) {
      forall y | y in xs
        ensures less(x, y)
      {
        assert xs[0] in Elements(xs) && y in Elements(xs);
      }
      ConsSorts(less, x, xs);
      assert Elements([x] + xs) == Elements(xs) + {x};
    } else {
      var rest := xs[1..];
      assert xs == [xs[0]] + rest;
      assert Elements(xs) == Elements(rest) + {xs[0]};
      assert Sorted(less, rest);
      InsertSorts(less, x, rest);
      forall y | y in Insert(less, x, rest)
        ensures less(xs[0], y)
      {
        assert y in Elements(Insert(less, x, rest));
        assert xs[0] in Elements(xs);
      }
      ConsSorts(less, xs[0], Insert(less, x, rest));
      assert Elements([xs[0]] + Insert(less, x, rest)) == Elements(Insert(less, x, rest)) + {xs[0]};
    }
  }

  /** Sorting a duplicate-free list by a strict total order gives the sorted list of the same elements. */
  lemma {:induction false} SortSorts(less: (nat, nat) -> bool, xs: seq<nat>)
    requires Distinct(xs) && StrictTotal(less, Elements(xs))
    ensures Sorted(less, Sort(less, xs)) && Elements(Sort(less, xs)) == Elements(xs)
    ensures |Sort(less, xs)| == |xs|
  {
    if xs != [] {
      assert xs == [xs[0]] + xs[1..];
      assert Elements(xs) == Elements(xs[1..]) + {xs[0]};
      SortSorts(less, xs[1..]);
      assert xs[0] !in Elements(xs[1..]);
      assert Elements(Sort(less, xs[1..])) + {xs[0]} == Elements(xs);
      InsertSorts(less, xs[0], Sort(less, xs[1..]));
    }
  }

  lemma SortedDistinct(less: (nat, nat) -> bool, xs: seq<nat>)
    requires Sorted(less, xs) && StrictTotal(less, Elements(xs))
    ensures Distinct(xs)
  {
    assert forall k | 0 <= k < |xs| :: xs[k] in Elements(xs);
  }

  // ----- paging -----

  function Min(a: int, b: int): int {
    if a < b then a else b
  }

  /** Page `page`, counted from 1, of a list cut into pages of `perPage`. */
  function Page<T>(xs: seq<T>, page: nat, perPage: nat): seq<T>
    requires page >= 1
  {
    var start := Min((page - 1) * perPage, |xs|);
    xs[start..Min(start + perPage, |xs|)]
  }

  /** A page has the entries from position (page - 1) * perPage on, perPage of them or as many as there are. */
  lemma PageIs<T>(xs: seq<T>, page: nat, perPage: nat)
    requires page >= 1
    ensures |Page(xs, page, perPage)| == Min(perPage, |xs| - Min((page - 1) * perPage, |xs|))
    ensures forall i | 0 <= i < |Page(xs, page, perPage)| ::
      (page - 1) * perPage + i < |xs| && Page(xs, page, perPage)[i] == xs[(page - 1) * perPage + i]
  {
    Times(0, page - 1, perPage);
  }

  lemma PageWithin<T>(xs: seq<T>, page: nat, perPage: nat)
    requires page >= 1
    ensures forall x | x in Page(xs, page, perPage) :: x in xs
  {
  }

  /** The first `count` pages, one after the other. */
  function Pages<T>(xs: seq<T>, count: nat, perPage: nat): seq<T> {
    if count == 0 then [] else Pages(xs, count - 1, perPage) + Page(xs, count, perPage)
  }

  function PageCount(total: nat, perPage: nat): nat
    requires perPage >= 1
  {
    (total + perPage - 1) / perPage
  }

  lemma {:induction false} PagesArePrefix<T>(xs: seq<T>, count: nat, perPage: nat)
    ensures Pages(xs, count, perPage) == xs[..Min(count * perPage, |xs|)]
  {
    if count > 0 {
      PagesArePrefix(xs, count - 1, perPage);
      Times(count - 1, count, perPage);
      var start := Min((count - 1) * perPage, |xs|);
      assert Pages(xs, count, perPage) == xs[..start] + Page(xs, count, perPage);
    }
  }

  lemma Times(a: nat, b: nat, n: nat)
    requires a <= b
    ensures a * n <= b * n
    ensures (a + 1) * n == a * n + n
  {
  }

  lemma PageCountCovers(total: nat, perPage: nat)
    requires perPage >= 1
    ensures PageCount(total, perPage) * perPage >= total
    ensures total > 0 ==> (PageCount(total, perPage) - 1) * perPage < total
  {
    var n := total + perPage - 1;
    assert n == perPage * (n / perPage) + n % perPage;
  }

  lemma PastTheEnd<T>(xs: seq<T>, page: nat, perPage: nat)
    requires perPage >= 1 && page > PageCount(|xs|, perPage)
    ensures Page(xs, page, perPage) == []
  {
    PageCountCovers(|xs|, perPage);
    Times(PageCount(|xs|, perPage), page - 1, perPage);
  }

  /** The pages 1 to ceil(total / perPage) put together are the whole list; every later page is empty. */
  lemma PagesPartition<T>(xs: seq<T>, perPage: nat)
    requires perPage >= 1
    ensures Pages(xs, PageCount(|xs|, perPage), perPage) == xs
    ensures forall page | page > PageCount(|xs|, perPage) :: Page(xs, page, perPage) == []
  {
    hide PageCount, Page;
    PagesArePrefix(xs, PageCount(|xs|, perPage), perPage);
    PageCountCovers(|xs|, perPage);
    forall page: nat | page > PageCount(|xs|, perPage)
      ensures Page(xs, page, perPage) == []
    {
      PastTheEnd(xs, page, perPage);
    }
  }

  lemma PageEntry<T>(xs: seq<T>, page: nat, perPage: nat, x: T) returns (i: nat)
    requires page >= 1 && x in Page(xs, page, perPage)
    ensures (page - 1) * perPage <= i < page * perPage && i < |xs| && xs[i] == x
  {
    var start := Min((page - 1) * perPage, |xs|);
    var j :| 0 <= j < |Page(xs, page, perPage)| && Page(xs, page, perPage)[j] == x;
    Times(page - 1, page, perPage);
    i := start + j;
  }

  /** No entry is on two pages. */
  lemma PagesDisjoint<T>(xs: seq<T>, perPage: nat, p: nat, q: nat, x: T)
    requires perPage >= 1 && 1 <= p < q && Distinct(xs)
    requires x in Page(xs, p, perPage)
    ensures x !in Page(xs, q, perPage)
  {
    hide Page;
    var i := PageEntry(xs, p, perPage, x);
    Times(p, q - 1, perPage);
    if x in Page(xs, q, perPage) {
      var j := PageEntry(xs, q, perPage, x);
    }
  }
}
