/** sort.Slice and sort.Strings, specified by what a sort of distinct elements promises. */
module Sorting {
  import opened Base

  ghost predicate StrictOrder<T(!new)>(less: (T, T) -> bool) {
    && (forall a, b, c :: less(a, b) && less(b, c) ==> less(a, c))
    && (forall a, b :: less(a, b) || less(b, a) || a == b)
  }

  ghost predicate Ascending<T>(s: seq<T>, less: (T, T) -> bool) {
    forall i, j :: 0 <= i < j < |s| ==> less(s[i], s[j])
  }

  function Insert<T>(s: seq<T>, x: T, less: (T, T) -> bool): seq<T> {
    if s == [] || less(x, s[0]) then [x] + s else [s[0]] + Insert(s[1..], x, less)
  }

  function Sort<T>(s: seq<T>, less: (T, T) -> bool): seq<T> {
    if s == [] then [] else Insert(Sort(s[1..], less), s[0], less)
  }

  lemma {:induction false} InsertKeeps<T>(s: seq<T>, x: T, less: (T, T) -> bool)
    ensures multiset(Insert(s, x, less)) == multiset(s) + multiset{x}
  {
    if s != [] && !less(x, s[0]) {
      InsertKeeps(s[1..], x, less);
      assert s == [s[0]] + s[1..];
    }
  }

  lemma {:induction false} InsertAscending<T(!new)>(s: seq<T>, x: T, less: (T, T) -> bool)
    requires StrictOrder(less) && Ascending(s, less) && x !in s
    ensures Ascending(Insert(s, x, less), less)
  {
    if s == [] {
    } else if less(x, s[0]) {
      var r := [x] + s;
      forall i, j | 0 <= i < j < |r| ensures less(r[i], r[j]) {
        if i == 0 && j > 1 { assert less(s[0], s[j - 1]); }
      }
    } else {
      assert less(s[0], x);
      InsertAscending(s[1..], x, less);
      InsertKeeps(s[1..], x, less);
      var t := Insert(s[1..], x, less);
      forall y | y in t ensures less(s[0], y) {
        assert y in multiset(t);
        assert y == x || y in multiset(s[1..]);
      }
      var r := [s[0]] + t;
      forall i, j | 0 <= i < j < |r| ensures less(r[i], r[j]) {
        if i == 0 { assert r[j] in t; }
      }
    }
  }

  lemma {:induction false} SortSorts<T(!new)>(s: seq<T>, less: (T, T) -> bool)
    requires StrictOrder(less)
    ensures multiset(Sort(s, less)) == multiset(s)
    ensures NoDuplicates(s) ==> Ascending(Sort(s, less), less)
  {
    if s != [] {
      SortSorts(s[1..], less);
      var rest := Sort(s[1..], less);
      InsertKeeps(rest, s[0], less);
      assert s == [s[0]] + s[1..];
      if NoDuplicates(s) {
        forall i | 0 <= i < |rest| ensures rest[i] != s[0] {
          assert rest[i] in multiset(rest);
          assert rest[i] in multiset(s[1..]);
        }
        InsertAscending(rest, s[0], less);
      }
    }
  }

  /** The same, as membership. */
  lemma SortMembers<T(!new)>(s: seq<T>, less: (T, T) -> bool, x: T)
    requires StrictOrder(less)
    ensures x in Sort(s, less) <==> x in s
  {
    SortSorts(s, less);
    assert x in multiset(Sort(s, less)) <==> x in multiset(s);
  }
}
