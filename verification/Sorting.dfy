/** Sorting a sequence by an order, as `sort.Slice` does; nothing is promised about ties. */
module Sorting {

  /** Total and transitive; ties are allowed. */
  ghost predicate Orders<T(!new)>(before: (T, T) -> bool) {
    && (forall x, y :: before(x, y) || before(y, x))
    && (forall x, y, z :: before(x, y) && before(y, z) ==> before(x, z))
  }

  ghost predicate SortedBy<T>(s: seq<T>, before: (T, T) -> bool) {
    forall i, j :: 0 <= i < j < |s| ==> before(s[i], s[j])
  }

  function Insert<T>(x: T, s: seq<T>, before: (T, T) -> bool): seq<T> {
    if |s| == 0 || before(x, s[0]) then [x] + s else [s[0]] + Insert(x, s[1..], before)
  }

  function Sort<T>(s: seq<T>, before: (T, T) -> bool): seq<T> {
    if |s| == 0 then [] else Insert(s[0], Sort(s[1..], before), before)
  }

  lemma {:induction false} InsertKeeps<T>(x: T, s: seq<T>, before: (T, T) -> bool)
    ensures multiset(Insert(x, s, before)) == multiset(s) + multiset{x}
  {
    if |s| > 0 && !before(x, s[0]) {
      InsertKeeps(x, s[1..], before);
      assert s == [s[0]] + s[1..];
    }
  }

  lemma {:induction false} InsertSorts<T(!new)>(x: T, s: seq<T>, before: (T, T) -> bool)
    requires Orders(before) && SortedBy(s, before)
    ensures SortedBy(Insert(x, s, before), before)
  {
    if |s| > 0 && !before(x, s[0]) {
      InsertSorts(x, s[1..], before);
      InsertKeeps(x, s[1..], before);
      var rest := Insert(x, s[1..], before);
      forall j | 0 <= j < |rest| ensures before(s[0], rest[j]) {
        assert rest[j] in multiset(rest);
        assert rest[j] == x || rest[j] in s[1..];
      }
    }
  }

  /** The same elements, as often, in order. */
  lemma {:induction false} SortSorts<T(!new)>(s: seq<T>, before: (T, T) -> bool)
    requires Orders(before)
    ensures SortedBy(Sort(s, before), before) && multiset(Sort(s, before)) == multiset(s) && |Sort(s, before)| == |s|
  {
    if |s| > 0 {
      assert s == [s[0]] + s[1..];
      SortSorts(s[1..], before);
      InsertSorts(s[0], Sort(s[1..], before), before);
      InsertKeeps(s[0], Sort(s[1..], before), before);
    }
    assert |multiset(Sort(s, before))| == |multiset(s)|;
  }

  lemma SortMembers<T(!new)>(s: seq<T>, before: (T, T) -> bool, x: T)
    requires Orders(before)
    ensures x in Sort(s, before) <==> x in s
  {
    SortSorts(s, before);
    assert x in multiset(Sort(s, before)) <==> x in multiset(s);
  }
}
